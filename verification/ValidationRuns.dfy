/** Every run of Section A's closing and scoring: saves, phase changes, senders and pollers in any order. */
module ValidationRuns {
  import opened Common
  import opened Answers
  import opened Validation

  predicate Closed(phase: Phase) {
    phase != Registration && phase != Puzzles
  }

  /** Before the section closes nothing is being scored; after, nothing is being saved. */
  ghost predicate GateOk(w: World) {
    && (w.phase != Puzzles ==> w.saving == map[])
    && (!Closed(w.phase) ==> w.claimed == {})
  }

  /** What an answer's score says of the answer as it now stands. */
  ghost predicate ScoreOk(questions: map<Qid, Question>, w: World, key: Key)
    requires key in w.rows && key.1 in questions
  {
    var q, row := questions[key.1], w.rows[key];
    match row.job
    case None => NothingToCheck(q, row) && row.score == Some(0)
    case Some(job) =>
      && job in w.issued && w.issued[job].entries == EntriesOf(q, row)
      && job in w.replies && w.replies[job].Checked? && |w.replies[job].valid| == |EntriesOf(q, row)|
      && row.score == Some(PerEntry(q) * Accepted(w.replies[job].valid))
  }

  ghost predicate RowOk(questions: map<Qid, Question>, w: World, key: Key)
    requires key in w.rows
  {
    var row := w.rows[key];
    && key.1 in questions
    && (!Closed(w.phase) || !Validated(questions, key) ==> row.state.None? && row.job.None?)
    && (Validated(questions, key) && row.state != Some(Scored) ==> row.score.None?)
    && (row.state == Some(Pending) || row.state.None? ==> row.job.None?)
    && (row.state == Some(Queued) ==> row.job.Some?)
    && (row.job.Some? ==>
          row.job.value in w.issued && w.issued[row.job.value] == Batch(key, EntriesOf(questions[key.1], row)))
    && (row.state == Some(Scored) ==> ScoreOk(questions, w, key))
  }

  ghost predicate JudgeOk(w: World) {
    && (forall job :: job in w.replies ==>
          && job in w.issued
          && (w.replies[job].Checked? ==> |w.replies[job].valid| == |w.issued[job].entries|))
    && (forall key :: key in w.claimed ==> key in w.rows && w.rows[key].state == Some(Pending))
  }

  ghost predicate Inv(questions: map<Qid, Question>, w: World) {
    && GateOk(w)
    && JudgeOk(w)
    && forall key {:trigger RowOk(questions, w, key)} :: key in w.rows ==> RowOk(questions, w, key)
  }

  lemma NewRowOk(questions: map<Qid, Question>, w: World, step: Step)
    requires Inv(questions, w) && step.SaveCommit? && Enabled(questions, w, step)
    ensures RowOk(questions, Next(questions, w, step), w.saving[step.tx])
  {
    if w.saving[step.tx] in w.rows {
      assert RowOk(questions, w, w.saving[step.tx]);
    }
  }

  lemma RowStaysOk(questions: map<Qid, Question>, w: World, step: Step, key: Key)
    requires Inv(questions, w) && Enabled(questions, w, step) && key in w.rows
    requires !step.SaveCommit?
    ensures key in Next(questions, w, step).rows && RowOk(questions, Next(questions, w, step), key)
  {
    hide Distinct;
    hide Accepted;
    assert RowOk(questions, w, key);
  }

  lemma StepKeepsInv(questions: map<Qid, Question>, w: World, step: Step)
    requires Inv(questions, w) && Enabled(questions, w, step)
    ensures Inv(questions, Next(questions, w, step))
  {
    hide RowOk;
    hide Distinct;
    hide Accepted;
    var w' := Next(questions, w, step);
    if step.Claim? {
      OnlyScoredWhenClosed(questions, w, step.key);
    }
    forall key | key in w'.rows
      ensures RowOk(questions, w', key)
    {
      if step.SaveCommit? {
        if key == w.saving[step.tx] {
          NewRowOk(questions, w, step);
        } else {
          assert RowOk(questions, w, key);
          OtherRowOk(questions, w, step, key);
        }
      } else {
        RowStaysOk(questions, w, step, key);
      }
    }
  }

  lemma OnlyScoredWhenClosed(questions: map<Qid, Question>, w: World, key: Key)
    requires key in w.rows && RowOk(questions, w, key) && w.rows[key].state.Some?
    ensures Closed(w.phase)
  {
  }

  lemma OtherRowOk(questions: map<Qid, Question>, w: World, step: Step, key: Key)
    requires step.SaveCommit? && Enabled(questions, w, step) && key in w.rows && key != w.saving[step.tx]
    requires RowOk(questions, w, key)
    ensures RowOk(questions, Next(questions, w, step), key)
  {
  }

  // ----- runs -----------------------------------------------------------------------------------------

  const START: World := World(Registration, None, map[], map[], {}, {}, map[], map[])

  ghost predicate IsStep(questions: map<Qid, Question>, w: World, step: Step, w': World) {
    Enabled(questions, w, step) && Next(questions, w, step) == w'
  }

  ghost predicate IsRun(questions: map<Qid, Question>, states: seq<World>, steps: seq<Step>) {
    && |states| == |steps| + 1
    && states[0] == START
    && forall k {:trigger steps[k]} :: 0 <= k < |steps| ==> IsStep(questions, states[k], steps[k], states[k + 1])
  }

  lemma {:induction false} EveryStateIsOk(questions: map<Qid, Question>, states: seq<World>, steps: seq<Step>, k: nat)
    requires IsRun(questions, states, steps) && k < |states|
    ensures Inv(questions, states[k])
  {
    if k > 0 {
      EveryStateIsOk(questions, states, steps, k - 1);
      StepKeepsInv(questions, states[k - 1], steps[k - 1]);
    }
  }

  lemma ClosedStepIsFinal(questions: map<Qid, Question>, w: World, step: Step)
    requires Inv(questions, w) && Enabled(questions, w, step) && Closed(w.phase)
    ensures var w' := Next(questions, w, step);
            && Closed(w'.phase) && w'.rows.Keys == w.rows.Keys
            && forall key :: key in w.rows ==> w'.rows[key].answer == w.rows[key].answer
  {
    hide RowOk;
  }

  /** No answer is added or changed after the step that closed the section, however late a save began. */
  lemma {:induction false} AnswersAreFinal(questions: map<Qid, Question>, states: seq<World>, steps: seq<Step>,
                                           k: nat, later: nat)
    requires IsRun(questions, states, steps) && k <= later < |states| && Closed(states[k].phase)
    ensures Closed(states[later].phase) && states[later].rows.Keys == states[k].rows.Keys
    ensures forall key :: key in states[k].rows ==> states[later].rows[key].answer == states[k].rows[key].answer
  {
    if k < later {
      AnswersAreFinal(questions, states, steps, k, later - 1);
      EveryStateIsOk(questions, states, steps, later - 1);
      ClosedStepIsFinal(questions, states[later - 1], steps[later - 1]);
    }
  }

  /** A score on record is what the question pays for each distinct entry of the final answer that its validator
      accepted, and never more than for all it would take. A validator that could not run leaves no score. */
  lemma ScoresAreEarned(questions: map<Qid, Question>, states: seq<World>, steps: seq<Step>, k: nat, key: Key)
    requires IsRun(questions, states, steps) && k < |states|
    requires key in states[k].rows && Validated(questions, key)
    ensures var w, q, row := states[k], questions[key.1], states[k].rows[key];
            var entries := EntriesOf(q, row);
            if row.state != Some(Scored) then row.score.None?
            else if row.job.None? then row.score == Some(0) && (!q.hasValidator || entries == [])
            else
              && row.job.value in w.replies && w.replies[row.job.value].Checked? && row.job.value in w.issued
              && w.issued[row.job.value] == Batch(key, entries)
              && |w.replies[row.job.value].valid| == |entries|
              && row.score == Some(PerEntry(q) * Accepted(w.replies[row.job.value].valid))
    ensures var q, row := questions[key.1], states[k].rows[key];
            row.score.Some? && PerEntry(q) >= 0 && q.maxEntries >= 0 ==> 0 <= row.score.value <= PerEntry(q) * q.maxEntries
  {
    EveryStateIsOk(questions, states, steps, k);
    assert RowOk(questions, states[k], key);
    var w, q, row := states[k], questions[key.1], states[k].rows[key];
    if row.score.Some? && PerEntry(q) >= 0 && q.maxEntries >= 0 {
      if row.job.Some? {
        var accepted := Accepted(w.replies[row.job.value].valid);
        assert accepted <= |EntriesOf(q, row)| <= q.maxEntries;
        Scales(PerEntry(q), accepted, q.maxEntries);
      } else {
        Scales(PerEntry(q), 0, q.maxEntries);
      }
    }
  }

  lemma Scales(a: int, x: int, y: int)
    requires a >= 0 && 0 <= x <= y
    ensures 0 <= a * x <= a * y
  {
    assert a * (y - x) >= 0;
  }

  // ----- phases ---------------------------------------------------------------------------------------

  function Rank(phase: Phase): nat {
    match phase
    case Registration => 0
    case Puzzles => 1
    case HackingRound => 2
    case Review => 3
    case Auction1 => 4
    case Coding1 => 5
    case Auction2 => 6
    case Final => 7
    case Ended => 8
  }

  lemma {:induction false} PhasesOnlyAdvance(questions: map<Qid, Question>, states: seq<World>, steps: seq<Step>,
                                             k: nat, later: nat)
    requires IsRun(questions, states, steps) && k <= later < |states|
    ensures Rank(states[k].phase) <= Rank(states[later].phase) <= Rank(states[k].phase) + (later - k)
  {
    if k < later {
      PhasesOnlyAdvance(questions, states, steps, k, later - 1);
      StepRank(questions, states[later - 1], steps[later - 1]);
    }
  }

  lemma StepRank(questions: map<Qid, Question>, w: World, step: Step)
    requires Enabled(questions, w, step)
    ensures Rank(w.phase) <= Rank(Next(questions, w, step).phase) <= Rank(w.phase) + 1
  {
  }

  /** This press of Advance moved the contest. */
  ghost predicate Moves(states: seq<World>, steps: seq<Step>, k: nat) {
    k < |steps| && |states| == |steps| + 1 && steps[k].Advance? && states[k + 1].phase != states[k].phase
  }

  /** Two organisers who pressed Advance on the same phase moved the contest once: only one press counts, and it
      moved to the next phase. */
  lemma AdvanceMovesOnce(questions: map<Qid, Question>, states: seq<World>, steps: seq<Step>, k: nat, later: nat)
    requires IsRun(questions, states, steps) && k < later && Moves(states, steps, k) && Moves(states, steps, later)
    ensures steps[k].from != steps[later].from
    ensures states[k].phase == steps[k].from && NextPhase(steps[k].from) == Some(states[k + 1].phase)
  {
    assert IsStep(questions, states[k], steps[k], states[k + 1]);
    assert IsStep(questions, states[later], steps[later], states[later + 1]);
    PhasesOnlyAdvance(questions, states, steps, k + 1, later);
  }
}
