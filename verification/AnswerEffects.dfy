/** What saving, closing and scoring do, told by the columns of the rows alone. */
module AnswerEffects {
  import opened Common
  import opened Answers
  import opened Validation
  import opened ValidationRuns

  // ----- saving ------------------------------------------------------------------------------------------------

  /** What a row holds after a save: the answer given, or the old one; scored there and then if the question scores
      itself, and not at all otherwise. */
  ghost predicate SavedAs(q: Question, before: Option<Row>, answer: Option<seq<string>>, after: Row) {
    match answer
    case None => after == if before.Some? then before.value else Row(None, None, None, None)
    case Some(entries) =>
      && after.answer == Some(entries)
      && (q.grading == Auto ==> after.score == Some(q.key(entries)))
      && (q.grading != Auto ==> after.score == None)
      && after.state == (if before.Some? then before.value.state else None)
      && after.job == (if before.Some? then before.value.job else None)
  }

  /** A save that commits writes that row and no other. */
  lemma SaveDoes(questions: map<Qid, Question>, w: World, tx: nat, answer: Option<seq<string>>)
    requires Enabled(questions, w, SaveCommit(tx, answer))
    ensures var w', key := Next(questions, w, SaveCommit(tx, answer)), w.saving[tx];
            && key in w'.rows && tx !in w'.saving
            && SavedAs(questions[key.1], if key in w.rows then Some(w.rows[key]) else None, answer, w'.rows[key])
            && (forall k :: k != key ==> (k in w'.rows <==> k in w.rows))
            && (forall k :: k != key && k in w.rows ==> w'.rows[k] == w.rows[k])
  {
  }

  /** A save may begin exactly while the section is open and its deadline, if any, is still to come. */
  lemma SaveBeginsIff(questions: map<Qid, Question>, w: World, tx: nat, key: Key, allowed: bool, now: Time)
    ensures Enabled(questions, w, SaveBegin(tx, key, allowed, now)) <==>
              && tx !in w.saving && allowed && key.1 in questions && questions[key.1].published
              && w.phase == Puzzles && (w.endsAt.Some? ==> now < w.endsAt.value)
  {
  }

  /** An answer to a question that scores itself carries that score, and nothing else does. */
  ghost predicate ScoresItself(questions: map<Qid, Question>, key: Key, row: Row)
    requires key.1 in questions
  {
    questions[key.1].grading == Auto ==>
      match row.answer
      case None => row.score == None
      case Some(entries) => row.score == Some(questions[key.1].key(entries))
  }

  ghost predicate AllScoreThemselves(questions: map<Qid, Question>, w: World) {
    forall key {:trigger w.rows[key]} :: key in w.rows ==>
      key.1 in questions && ScoresItself(questions, key, w.rows[key])
  }

  lemma StepKeepsSelfScores(questions: map<Qid, Question>, w: World, step: Step)
    requires Inv(questions, w) && AllScoreThemselves(questions, w) && Enabled(questions, w, step)
    ensures AllScoreThemselves(questions, Next(questions, w, step))
  {
    hide Distinct;
    hide Accepted;
    hide ScoreOk;
    var w' := Next(questions, w, step);
    forall key | key in w'.rows
      ensures key.1 in questions && ScoresItself(questions, key, w'.rows[key])
    {
      if key in w.rows {
        assert RowOk(questions, w, key);
        assert ScoresItself(questions, key, w.rows[key]);
      }
    }
  }

  /** In every run: the score of an answer that scores itself is the question's for the answer as it now stands. */
  lemma {:induction false} SelfScoresAreRight(questions: map<Qid, Question>, states: seq<World>, steps: seq<Step>, k: nat)
    requires IsRun(questions, states, steps) && k < |states|
    ensures AllScoreThemselves(questions, states[k])
  {
    if k > 0 {
      SelfScoresAreRight(questions, states, steps, k - 1);
      EveryStateIsOk(questions, states, steps, k - 1);
      assert IsStep(questions, states[k - 1], steps[k - 1], states[k]);
      hide Inv;
      hide AllScoreThemselves;
      StepKeepsSelfScores(questions, states[k - 1], steps[k - 1]);
    }
  }

  // ----- closing and extending -----------------------------------------------------------------------------------

  const PHASES := [Registration, Puzzles, HackingRound, Review, Auction1, Coding1, Auction2, Final, Ended]

  /** A press of Advance that finds the contest in the phase it was made in moves it to the one after, with the deadline
      given; any other changes nothing. Leaving Section A, every answer that a validator has yet to score is pending
      on no job, and every other stays as it was. */
  lemma AdvanceDoes(questions: map<Qid, Question>, w: World, i: nat, endsAt: Option<Time>)
    requires i < 9 && Enabled(questions, w, Step.Advance(PHASES[i], endsAt))
    ensures var w' := Next(questions, w, Step.Advance(PHASES[i], endsAt));
            if w.phase != PHASES[i] || i == 8 then w' == w
            else
              && w'.phase == PHASES[i + 1] && w'.endsAt == endsAt && w'.rows.Keys == w.rows.Keys
              && w'.saving == w.saving && w'.claimed == w.claimed
              && forall key :: key in w.rows ==>
                   w'.rows[key] ==
                     if i == 1 && AwaitsValidator(questions, key, w.rows[key])
                     then Row(w.rows[key].answer, w.rows[key].score, Some(Pending), None) else w.rows[key]
  {
  }

  /** An answer to a published question with a validator that has not been scored. */
  predicate AwaitsValidator(questions: map<Qid, Question>, key: Key, row: Row) {
    && key.1 in questions && questions[key.1].published && questions[key.1].grading == ByValidator
    && row.state != Some(Scored)
  }

  /** More time runs from the deadline, or from now once that is past; without a deadline there is none to move. */
  lemma ExtendDoes(questions: map<Qid, Question>, w: World, minutes: int, now: Time)
    requires Enabled(questions, w, Extend(minutes, now))
    ensures var w' := Next(questions, w, Extend(minutes, now));
            && w' == w.(endsAt := w'.endsAt)
            && match w.endsAt
               case None => w'.endsAt == None
               case Some(t) => w'.endsAt == Some((if t >= now then t else now) + minutes * 60000)
  {
  }

  // ----- scoring -----------------------------------------------------------------------------------------------------

  /** The entries that passed. */
  ghost function Passing(valid: seq<bool>): set<nat> {
    set i: nat | i < |valid| && valid[i]
  }

  lemma {:induction false} AcceptedCounts(valid: seq<bool>)
    ensures Accepted(valid) == |Passing(valid)|
  {
    if valid == [] {
      assert Passing(valid) == {};
    } else {
      var n := |valid| - 1;
      AcceptedCounts(valid[..n]);
      assert Passing(valid) == Passing(valid[..n]) + if valid[n] then {n} else {};
    }
  }

  /** Only this answer. */
  ghost predicate OnlyAnswer(w: World, w': World, key: Key) {
    && w'.rows.Keys == w.rows.Keys && w'.phase == w.phase
    && forall k :: k in w.rows && k != key ==> w'.rows[k] == w.rows[k]
  }

  /** A result is taken if and only if the answer is queued on that job: it pays the question's rate for each entry the
      validator passed, or is marked failed, with no score of its own, when the validator could not run. */
  lemma CollectDoes(questions: map<Qid, Question>, w: World, key: Key, job: Job)
    requires Enabled(questions, w, Collect(key, job))
    ensures var w', row := Next(questions, w, Collect(key, job)), w.rows[key];
            && OnlyAnswer(w, w', key)
            && w'.rows[key] ==
                 if !(row.state == Some(Queued) && row.job == Some(job)) then row
                 else
                   match w.replies[job]
                   case CouldNotRun => Row(row.answer, row.score, Some(Failed), row.job)
                   case Checked(valid) =>
                     var rate := if questions[key.1].perEntry.Some? then questions[key.1].perEntry.value else 0;
                     Row(row.answer, Some(rate * |Passing(valid)|), Some(Scored), row.job)
  {
    if w.replies[job].Checked? {
      AcceptedCounts(w.replies[job].valid);
    }
    hide Passing;
    hide Accepted;
  }

  /** An answer goes to the judge with its entries if and only if there are any and a validator to check them;
      otherwise it is scored at nothing. */
  lemma SendingDoes(questions: map<Qid, Question>, w: World, key: Key, job: Job)
    requires key in w.claimed && key in w.rows && key.1 in questions && job !in w.issued
    ensures var row, q := w.rows[key], questions[key.1];
            var entries := if row.answer.Some? then Distinct(q.telling, row.answer.value, q.maxEntries) else [];
            if q.hasValidator && entries != [] then
              && Enabled(questions, w, SendOk(key, job)) && !Enabled(questions, w, SendNothing(key))
              && var w' := Next(questions, w, SendOk(key, job));
                 && OnlyAnswer(w, w', key) && key !in w'.claimed
                 && w'.rows[key] == Row(row.answer, row.score, Some(Queued), Some(job))
                 && job in w'.issued && w'.issued[job] == Batch(key, entries)
            else
              && Enabled(questions, w, SendNothing(key)) && !Enabled(questions, w, SendOk(key, job))
              && var w' := Next(questions, w, SendNothing(key));
                 && OnlyAnswer(w, w', key) && key !in w'.claimed
                 && w'.rows[key] == Row(row.answer, Some(0), Some(Scored), row.job)
  {
    hide Distinct;
  }

  /** A lost job's answer is pending again if and only if it was queued on that job. */
  lemma LoseSendsBackIff(questions: map<Qid, Question>, w: World, key: Key, job: Job)
    requires Enabled(questions, w, Lose(key, job))
    ensures var w', row := Next(questions, w, Lose(key, job)), w.rows[key];
            && OnlyAnswer(w, w', key)
            && w'.rows[key] == if row.state == Some(Queued) && row.job == Some(job)
                               then Row(row.answer, row.score, Some(Pending), None) else row
  {
  }
}
