/** The contest row and the answer table, and the transactions on them, as the engine carries them out. */
module AnswerTable {
  import opened Common
  import opened Answers
  import opened Validation

  datatype SaveRefusal = SectionNotOpen | SectionClosed | NotAllowed | NoSuchQuestion

  datatype AdvanceRefusal = ContestOver | PhaseChanged(now: Phase)

  /** What the judge answers when entries are sent: a job, or nothing useful. */
  datatype SendReply = Accepted(job: Job) | Unreachable

  class Tables {
    const questions: map<Qid, Question>
    var phase: Phase
    var endsAt: Option<Time>
    var rows: map<Key, Row>

    constructor (questions: map<Qid, Question>)
      ensures this.questions == questions && phase == Registration && endsAt.None? && rows == map[]
    {
      this.questions, phase, endsAt, rows := questions, Registration, None, map[];
    }

    /** Save an answer, holding the contest row shared. */
    method SaveAnswer(key: Key, answer: Option<seq<string>>, allowed: bool, now: Time) returns (r: Result<(), SaveRefusal>)
      modifies this`rows
      ensures r.Ok? <==>
                SectionOpen(phase, endsAt, now) && allowed && key.1 in questions && questions[key.1].published
      ensures r.Err? ==> rows == old(rows)
      ensures r.Ok? ==>
                rows == old(rows)[key := Saved(questions[key.1],
                                               if key in old(rows) then Some(old(rows)[key]) else None, answer)]
    {
      if phase != Puzzles {
        return Err(SectionNotOpen);
      }
      if endsAt.Some? && endsAt.value <= now {
        return Err(SectionClosed);
      }
      if !allowed {
        return Err(NotAllowed);
      }
      if key.1 !in questions || !questions[key.1].published {
        return Err(NoSuchQuestion);
      }
      var q := questions[key.1];
      var row := if key in rows then rows[key] else BLANK;
      if answer.Some? {
        var score := if q.grading == Auto then Some(q.key(answer.value)) else None;
        row := row.(answer := answer, score := score);
      }
      rows := rows[key := row];
      r := Ok(());
    }

    /** The phase after `from`, refused when the contest has left `from` meanwhile. Leaving Section A also makes every
        unscored validator answer pending. */
    method Advance(from: Phase, deadline: Option<Time>) returns (r: Result<Phase, AdvanceRefusal>)
      modifies this
      ensures var w := World(old(phase), old(endsAt), map[], old(rows), {}, {}, map[], map[]);
              var w' := Next(questions, w, Step.Advance(from, deadline));
              phase == w'.phase && endsAt == w'.endsAt && rows == w'.rows
      ensures r.Ok? <==> old(phase) == from && NextPhase(from).Some?
      ensures r.Ok? ==> r.value == phase
      ensures r.Err? ==> r.error == if NextPhase(from).None? then ContestOver else PhaseChanged(old(phase))
    {
      var next := NextPhase(from);
      if next.None? {
        return Err(ContestOver);
      }
      if phase != from {
        return Err(PhaseChanged(phase));
      }
      phase, endsAt := next.value, deadline;
      if from == Puzzles {
        QueueValidatorScoring();
      }
      r := Ok(phase);
    }

    method QueueValidatorScoring()
      modifies this`rows
      ensures rows == AllQueued(questions, old(rows))
    {
      var todo := rows.Keys;
      while todo != {}
        invariant todo <= rows.Keys == old(rows).Keys
        invariant forall key :: key in rows ==>
                    rows[key] == if key in todo then old(rows)[key] else AllQueued(questions, old(rows))[key]
        decreases |todo|
      {
        var key :| key in todo;
        todo := todo - {key};
        if Validated(questions, key) && rows[key].state != Some(Scored) {
          rows := rows[key := rows[key].(state := Some(Pending), job := None)];
        }
      }
    }

    /** Send one pending answer to the judge, or score it zero when there is nothing to check. */
    method SendOne(key: Key, reply: SendReply) returns (sent: Option<seq<string>>)
      requires key in rows && key.1 in questions
      modifies this`rows
      ensures var q, row := questions[key.1], old(rows)[key];
              if NothingToCheck(q, row)
              then sent.None? && rows == old(rows)[key := row.(state := Some(Scored), score := Some(0))]
              else
                && sent == Some(EntriesOf(q, row))
                && rows == if reply.Accepted?
                           then old(rows)[key := row.(state := Some(Queued), job := Some(reply.job))] else old(rows)
    {
      var q, row := questions[key.1], rows[key];
      var entries := [];
      if row.answer.Some? {
        entries := DistinctEntries(q.telling, row.answer.value, q.maxEntries);
      }
      if !q.hasValidator || entries == [] {
        rows := rows[key := row.(state := Some(Scored), score := Some(0))];
        return None;
      }
      sent := Some(entries);
      if reply.Accepted? {
        rows := rows[key := row.(state := Some(Queued), job := Some(reply.job))];
      }
    }

    /** Record what a finished job says, if the answer still waits on it. */
    method Collect(key: Key, job: Job, reply: Reply) returns (changed: bool)
      requires key in rows && key.1 in questions
      modifies this`rows
      ensures rows == old(rows)[key := Collected(questions[key.1], old(rows)[key], job, reply)]
      ensures changed <==> WaitsOn(old(rows)[key], job)
    {
      var row := rows[key];
      changed := WaitsOn(row, job);
      match reply
      case CouldNotRun =>
        if changed {
          rows := rows[key := row.(state := Some(Failed))];
        }
      case Checked(valid) =>
        var count, i := 0, 0;
        while i < |valid|
          invariant 0 <= i <= |valid| && count == Validation.Accepted(valid[..i])
        {
          assert valid[..i + 1][..i] == valid[..i];
          if valid[i] {
            count := count + 1;
          }
          i := i + 1;
        }
        assert valid[..i] == valid;
        if changed {
          rows := rows[key := row.(state := Some(Scored), score := Some(count * PerEntry(questions[key.1])))];
        }
    }

    method Resend(key: Key, job: Job)
      requires key in rows
      modifies this`rows
      ensures rows == old(rows)[key := Lost(old(rows)[key], job)]
    {
      if WaitsOn(rows[key], job) {
        rows := rows[key := rows[key].(state := Some(Pending), job := None)];
      }
    }
  }
}
