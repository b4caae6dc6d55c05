/** Every run of judging: several senders and pollers, late and repeated results, lost jobs, cancels and
    rejudges, in any order. */
module JudgingRuns {
  import opened Common
  import opened Judgements

  // ----- the invariant -----------------------------------------------------------------------------

  predicate SameSub(rows: seq<Row>, i: nat, j: nat)
    requires i < |rows| && j < |rows|
  {
    rows[i].sub == rows[j].sub
  }

  /** Later judgements of a submission have later attempts, and have superseded the earlier ones. */
  ghost predicate Ordered(rows: seq<Row>) {
    forall i, j {:trigger SameSub(rows, i, j)} :: 0 <= i < j < |rows| && SameSub(rows, i, j) ==>
      rows[i].superseded && rows[i].attempt < rows[j].attempt
  }

  predicate JustBefore(rows: seq<Row>, i: nat, j: nat) {
    i < |rows| && j < |rows| && rows[i].sub == rows[j].sub && rows[i].attempt + 1 == rows[j].attempt
  }

  /** No attempt is skipped. */
  ghost predicate Preceded(rows: seq<Row>, j: nat)
    requires j < |rows|
  {
    rows[j].attempt == 1 || (rows[j].attempt > 1 && exists i :: JustBefore(rows, i, j))
  }

  ghost predicate HasCurrent(rows: seq<Row>, sub: nat) {
    exists i :: CurrentOf(rows, sub, i)
  }

  ghost predicate Complete(subs: seq<Pid>, rows: seq<Row>) {
    && (forall j {:trigger Preceded(rows, j)} :: 0 <= j < |rows| ==> Preceded(rows, j))
    && (forall s: nat {:trigger HasCurrent(rows, s)} :: s < |subs| ==> HasCurrent(rows, s))
  }

  ghost predicate HistoryOk(w: World) {
    RowsHaveSubs(w.subs, w.rows) && Ordered(w.rows) && Complete(w.subs, w.rows)
  }

  /** A row waits on a job sent for it, and on no job when it has yet to be sent. */
  ghost predicate RowOk(w: World, i: nat)
    requires i < |w.rows|
  {
    var r := w.rows[i];
    && (r.job.Some? ==> r.job.value in w.issued && w.issued[r.job.value] == i)
    && (r.state == Pending ==> r.job.None?)
    && (r.state == Queued || r.state == Running ==> r.job.Some?)
    && (r.state == Done <==> r.verdict.Some?)
    && (r.state == Done <==> r.ended.Some?)
  }

  ghost predicate CancelOk(w: World, who: Pid, c: Cancel) {
    && c.at <= w.clock
    && forall i :: i in c.todo ==>
         i < |w.rows| && w.rows[i].sub < |w.subs| && w.subs[w.rows[i].sub] == who && w.rows[i].state != Done && c.any
  }

  ghost predicate LocksOk(w: World) {
    && (forall i :: i in w.claimed ==> i < |w.rows| && Claimable(w.rows[i]))
    && (forall ask :: ask in w.asked ==> ask.1 in w.issued && w.issued[ask.1] == ask.0)
    && (forall who :: who in w.cancels ==> CancelOk(w, who, w.cancels[who]))
  }

  /** The owner's cooldown has counted this row's end, or is about to. */
  ghost predicate CountedEnd(w: World, i: nat)
    requires RowsHaveSubs(w.subs, w.rows) && i < |w.rows|
  {
    var who := Owner(w, i);
    w.rows[i].ended.Some? ==>
      || (who in w.lastEnded && w.rows[i].ended.value <= w.lastEnded[who])
      || (who in w.cancels && w.cancels[who].any && w.rows[i].ended.value <= w.cancels[who].at)
  }

  ghost predicate EndsInOrder(w: World) {
    && (forall who :: who in w.lastEnded ==> w.lastEnded[who] <= w.clock)
    && (forall who :: who in w.cancels && who in w.lastEnded ==> w.lastEnded[who] <= w.cancels[who].at)
  }

  ghost predicate EndsOk(w: World)
    requires RowsHaveSubs(w.subs, w.rows)
  {
    && (forall i {:trigger CountedEnd(w, i)} :: 0 <= i < |w.rows| ==> CountedEnd(w, i))
    && EndsInOrder(w)
  }

  ghost predicate Inv(w: World) {
    && HistoryOk(w)
    && (forall i {:trigger RowOk(w, i)} :: 0 <= i < |w.rows| ==> RowOk(w, i))
    && LocksOk(w)
    && EndsOk(w)
  }

  // ----- one step ---------------------------------------------------------------------------------

  /** What a step does to one row. */
  function RowAfter(w: World, step: Step, i: nat): Row
    requires i < |w.rows|
  {
    var r := w.rows[i];
    match step
    case SendOk(row, job) => if row == i then Sent(r, job) else r
    case WriteRefusal(row, now) => if row == i && Waiting(r, None) then Finished(r, IE, now) else r
    case Lose(row, job) => if row == i then Resent(r, job) else r
    case Report(row, job, running) => if row == i then Progressed(r, job, running) else r
    case Record(row, job, verdict, now) => if row == i && Waiting(r, Some(job)) then Finished(r, verdict, now) else r
    case Rejudge(row) => if row == i then r.(superseded := true) else r
    case CancelOne(who, row) => if row == i && who in w.cancels then Cancelled(r, w.cancels[who].at) else r
    case _ => r
  }

  lemma NextRow(w: World, step: Step, i: nat)
    requires RowsHaveSubs(w.subs, w.rows) && Enabled(w, step) && i < |w.rows|
    ensures i < |Next(w, step).rows| && Next(w, step).rows[i] == RowAfter(w, step, i)
    ensures Next(w, step).issued == if step.SendOk? then w.issued[step.job := step.row] else w.issued
  {
    hide SubmitRefusal;
    hide RowsHaveSubs;
    hide Finished;
    hide Progressed;
    hide Resent;
    hide Sent;
    hide Waiting;
  }

  lemma NextSubs(w: World, step: Step)
    requires RowsHaveSubs(w.subs, w.rows) && Enabled(w, step)
    ensures var w' := Next(w, step);
            && w'.subs == w.subs + (if step.Submit? && Submitted(w, step.who, step.now).Ok? then [step.who] else [])
            && |w'.rows| == |w.rows| + (if step.Rejudge? || |w'.subs| > |w.subs| then 1 else 0)
            && (|w'.rows| > |w.rows| ==> w'.rows[|w.rows|] == NewRow(w'.rows[|w.rows|].sub, w'.rows[|w.rows|].attempt))
            && (|w'.subs| > |w.subs| ==> w'.rows[|w.rows|].sub == |w.subs|)
  {
  }

  /** Steps other than these three leave the rows' submissions and attempts alone. */
  ghost predicate SameHistory(rows: seq<Row>, rows': seq<Row>) {
    && |rows'| == |rows|
    && forall i :: 0 <= i < |rows| ==>
         rows'[i].sub == rows[i].sub && rows'[i].attempt == rows[i].attempt && rows'[i].superseded == rows[i].superseded
  }

  lemma StaysPreceded(rows: seq<Row>, rows': seq<Row>, j: nat)
    requires |rows| <= |rows'| && SameHistory(rows, rows'[..|rows|]) && j < |rows| && Preceded(rows, j)
    ensures Preceded(rows', j)
  {
    assert forall i :: 0 <= i < |rows| ==> rows'[i] == rows'[..|rows|][i];
    if rows[j].attempt != 1 {
      var i :| JustBefore(rows, i, j);
      assert JustBefore(rows', i, j);
    }
  }

  lemma SameHistoryKeeps(subs: seq<Pid>, rows: seq<Row>, rows': seq<Row>)
    requires SameHistory(rows, rows') && Ordered(rows) && Complete(subs, rows)
    ensures Ordered(rows') && Complete(subs, rows')
  {
    forall i, j | 0 <= i < j < |rows'| && SameSub(rows', i, j)
      ensures rows'[i].superseded && rows'[i].attempt < rows'[j].attempt
    {
      assert SameSub(rows, i, j);
    }
    forall j | 0 <= j < |rows'|
      ensures Preceded(rows', j)
    {
      assert rows'[..|rows|] == rows';
      StaysPreceded(rows, rows', j);
    }
    forall s: nat {:trigger HasCurrent(rows', s)} | s < |subs|
      ensures HasCurrent(rows', s)
    {
      assert HasCurrent(rows, s);
      var i :| CurrentOf(rows, s, i);
      assert CurrentOf(rows', s, i);
    }
  }

  lemma SubmitKeepsHistory(subs: seq<Pid>, rows: seq<Row>, who: Pid)
    requires RowsHaveSubs(subs, rows) && Ordered(rows) && Complete(subs, rows)
    ensures Ordered(rows + [NewRow(|subs|, 1)]) && Complete(subs + [who], rows + [NewRow(|subs|, 1)])
  {
    var subs', rows' := subs + [who], rows + [NewRow(|subs|, 1)];
    forall i, j | 0 <= i < j < |rows'| && SameSub(rows', i, j)
      ensures rows'[i].superseded && rows'[i].attempt < rows'[j].attempt
    {
      assert j < |rows| ==> SameSub(rows, i, j);
    }
    forall j | 0 <= j < |rows'|
      ensures Preceded(rows', j)
    {
      if j < |rows| {
        assert rows'[..|rows|] == rows;
        StaysPreceded(rows, rows', j);
      }
    }
    forall s: nat {:trigger HasCurrent(rows', s)} | s < |subs'|
      ensures HasCurrent(rows', s)
    {
      if s < |subs| {
        assert HasCurrent(rows, s);
        var i :| CurrentOf(rows, s, i);
        assert CurrentOf(rows', s, i);
      } else {
        assert CurrentOf(rows', s, |rows|);
      }
    }
  }

  lemma RejudgeKeepsOrder(rows: seq<Row>, c: nat)
    requires Ordered(rows) && c < |rows| && !rows[c].superseded
    ensures Ordered(Rejudged(rows, c))
  {
    var rows' := Rejudged(rows, c);
    forall i, j | 0 <= i < j < |rows'| && SameSub(rows', i, j)
      ensures rows'[i].superseded && rows'[i].attempt < rows'[j].attempt
    {
      if j < |rows| {
        assert SameSub(rows, i, j);
      } else if i < c {
        assert SameSub(rows, i, c);
      } else if c < i {
        assert SameSub(rows, c, i);
      }
    }
  }

  lemma RejudgeKeepsComplete(subs: seq<Pid>, rows: seq<Row>, c: nat)
    requires Complete(subs, rows) && c < |rows| && rows[c].attempt >= 1
    ensures Complete(subs, Rejudged(rows, c))
  {
    var rows' := Rejudged(rows, c);
    forall j | 0 <= j < |rows'|
      ensures Preceded(rows', j)
    {
      if j < |rows| {
        assert Preceded(rows, j);
        if rows[j].attempt != 1 {
          var i :| JustBefore(rows, i, j);
          assert JustBefore(rows', i, j);
        }
      } else {
        assert JustBefore(rows', c, j);
      }
    }
    forall s: nat {:trigger HasCurrent(rows', s)} | s < |subs|
      ensures HasCurrent(rows', s)
    {
      if s == rows[c].sub {
        assert CurrentOf(rows', s, |rows|);
      } else {
        assert HasCurrent(rows, s);
        var i :| CurrentOf(rows, s, i);
        assert CurrentOf(rows', s, i);
      }
    }
  }

  lemma OtherStepSameHistory(w: World, step: Step)
    requires RowsHaveSubs(w.subs, w.rows) && Enabled(w, step) && !step.Submit? && !step.Rejudge?
    ensures Next(w, step).subs == w.subs && SameHistory(w.rows, Next(w, step).rows)
  {
  }

  lemma StepKeepsHistory(w: World, step: Step)
    requires HistoryOk(w) && Enabled(w, step)
    ensures HistoryOk(Next(w, step))
  {
    hide Ordered;
    hide Complete;
    if step.Submit? {
      SubmitKeepsHistory(w.subs, w.rows, step.who);
    } else if step.Rejudge? {
      AttemptsFromOne(w, step.row);
      RejudgeKeepsOrder(w.rows, step.row);
      RejudgeKeepsComplete(w.subs, w.rows, step.row);
    } else {
      OtherStepSameHistory(w, step);
      SameHistoryKeeps(w.subs, w.rows, Next(w, step).rows);
    }
  }

  lemma AttemptsFromOne(w: World, i: nat)
    requires HistoryOk(w) && i < |w.rows|
    ensures w.rows[i].attempt >= 1
  {
    assert Preceded(w.rows, i);
  }

  lemma RowStaysOk(w: World, step: Step, i: nat)
    requires RowsHaveSubs(w.subs, w.rows) && Enabled(w, step) && i < |w.rows| && RowOk(w, i)
    requires step.SendOk? ==> Claimable(w.rows[step.row])
    ensures i < |Next(w, step).rows| && RowOk(Next(w, step), i)
  {
    NextRow(w, step, i);
    hide Next;
  }

  lemma NewRowOk(w: World, i: nat)
    requires i < |w.rows| && w.rows[i] == NewRow(w.rows[i].sub, w.rows[i].attempt)
    ensures RowOk(w, i)
  {
  }

  lemma StepKeepsRows(w: World, step: Step)
    requires Inv(w) && Enabled(w, step)
    ensures forall i {:trigger RowOk(Next(w, step), i)} :: 0 <= i < |Next(w, step).rows| ==> RowOk(Next(w, step), i)
  {
    hide Ordered;
    hide Complete;
    hide EndsOk;
    hide CancelOk;
    hide RowOk;
    NextSubs(w, step);
    hide Next;
    var w' := Next(w, step);
    forall i | 0 <= i < |w'.rows|
      ensures RowOk(w', i)
    {
      if i < |w.rows| {
        RowStaysOk(w, step, i);
      } else {
        NewRowOk(w', i);
      }
    }
  }

  /** What a cancel has yet to mark, nothing else finishes. */
  lemma TodoStaysOpen(w: World, step: Step, who: Pid, i: nat)
    requires RowsHaveSubs(w.subs, w.rows) && LocksOk(w) && Enabled(w, step) && who in w.cancels
    requires i in w.cancels[who].todo && i < |w.rows| && (step.CancelOne? ==> step.row != i)
    ensures i < |Next(w, step).rows| && Next(w, step).rows[i].sub == w.rows[i].sub
    ensures Next(w, step).rows[i].state != Done
  {
    assert CancelOk(w, who, w.cancels[who]);
    NextRow(w, step, i);
    hide Next;
  }

  lemma TodosApart(w: World, who: Pid, other: Pid)
    requires LocksOk(w) && who in w.cancels && other in w.cancels && who != other
    ensures w.cancels[who].todo !! w.cancels[other].todo
  {
    assert CancelOk(w, who, w.cancels[who]) && CancelOk(w, other, w.cancels[other]);
  }

  lemma NextCancel(w: World, step: Step, who: Pid)
    requires RowsHaveSubs(w.subs, w.rows) && Enabled(w, step) && who in w.cancels && who in Next(w, step).cancels
    ensures var c, c' := w.cancels[who], Next(w, step).cancels[who];
            && c'.todo == c.todo - (if step.CancelOne? && step.who == who then {step.row} else {})
            && c'.any == c.any && c'.at == c.at
    ensures Next(w, step).clock >= w.clock && w.subs <= Next(w, step).subs
  {
  }

  lemma CancelStaysOk(w: World, step: Step, who: Pid)
    requires RowsHaveSubs(w.subs, w.rows) && LocksOk(w) && Enabled(w, step) && who in w.cancels && who in Next(w, step).cancels
    ensures CancelOk(Next(w, step), who, Next(w, step).cancels[who])
  {
    assert CancelOk(w, who, w.cancels[who]);
    if step.CancelOne? && step.who != who {
      TodosApart(w, step.who, who);
    }
    NextCancel(w, step, who);
    var w' := Next(w, step);
    forall i | i in w'.cancels[who].todo
      ensures i < |w'.rows| && w'.rows[i].sub == w.rows[i].sub && w'.rows[i].state != Done
    {
      TodoStaysOpen(w, step, who, i);
    }
    hide LocksOk;
    hide Next;
  }

  /** A sender's row stays pending and current as long as it is held. */
  lemma ClaimStaysOk(w: World, step: Step, i: nat)
    requires RowsHaveSubs(w.subs, w.rows) && Enabled(w, step) && i < |w.rows| && RowOk(w, i)
    requires i in w.claimed ==> Claimable(w.rows[i])
    requires (i in w.claimed && (step.SendOk? ==> step.row != i)) || (step.Claim? && step.row == i)
    ensures i < |Next(w, step).rows| && Claimable(Next(w, step).rows[i])
  {
    NextRow(w, step, i);
    hide Next;
  }

  lemma NextLocks(w: World, step: Step)
    requires RowsHaveSubs(w.subs, w.rows) && Enabled(w, step)
    ensures var w' := Next(w, step);
            && (forall i :: i in w'.claimed ==>
                  (i in w.claimed && (step.SendOk? ==> step.row != i)) || (step.Claim? && step.row == i))
            && w'.asked == w.asked + (if step.Ask? then {(step.row, w.rows[step.row].job.value)} else {})
  {
  }

  lemma StepKeepsLocks(w: World, step: Step)
    requires Inv(w) && Enabled(w, step)
    ensures LocksOk(Next(w, step))
  {
    hide Ordered;
    hide Complete;
    hide EndsOk;
    hide CancelOk;
    var w' := Next(w, step);
    NextLocks(w, step);
    NextSubs(w, step);
    if step.Ask? || step.SendOk? {
      assert RowOk(w, step.row);
      NextRow(w, step, step.row);
    }
    AsksStayOk(w, step);
    forall i | i in w'.claimed
      ensures i < |w'.rows| && Claimable(w'.rows[i])
    {
      assert i < |w.rows| && RowOk(w, i);
      ClaimStaysOk(w, step, i);
    }
    forall who | who in w'.cancels
      ensures CancelOk(w', who, w'.cancels[who])
    {
      if who in w.cancels {
        CancelStaysOk(w, step, who);
      } else {
        NewCancelOk(w, step);
      }
    }
    hide Next;
  }

  lemma AsksStayOk(w: World, step: Step)
    requires RowsHaveSubs(w.subs, w.rows) && Enabled(w, step)
    requires step.Ask? ==> RowOk(w, step.row)
    requires forall ask :: ask in w.asked ==> ask.1 in w.issued && w.issued[ask.1] == ask.0
    ensures forall ask :: ask in Next(w, step).asked ==>
              ask.1 in Next(w, step).issued && Next(w, step).issued[ask.1] == ask.0
  {
    NextLocks(w, step);
    hide RowOk;
    if step.Ask? {
      JobWasIssued(w, step.row);
    }
  }

  lemma JobWasIssued(w: World, i: nat)
    requires i < |w.rows| && RowOk(w, i) && w.rows[i].job.Some?
    ensures w.rows[i].job.value in w.issued && w.issued[w.rows[i].job.value] == i
  {
  }

  lemma NewCancelOk(w: World, step: Step)
    requires RowsHaveSubs(w.subs, w.rows) && Enabled(w, step) && step.CancelRead?
    ensures CancelOk(Next(w, step), step.who, Next(w, step).cancels[step.who])
  {
  }

  lemma WriteStaysCounted(w: World, row: nat, job: Option<Job>, verdict: Verdict, now: Time, i: nat)
    requires RowsHaveSubs(w.subs, w.rows) && EndsInOrder(w) && row < |w.rows| && w.clock <= now
    requires Owner(w, row) !in w.cancels && i < |w.rows| && CountedEnd(w, i)
    ensures CountedEnd(Written(w, row, job, verdict, now), i)
  {
    assert Owner(Written(w, row, job, verdict, now), i) == Owner(w, i);
  }

  lemma CancelStaysCounted(w: World, step: Step, i: nat)
    requires RowsHaveSubs(w.subs, w.rows) && EndsInOrder(w) && LocksOk(w) && Enabled(w, step)
    requires step.CancelRead? || step.CancelOne? || step.CancelEnd?
    requires i < |w.rows| && CountedEnd(w, i)
    ensures CountedEnd(Next(w, step), i)
  {
    assert Owner(Next(w, step), i) == Owner(w, i);
    if step.CancelOne? && step.row == i {
      assert CancelOk(w, step.who, w.cancels[step.who]);
    }
  }

  lemma RowStaysCounted(w: World, step: Step, i: nat)
    requires RowsHaveSubs(w.subs, w.rows) && EndsInOrder(w) && LocksOk(w) && Enabled(w, step)
    requires i < |w.rows| && CountedEnd(w, i) && RowsHaveSubs(Next(w, step).subs, Next(w, step).rows)
    ensures CountedEnd(Next(w, step), i)
  {
    hide LocksOk;
    hide EndsInOrder;
    hide Written;
    if step.Record? {
      WriteStaysCounted(w, step.row, Some(step.job), step.verdict, step.now, i);
    } else if step.WriteRefusal? {
      WriteStaysCounted(w, step.row, None, IE, step.now, i);
    } else if step.CancelRead? || step.CancelOne? || step.CancelEnd? {
      CancelStaysCounted(w, step, i);
    } else {
      assert Owner(Next(w, step), i) == Owner(w, i);
    }
  }

  lemma StepKeepsEnds(w: World, step: Step)
    requires Inv(w) && Enabled(w, step) && HistoryOk(Next(w, step))
    ensures EndsOk(Next(w, step))
  {
    hide Ordered;
    hide Complete;
    hide RowOk;
    hide CountedEnd;
    EndsStayInOrder(w, step);
    var w' := Next(w, step);
    forall i | 0 <= i < |w'.rows|
      ensures CountedEnd(w', i)
    {
      if i < |w.rows| {
        RowStaysCounted(w, step, i);
      } else {
        NewRowIsCounted(w', i);
      }
    }
    hide EndsInOrder;
  }

  lemma EndsStayInOrder(w: World, step: Step)
    requires Inv(w) && Enabled(w, step)
    ensures EndsInOrder(Next(w, step))
  {
    hide Ordered;
    hide Complete;
    hide RowOk;
    hide CountedEnd;
    if step.CancelEnd? {
      assert CancelOk(w, step.who, w.cancels[step.who]);
    }
  }

  lemma NewRowIsCounted(w: World, i: nat)
    requires RowsHaveSubs(w.subs, w.rows) && i < |w.rows| && w.rows[i].ended.None?
    ensures CountedEnd(w, i)
  {
  }

  lemma StepKeepsInv(w: World, step: Step)
    requires Inv(w) && Enabled(w, step)
    ensures Inv(Next(w, step))
  {
    StepKeepsHistory(w, step);
    StepKeepsRows(w, step);
    StepKeepsLocks(w, step);
    StepKeepsEnds(w, step);
  }

  // ----- runs -----------------------------------------------------------------------------------------

  const EMPTY: World := World([], [], map[], {}, {}, map[], {}, map[], {}, 0)

  ghost predicate IsStep(w: World, step: Step, w': World) {
    RowsHaveSubs(w.subs, w.rows) && Enabled(w, step) && Next(w, step) == w'
  }

  ghost predicate IsRun(states: seq<World>, steps: seq<Step>) {
    && |states| == |steps| + 1
    && states[0] == EMPTY
    && forall k {:trigger steps[k]} :: 0 <= k < |steps| ==> IsStep(states[k], steps[k], states[k + 1])
  }

  lemma {:induction false} EveryStateIsOk(states: seq<World>, steps: seq<Step>, k: nat)
    requires IsRun(states, steps) && k < |states|
    ensures Inv(states[k])
  {
    if k > 0 {
      EveryStateIsOk(states, steps, k - 1);
      StepKeepsInv(states[k - 1], steps[k - 1]);
    }
  }

  // ----- one current judgement, attempts 1 to n --------------------------------------------------------

  predicate IsAttempt(rows: seq<Row>, sub: nat, attempt: nat, i: nat) {
    i < |rows| && rows[i].sub == sub && rows[i].attempt == attempt
  }

  predicate WasMade(rows: seq<Row>, sub: nat, attempt: nat) {
    exists i | 0 <= i < |rows| :: IsAttempt(rows, sub, attempt, i)
  }

  lemma {:induction false} EveryAttemptWasMade(rows: seq<Row>, i: nat, attempt: nat)
    requires forall j {:trigger Preceded(rows, j)} :: 0 <= j < |rows| ==> Preceded(rows, j)
    requires i < |rows| && 1 <= attempt <= rows[i].attempt
    ensures WasMade(rows, rows[i].sub, attempt)
    decreases rows[i].attempt
  {
    if attempt == rows[i].attempt {
      assert IsAttempt(rows, rows[i].sub, attempt, i);
    } else {
      assert Preceded(rows, i);
      var before :| JustBefore(rows, before, i);
      EveryAttemptWasMade(rows, before, attempt);
    }
  }

  /** Whatever the schedulers, pollers, cancels and rejudges did: a submission has exactly one current
      judgement, it is the last made and the highest attempt n, and each of 1 to n was made exactly once. */
  lemma OneCurrentJudgement(states: seq<World>, steps: seq<Step>, k: nat, sub: nat) returns (current: nat)
    requires IsRun(states, steps) && k < |states| && sub < |states[k].subs|
    ensures var rows := states[k].rows;
            && CurrentOf(rows, sub, current)
            && (forall i :: CurrentOf(rows, sub, i) ==> i == current)
            && (forall i :: 0 <= i < |rows| && rows[i].sub == sub ==>
                  i <= current && 1 <= rows[i].attempt <= rows[current].attempt)
            && (forall a {:trigger WasMade(rows, sub, a)} :: 1 <= a <= rows[current].attempt ==> WasMade(rows, sub, a))
            && (forall a, i, j :: IsAttempt(rows, sub, a, i) && IsAttempt(rows, sub, a, j) ==> i == j)
  {
    EveryStateIsOk(states, steps, k);
    var rows := states[k].rows;
    assert HasCurrent(rows, sub);
    current :| CurrentOf(rows, sub, current);
    forall i | 0 <= i < |rows| && rows[i].sub == sub
      ensures i <= current && 1 <= rows[i].attempt <= rows[current].attempt
      ensures CurrentOf(rows, sub, i) ==> i == current
    {
      assert Preceded(rows, i);
      assert i < current ==> SameSub(rows, i, current);
      assert current < i ==> SameSub(rows, current, i);
    }
    forall a {:trigger WasMade(rows, sub, a)} | 1 <= a <= rows[current].attempt
      ensures WasMade(rows, sub, a)
    {
      EveryAttemptWasMade(rows, current, a);
    }
    forall a, i, j | IsAttempt(rows, sub, a, i) && IsAttempt(rows, sub, a, j)
      ensures i == j
    {
      assert i < j ==> SameSub(rows, i, j);
      assert j < i ==> SameSub(rows, j, i);
    }
  }

  // ----- done is final, and where verdicts come from -----------------------------------------------------

  predicate SameResult(r: Row, r': Row) {
    && r'.sub == r.sub && r'.attempt == r.attempt
    && r'.state == r.state && r'.verdict == r.verdict && r'.job == r.job
    && r'.cancelled == r.cancelled && r'.ended == r.ended
  }

  lemma DoneStepIsFinal(w: World, step: Step, i: nat)
    requires Inv(w) && Enabled(w, step) && i < |w.rows| && w.rows[i].state == Done
    ensures i < |Next(w, step).rows| && SameResult(w.rows[i], Next(w, step).rows[i])
  {
    hide Ordered;
    hide Complete;
    hide EndsOk;
    hide RowOk;
    if step.CancelOne? {
      assert CancelOk(w, step.who, w.cancels[step.who]);
    }
    NextRow(w, step, i);
    hide Next;
  }

  /** Once done, a judgement's verdict never changes, whatever arrives later. */
  lemma {:induction false} DoneIsFinal(states: seq<World>, steps: seq<Step>, k: nat, later: nat, i: nat)
    requires IsRun(states, steps) && k <= later < |states|
    requires i < |states[k].rows| && states[k].rows[i].state == Done
    ensures i < |states[later].rows| && SameResult(states[k].rows[i], states[later].rows[i])
  {
    if k < later {
      DoneIsFinal(states, steps, k, later - 1, i);
      EveryStateIsOk(states, steps, later - 1);
      DoneStepIsFinal(states[later - 1], steps[later - 1], i);
    }
  }

  /** The step that finished a row. A job's verdict is taken only while the row waits on that very job, which
      was sent for this row and no other; the rest are the judge's refusal and the owner's cancel. */
  ghost predicate Finishes(w: World, step: Step, i: nat, verdict: Verdict) {
    && i < |w.rows|
    && w.rows[i].state != Done
    && match step
       case Record(row, job, v, _) =>
         && row == i && v == verdict && !w.rows[i].superseded
         && w.rows[i].job == Some(job) && job in w.issued && w.issued[job] == i && (job, v) in w.answers
       case WriteRefusal(row, _) => row == i && verdict == IE && i in w.refused && !w.rows[i].superseded
       case CancelOne(who, row) => row == i && verdict == IE && who in w.cancels && i in w.cancels[who].todo
       case _ => false
  }

  lemma OnlyTheseFinish(w: World, step: Step, i: nat)
    requires Inv(w) && Enabled(w, step)
    requires i < |Next(w, step).rows| && Next(w, step).rows[i].state == Done
    requires i < |w.rows| ==> w.rows[i].state != Done
    ensures Next(w, step).rows[i].verdict.Some? && Finishes(w, step, i, Next(w, step).rows[i].verdict.value)
  {
    hide Ordered;
    hide Complete;
    hide EndsOk;
    NextSubs(w, step);
    if i < |w.rows| {
      assert RowOk(w, i);
      NextRow(w, step, i);
    }
    hide Next;
  }

  /** Every verdict on record was written by one such step, and nothing has changed it since. */
  lemma {:induction false} VerdictsComeFromTheRowsOwnJob(states: seq<World>, steps: seq<Step>, k: nat, i: nat)
    returns (when: nat)
    requires IsRun(states, steps) && k < |states|
    requires i < |states[k].rows| && states[k].rows[i].state == Done
    ensures when < k && states[k].rows[i].verdict.Some?
    ensures Finishes(states[when], steps[when], i, states[k].rows[i].verdict.value)
    ensures forall later :: when < later <= k ==>
              i < |states[later].rows| && SameResult(states[later].rows[i], states[k].rows[i])
  {
    hide Inv;
    hide Finishes;
    hide Enabled;
    hide Next;
    EveryStateIsOk(states, steps, k - 1);
    assert IsStep(states[k - 1], steps[k - 1], states[k]);
    if i < |states[k - 1].rows| && states[k - 1].rows[i].state == Done {
      when := VerdictsComeFromTheRowsOwnJob(states, steps, k - 1, i);
      DoneStepIsFinal(states[k - 1], steps[k - 1], i);
      forall later | when < later <= k
        ensures i < |states[later].rows| && SameResult(states[later].rows[i], states[k].rows[i])
      {
        if later < k {
          SameResultJoins(states[later].rows[i], states[k - 1].rows[i], states[k].rows[i]);
        }
      }
    } else {
      when := k - 1;
      OnlyTheseFinish(states[k - 1], steps[k - 1], i);
    }
    hide IsRun;
  }

  lemma SameResultJoins(a: Row, b: Row, c: Row)
    requires SameResult(a, b) && SameResult(b, c)
    ensures SameResult(a, c)
  {
  }

  // ----- one at a time, three seconds apart --------------------------------------------------------------

  /** A submission is taken only three seconds after every judgement its author ever had ended. */
  lemma CooldownCoversEveryEnd(states: seq<World>, steps: seq<Step>, k: nat, who: Pid, now: Time, i: nat)
    requires IsRun(states, steps) && k < |states|
    requires who !in states[k].cancels && Submitted(states[k], who, now).Ok?
    requires i < |states[k].rows| && RowsHaveSubs(states[k].subs, states[k].rows) && Owner(states[k], i) == who
    ensures states[k].rows[i].ended.Some? ==> states[k].rows[i].ended.value + COOLDOWN <= now
    ensures !InFlight(states[k].rows[i])
  {
    EveryStateIsOk(states, steps, k);
    assert CountedEnd(states[k], i);
  }

  /** Two judgements in flight for one participant. */
  predicate Crowded(w: World, i: nat, j: nat) {
    && i < j < |w.rows| && w.rows[i].sub < |w.subs| && w.rows[j].sub < |w.subs|
    && w.subs[w.rows[i].sub] == w.subs[w.rows[j].sub]
    && InFlight(w.rows[i]) && InFlight(w.rows[j])
  }

  lemma StepCrowdsNobody(w: World, step: Step, i: nat, j: nat)
    requires RowsHaveSubs(w.subs, w.rows) && Enabled(w, step) && !step.Rejudge?
    requires LocksOk(w) && !Crowded(w, i, j)
    ensures !Crowded(Next(w, step), i, j)
  {
    hide CancelOk;
    NextSubs(w, step);
    if step.Submit? && Submitted(w, step.who, step.now).Ok? && i < |w.rows| {
      assert !InFlightOf(w.subs, w.rows[i], step.who);
    }
    if i < |w.rows| {
      NextRow(w, step, i);
    }
    if j < |w.rows| {
      NextRow(w, step, j);
    }
    hide Next;
  }

  /** Until something is rejudged, nobody ever has two judgements in flight. */
  lemma {:induction false} OneAtATimeUntilRejudged(states: seq<World>, steps: seq<Step>, k: nat, i: nat, j: nat)
    requires IsRun(states, steps) && k < |states|
    requires forall h {:trigger steps[h]} :: 0 <= h < k ==> !steps[h].Rejudge?
    ensures !Crowded(states[k], i, j)
  {
    if k > 0 {
      OneAtATimeUntilRejudged(states, steps, k - 1, i, j);
      EveryStateIsOk(states, steps, k - 1);
      StepCrowdsNobody(states[k - 1], steps[k - 1], i, j);
    }
  }
}
