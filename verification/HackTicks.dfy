/** Section B's scheduler ticks: sends first, polls after, and what one attempt that cannot be sent does to them.
    `phase1/hack_jobs.py` */
module HackTicks {
  import opened Common
  import opened Hacking

  /** What the judge answers when an attempt is sent: a job, a refusal of the problem, or nothing useful. */
  datatype SendReply = Accepted(job: Job) | Rejected | Unreachable

  /** What sending did: nothing was left to send, it is handled, try again later, or the sender crashed. */
  datatype SendOutcome = NothingLeft | Handled | TryLater | Crashed

  /** What the judge says of a job that is asked after. */
  datatype Report = Lost | NoAnswer | Still(running: bool) | Finished(result: HackResult)

  /** The attempts, and which of them have lost the code they were aimed at. */
  datatype Table = Table(attempts: seq<Attempt>, orphans: set<nat>)

  /** How many attempts one tick sends at most. */
  const BATCH := 20

  // ----- sending --------------------------------------------------------------------------------------

  /** The oldest attempt that waits to be sent and is not in `held`. */
  function FirstPending(attempts: seq<Attempt>, held: set<nat>, from: nat): (i: Option<nat>)
    requires from <= |attempts|
    ensures i.Some? ==> from <= i.value < |attempts| && attempts[i.value].state == Pending && i.value !in held
    ensures i.Some? ==> forall k :: from <= k < i.value && attempts[k].state == Pending ==> k in held
    ensures i.None? ==> forall k :: from <= k < |attempts| && attempts[k].state == Pending ==> k in held
    decreases |attempts| - from
  {
    if from == |attempts| then None
    else if attempts[from].state == Pending && from !in held then Some(from)
    else FirstPending(attempts, held, from + 1)
  }

  /** An attempt once the judge has answered it. */
  function Answered(a: Attempt, reply: SendReply, now: Time): Attempt {
    match reply
    case Accepted(job) => a.(state := Queued, job := Some(job))
    case Rejected => Broken(a, now)
    case Unreachable => a
  }

  datatype Sending = Sending(table: Table, outcome: SendOutcome)

  /** One attempt sent, passing over the rows that other senders hold at that moment. */
  function Sent(t: Table, held: set<nat>, reply: SendReply, now: Time): Sending {
    var i := FirstPending(t.attempts, held, 0);
    if i.None? then Sending(t, NothingLeft)
    else if i.value in t.orphans then Sending(t, Crashed)
    else
      Sending(
        t.(attempts := t.attempts[i.value := Answered(t.attempts[i.value], reply, now)]),
        if reply.Unreachable? then TryLater else Handled)
  }

  /** What a send meets: the rows others hold, and the judge's answer. */
  datatype Try = Try(held: set<nat>, reply: SendReply)

  /** Attempts sent one after another, each in its own transaction, until one is not handled. */
  function SentAll(t: Table, tries: seq<Try>, now: Time): Sending
    decreases |tries|
  {
    if tries == [] then Sending(t, Handled)
    else
      var first := Sent(t, tries[0].held, tries[0].reply, now);
      if first.outcome == Handled then SentAll(first.table, tries[1..], now) else first
  }

  // ----- polling ----------------------------------------------------------------------------------------

  /** One attempt's job asked after. */
  function Polled(prices: Qid -> Price, attempts: seq<Attempt>, i: nat, report: Report, now: Time): (after: seq<Attempt>)
    requires i < |attempts|
    ensures |after| == |attempts|
  {
    var a := attempts[i];
    if a.job.None? || !OnJob(a, a.job.value) then attempts
    else
      match report
      case Lost => attempts[i := a.(state := Pending, job := None)]
      case NoAnswer => attempts
      case Still(running) => attempts[i := a.(state := if running then Running else Queued)]
      case Finished(result) =>
        attempts[i := Settled(a, prices(a.question), result, AnyHit(attempts, a.who, a.question), now)]
  }

  /** The first `n` attempts asked after in turn. */
  function PolledAll(prices: Qid -> Price, attempts: seq<Attempt>, reports: nat -> Report, n: nat, now: Time)
    : (after: seq<Attempt>)
    requires n <= |attempts|
    ensures |after| == |attempts|
  {
    if n == 0 then attempts
    else Polled(prices, PolledAll(prices, attempts, reports, n - 1, now), n - 1, reports(n - 1), now)
  }

  // ----- ticks and everything else -------------------------------------------------------------------------

  /** A crash while sending leaves what was sent before it, and skips the polling. */
  function Ticked(prices: Qid -> Price, t: Table, tries: seq<Try>, reports: nat -> Report, now: Time): Table {
    var sent := SentAll(t, tries, now);
    if sent.outcome == Crashed then sent.table
    else
      sent.table.(attempts := PolledAll(prices, sent.table.attempts, reports, |sent.table.attempts|, now))
  }

  datatype Event =
    | Submitting(who: Pid, question: Qid, sending: Try, now: Time)
    | Removing(row: nat)
    | Ticking(tries: seq<Try>, reports: nat -> Report, now: Time)

  /** A submission is stored first, and then sends whatever is oldest. */
  function Next(prices: Qid -> Price, t: Table, e: Event): Table {
    match e
    case Submitting(who, question, sending, now) =>
      if SubmitRefusal(t.attempts, who, now).Some? then t
      else Sent(t.(attempts := t.attempts + [Fresh(who, question)]), sending.held, sending.reply, now).table
    case Removing(row) => t.(orphans := t.orphans + {row})
    case Ticking(tries, reports, now) => Ticked(prices, t, tries, reports, now)
  }

  function Run(prices: Qid -> Price, t: Table, events: seq<Event>): Table {
    if events == [] then t
    else
      var n := |events| - 1;
      Next(prices, Run(prices, t, events[..n]), events[n])
  }

  // ----- exactly when a tick crashes -------------------------------------------------------------------------

  /** The attempts that wait to be sent, oldest first. */
  function PendingRows(attempts: seq<Attempt>, from: nat): seq<nat>
    requires from <= |attempts|
    decreases |attempts| - from
  {
    if from == |attempts| then []
    else if attempts[from].state == Pending then [from] + PendingRows(attempts, from + 1)
    else PendingRows(attempts, from + 1)
  }

  lemma {:induction false} PendingFrom(attempts: seq<Attempt>, from: nat)
    requires from <= |attempts|
    ensures var i := FirstPending(attempts, {}, from);
            PendingRows(attempts, from) == if i.None? then [] else [i.value] + PendingRows(attempts, i.value + 1)
    decreases |attempts| - from
  {
    if from < |attempts| && attempts[from].state != Pending {
      PendingFrom(attempts, from + 1);
    }
  }

  lemma {:induction false} PendingAfter(attempts: seq<Attempt>, i: nat, a: Attempt, from: nat)
    requires i < from <= |attempts|
    ensures PendingRows(attempts[i := a], from) == PendingRows(attempts, from)
    decreases |attempts| - from
  {
    if from < |attempts| {
      PendingAfter(attempts, i, a, from + 1);
    }
  }

  /** Attempt number `k` in the queue has lost its code, and every one before it can be sent and is answered. */
  ghost predicate CrashesAt(t: Table, tries: seq<Try>, k: nat) {
    var queue := PendingRows(t.attempts, 0);
    && k < |tries| && k < |queue| && queue[k] in t.orphans
    && forall j :: 0 <= j < k ==> queue[j] !in t.orphans && !tries[j].reply.Unreachable?
  }

  /** No other sender is at work meanwhile. */
  ghost predicate Alone(tries: seq<Try>) {
    forall j :: 0 <= j < |tries| ==> tries[j].held == {}
  }

  lemma SentTakesTheFirst(t: Table, reply: SendReply, now: Time)
    requires Sent(t, {}, reply, now).outcome == Handled
    ensures var queue := PendingRows(t.attempts, 0);
            && queue != [] && queue[0] !in t.orphans && !reply.Unreachable?
            && PendingRows(Sent(t, {}, reply, now).table.attempts, 0) == queue[1..]
            && Sent(t, {}, reply, now).table.orphans == t.orphans
  {
    var i := FirstPending(t.attempts, {}, 0).value;
    var after := Sent(t, {}, reply, now).table.attempts;
    PendingFrom(t.attempts, 0);
    PendingFrom(after, 0);
    PendingAfter(t.attempts, i, after[i], i + 1);
    NoneBefore(after, 0, i + 1);
  }

  lemma {:induction false} NoneBefore(attempts: seq<Attempt>, from: nat, to: nat)
    requires from <= to <= |attempts|
    requires forall k :: from <= k < to ==> attempts[k].state != Pending
    ensures PendingRows(attempts, from) == PendingRows(attempts, to)
    decreases |attempts| - from
  {
    if from < to {
      NoneBefore(attempts, from + 1, to);
    }
  }

  /** With no other sender at work, a tick's sending crashes if and only if it gets as far as an attempt that has lost
      its code. */
  lemma {:induction false} SendingCrashesIff(t: Table, tries: seq<Try>, now: Time)
    requires Alone(tries)
    ensures SentAll(t, tries, now).outcome == Crashed <==> exists k :: CrashesAt(t, tries, k)
    decreases |tries|
  {
    if tries != [] {
      var first := Sent(t, {}, tries[0].reply, now);
      assert tries[0].held == {};
      PendingFrom(t.attempts, 0);
      if first.outcome == Handled {
        var rest := tries[1..];
        SentTakesTheFirst(t, tries[0].reply, now);
        SendingCrashesIff(first.table, rest, now);
        hide Sent;
        hide FirstPending;
        hide PendingRows;
        if k :| CrashesAt(t, tries, k) {
          CrashMoves(t, first.table, tries, k);
        }
        if k: nat :| CrashesAt(first.table, rest, k) {
          CrashMovesBack(t, first.table, tries, k);
        }
      } else if first.outcome == Crashed {
        assert CrashesAt(t, tries, 0);
      }
    }
  }

  lemma CrashMoves(t: Table, after: Table, tries: seq<Try>, k: nat)
    requires tries != [] && CrashesAt(t, tries, k) && after.orphans == t.orphans
    requires var queue := PendingRows(t.attempts, 0);
             queue != [] && queue[0] !in t.orphans && PendingRows(after.attempts, 0) == queue[1..]
    ensures k > 0 && CrashesAt(after, tries[1..], k - 1)
  {
    var queue := PendingRows(t.attempts, 0);
    forall j | 0 <= j < k - 1
      ensures queue[1..][j] !in t.orphans && !tries[1..][j].reply.Unreachable?
    {
      assert queue[1..][j] == queue[j + 1] && tries[1..][j] == tries[j + 1];
    }
  }

  lemma CrashMovesBack(t: Table, after: Table, tries: seq<Try>, k: nat)
    requires tries != [] && !tries[0].reply.Unreachable? && CrashesAt(after, tries[1..], k) && after.orphans == t.orphans
    requires var queue := PendingRows(t.attempts, 0);
             queue != [] && queue[0] !in t.orphans && PendingRows(after.attempts, 0) == queue[1..]
    ensures CrashesAt(t, tries, k + 1)
  {
    var queue := PendingRows(t.attempts, 0);
    forall j | 0 <= j < k + 1
      ensures queue[j] !in t.orphans && !tries[j].reply.Unreachable?
    {
      if j > 0 {
        assert queue[1..][j - 1] == queue[j] && tries[1..][j - 1] == tries[j];
      }
    }
  }

  // ----- behind an orphan --------------------------------------------------------------------------------------

  /** `i` is the oldest attempt waiting to be sent, and has lost its code. */
  ghost predicate Stuck(t: Table, i: nat) {
    FirstPending(t.attempts, {}, 0) == Some(i) && i in t.orphans
  }

  /** No send of an event comes while another sender holds row `i`. */
  ghost predicate NoneHolds(e: Event, i: nat) {
    match e
    case Submitting(_, _, sending, _) => i !in sending.held
    case Removing(_) => true
    case Ticking(tries, _, _) => forall j :: 0 <= j < |tries| ==> i !in tries[j].held
  }

  /** Nothing has become of any attempt since: the old ones are as they were, the new ones wait to be sent. */
  ghost predicate Frozen(t: Table, later: Table) {
    && |t.attempts| <= |later.attempts| && later.attempts[..|t.attempts|] == t.attempts
    && forall j :: |t.attempts| <= j < |later.attempts| ==>
         later.attempts[j] == Fresh(later.attempts[j].who, later.attempts[j].question)
  }

  lemma FirstPendingAppend(attempts: seq<Attempt>, a: Attempt, i: nat)
    requires FirstPending(attempts, {}, 0) == Some(i)
    ensures FirstPending(attempts + [a], {}, 0) == Some(i)
  {
    var after := FirstPending(attempts + [a], {}, 0);
    assert (attempts + [a])[i] == attempts[i];
    assert forall k :: 0 <= k < i ==> (attempts + [a])[k] == attempts[k];
  }

  /** A send crashes on such an attempt, and changes nothing, whatever other rows are held, unless its own is. */
  lemma SendCrashes(t: Table, i: nat, held: set<nat>, reply: SendReply, now: Time)
    requires Stuck(t, i) && i !in held
    ensures Sent(t, held, reply, now) == Sending(t, Crashed)
  {
    var first := FirstPending(t.attempts, held, 0);
    assert first == Some(i);
  }

  lemma StuckStep(prices: Qid -> Price, t: Table, e: Event, i: nat)
    requires Stuck(t, i) && NoneHolds(e, i) && (e.Ticking? ==> e.tries != [])
    ensures Stuck(Next(prices, t, e), i) && Frozen(t, Next(prices, t, e))
  {
    match e
    case Submitting(who, question, sending, now) =>
      if SubmitRefusal(t.attempts, who, now).None? {
        FirstPendingAppend(t.attempts, Fresh(who, question), i);
        SendCrashes(t.(attempts := t.attempts + [Fresh(who, question)]), i, sending.held, sending.reply, now);
      }
    case Removing(_) =>
    case Ticking(tries, _, now) => SendCrashes(t, i, tries[0].held, tries[0].reply, now);
  }

  /** From the moment the oldest attempt waiting has lost its code: whatever is submitted, removed or ticked, however
      many send at once and whatever the judge would say, as long as no send comes while another sender holds that
      very row, no attempt of anybody is sent, polled or settled again. */
  lemma {:induction false} NothingMovesBehindAnOrphan(prices: Qid -> Price, t: Table, events: seq<Event>, i: nat)
    requires Stuck(t, i)
    requires forall e :: e in events ==> NoneHolds(e, i) && (e.Ticking? ==> |e.tries| == BATCH)
    ensures Stuck(Run(prices, t, events), i) && Frozen(t, Run(prices, t, events))
    decreases |events|
  {
    if events != [] {
      hide Next;
      hide Stuck;
      hide NoneHolds;
      var n := |events| - 1;
      var before := Run(prices, t, events[..n]);
      NothingMovesBehindAnOrphan(prices, t, events[..n], i);
      assert events[n] in events;
      StuckStep(prices, before, events[n], i);
      FrozenJoins(t, before, Next(prices, before, events[n]));
    }
  }

  /** While another sender holds that row, a send passes over it: the next one is sent. */
  lemma HeldOrphanIsPassedOver(now: Time)
    ensures var t := Table([Fresh(1, 0), Fresh(2, 0)], {0});
            && Stuck(t, 0)
            && Sent(t, {0}, Accepted(9), now).outcome == Handled
            && OnJob(Sent(t, {0}, Accepted(9), now).table.attempts[1], 9)
  {
    var t := Table([Fresh(1, 0), Fresh(2, 0)], {0});
    assert FirstPending(t.attempts, {0}, 1) == Some(1);
  }

  lemma FrozenJoins(t: Table, middle: Table, later: Table)
    requires Frozen(t, middle) && Frozen(middle, later)
    ensures Frozen(t, later)
  {
    var n := |t.attempts|;
    assert later.attempts[..n] == middle.attempts[..n];
    forall j | n <= j < |later.attempts|
      ensures later.attempts[j] == Fresh(later.attempts[j].who, later.attempts[j].question)
    {
      if j < |middle.attempts| {
        assert later.attempts[..|middle.attempts|][j] == middle.attempts[j];
      }
    }
  }

  /** The judge is away when an attempt is made, and its copy is removed before it is sent. */
  lemma StuckIsReached(prices: Qid -> Price)
    ensures Stuck(Run(prices, Table([], {}), [Submitting(1, 0, Try({}, Unreachable), 0), Removing(0)]), 0)
  {
    var events := [Submitting(1, 0, Try({}, Unreachable), 0), Removing(0)];
    assert events[..1] == [events[0]] && events[..1][..0] == [];
    var first := Next(prices, Table([], {}), events[0]);
    assert first == Table([Fresh(1, 0)], {});
  }
}
