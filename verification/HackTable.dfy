/** The attempt table, and the transactions on it, as the engine carries them out. */
module HackTable {
  import opened Common
  import opened Hacking
  import opened HackRuns
  import opened HackTicks
  import opened HackEffects

  predicate Sendable(a: Attempt) {
    a.state == Pending
  }

  /** `i` is the oldest attempt waiting to be sent that no other sender holds. */
  ghost predicate OldestWaiting(attempts: seq<Attempt>, held: set<nat>, i: nat) {
    && i < |attempts| && Sendable(attempts[i]) && i !in held
    && forall k :: 0 <= k < i && Sendable(attempts[k]) ==> k in held
  }

  /** An attempt that is not done has no outcome yet. */
  predicate Unscored(a: Attempt) {
    a.state != Done ==> a.hacked.None? && a.points == 0
  }

  predicate AllUnscored(attempts: seq<Attempt>) {
    forall i :: 0 <= i < |attempts| ==> Unscored(attempts[i])
  }

  lemma {:induction false} SentStaysUnscored(t: Table, tries: seq<Try>, now: Time)
    requires AllUnscored(t.attempts)
    ensures AllUnscored(SentAll(t, tries, now).table.attempts)
    decreases |tries|
  {
    if tries != [] {
      var first := Sent(t, tries[0].held, tries[0].reply, now);
      OneSentStaysUnscored(t, tries[0], now);
      if first.outcome == Handled {
        SentStaysUnscored(first.table, tries[1..], now);
      } else {
        assert SentAll(t, tries, now) == first;
      }
    }
  }

  lemma OneSentStaysUnscored(t: Table, one: Try, now: Time)
    requires AllUnscored(t.attempts)
    ensures AllUnscored(Sent(t, one.held, one.reply, now).table.attempts)
  {
  }

  /** Whose attempt it is, at what, and what it has earned. */
  predicate SameClaim(a: Attempt, b: Attempt) {
    a.who == b.who && a.question == b.question && a.hacked == b.hacked && a.points == b.points && a.ended == b.ended
  }

  class Tables {
    var attempts: seq<Attempt>
    var orphans: set<nat>

    function View(): Table
      reads this
    {
      Table(attempts, orphans)
    }

    constructor ()
      ensures attempts == [] && orphans == {}
    {
      attempts, orphans := [], {};
    }

    method Submit(who: Pid, question: Qid, now: Time) returns (r: Result<nat, Refusal>)
      modifies this`attempts
      ensures match SubmitRefusal(old(attempts), who, now)
              case Some(refusal) => r == Err(refusal) && attempts == old(attempts)
              case None => r == Ok(|old(attempts)|) && attempts == old(attempts) + [Fresh(who, question)]
      ensures old(OnlyNewestOpen(attempts)) ==> OnlyNewestOpen(attempts)
    {
      var i := |attempts|;
      while i > 0 && attempts[i - 1].who != who
        invariant 0 <= i <= |attempts| && Newest(attempts, who) == Newest(attempts[..i], who)
      {
        assert attempts[..i][..i - 1] == attempts[..i - 1];
        i := i - 1;
      }
      assert i > 0 ==> attempts[..i][i - 1].who == who;
      if i > 0 && attempts[i - 1].state != Done {
        return Err(InFlight);
      }
      if i > 0 && attempts[i - 1].ended.Some? && attempts[i - 1].ended.value + COOLDOWN > now {
        return Err(CoolingDown);
      }
      r := Ok(|attempts|);
      ghost var before := attempts;
      attempts := attempts + [Fresh(who, question)];
      forall k, j | OnlyNewestOpen(before) && 0 <= k < j < |attempts| && SamePerson(attempts, k, j)
        ensures attempts[k].state == Done
      {
        if j < |before| {
          assert SamePerson(before, k, j);
        } else {
          assert k < i - 1 ==> SamePerson(before, k, i - 1);
        }
      }
    }

    /** Send the oldest waiting attempt. With its copy of the code gone there is nothing to send, and the call
        that should record so fails: the transaction is undone and the attempt waits on. */
    method SendOne(held: set<nat>, reply: SendReply, now: Time) returns (outcome: SendOutcome, ghost row: nat)
      modifies this`attempts
      ensures outcome == NothingLeft ==> forall k :: 0 <= k < |attempts| && Sendable(attempts[k]) ==> k in held
      ensures outcome != NothingLeft ==> OldestWaiting(old(attempts), held, row)
      ensures outcome == Crashed <==> outcome != NothingLeft && row in orphans
      ensures outcome == Handled <==> outcome != NothingLeft && row !in orphans && !reply.Unreachable?
      ensures attempts == if outcome != Handled then old(attempts)
                          else if reply.Accepted? then old(attempts)[row := old(attempts)[row].(state := Queued, job := Some(reply.job))]
                          else old(attempts)[row := Broken(old(attempts)[row], now)]
      ensures View() == Sent(old(View()), held, reply, now).table
      ensures outcome == Sent(old(View()), held, reply, now).outcome
    {
      var i := 0;
      while i < |attempts| && (!Sendable(attempts[i]) || i in held)
        invariant 0 <= i <= |attempts| && attempts == old(attempts)
        invariant forall k :: 0 <= k < i && Sendable(attempts[k]) ==> k in held
      {
        i := i + 1;
      }
      row := i;
      if i == |attempts| {
        return NothingLeft, row;
      }
      if i in orphans {
        return Crashed, row;
      }
      match reply
      case Accepted(job) =>
        attempts := attempts[i := attempts[i].(state := Queued, job := Some(job))];
        outcome := Handled;
      case Rejected =>
        attempts := attempts[i := attempts[i].(state := Done, hacked := None, ended := Some(now))];
        outcome := Handled;
      case Unreachable =>
        outcome := TryLater;
    }

    /** Up to a batch of attempts, oldest first, until there is no more to send or the judge does not answer. */
    method SendPending(tries: seq<Try>, now: Time) returns (crashed: bool)
      requires |tries| == BATCH
      modifies this`attempts
      ensures crashed <==> SentAll(old(View()), tries, now).outcome == Crashed
      ensures View() == SentAll(old(View()), tries, now).table
    {
      ghost var whole := SentAll(View(), tries, now);
      crashed := false;
      for k := 0 to |tries|
        invariant SentAll(View(), tries[k..], now) == whole && orphans == old(orphans)
      {
        assert tries[k..][0] == tries[k] && tries[k..][1..] == tries[k + 1..];
        var outcome, _ := SendOne(tries[k].held, tries[k].reply, now);
        if outcome != Handled {
          return outcome == Crashed;
        }
      }
    }

    /** One attempt's job asked after, when it has one. */
    method PollOne(prices: Qid -> Price, row: nat, report: Report, now: Time)
      requires row < |attempts|
      requires Unscored(attempts[row])
      modifies this`attempts
      ensures attempts == Polled(prices, old(attempts), row, report, now)
    {
      var a := attempts[row];
      if a.job.None? || !OnJob(a, a.job.value) {
        return;
      }
      match report
      case Lost => Resend(row, a.job.value);
      case NoAnswer =>
      case Still(running) => attempts := attempts[row := a.(state := if running then Running else Queued)];
      case Finished(result) => var _ := Settle(row, a.job.value, result, prices(a.question), now);
    }

    /** Every attempt that is with the judge asked after. */
    method Poll(prices: Qid -> Price, reports: nat -> Report, now: Time)
      requires AllUnscored(attempts)
      modifies this`attempts
      ensures attempts == PolledAll(prices, old(attempts), reports, |old(attempts)|, now)
    {
      for i := 0 to |attempts|
        invariant |attempts| == |old(attempts)|
        invariant attempts == PolledAll(prices, old(attempts), reports, i, now)
        invariant AllUnscored(attempts)
      {
        assert Unscored(attempts[i]);
        PollOne(prices, i, reports(i), now);
      }
    }

    /** The scheduler's second. A crash while sending ends it before anything is polled. */
    method Tick(prices: Qid -> Price, tries: seq<Try>, reports: nat -> Report, now: Time) returns (crashed: bool)
      requires |tries| == BATCH
      requires AllUnscored(attempts)
      modifies this`attempts
      ensures View() == Ticked(prices, old(View()), tries, reports, now)
      ensures crashed <==> SentAll(old(View()), tries, now).outcome == Crashed
      ensures Alone(tries) ==> (crashed <==> exists k :: CrashesAt(old(View()), tries, k))
    {
      if Alone(tries) {
        SendingCrashesIff(View(), tries, now);
      }
      SentStaysUnscored(View(), tries, now);
      crashed := SendPending(tries, now);
      if !crashed {
        Poll(prices, reports, now);
      }
    }

    /** Whoever learns that a job is lost may say so, late or twice: afterwards the attempt is not on that job, it
        waits to be sent if it was on it, and saying so again, or for another job, changes nothing. */
    method Resend(row: nat, job: Job)
      requires row < |attempts|
      modifies this`attempts
      ensures |attempts| == |old(attempts)| && attempts[..row] == old(attempts)[..row]
      ensures attempts[row + 1..] == old(attempts)[row + 1..]
      ensures !OnJob(attempts[row], job)
      ensures !old(OnJob(attempts[row], job)) ==> attempts == old(attempts)
      ensures old(OnJob(attempts[row], job)) ==> Sendable(attempts[row]) && attempts[row].job.None?
      ensures SameClaim(attempts[row], old(attempts)[row])
    {
      if OnJob(attempts[row], job) {
        attempts := attempts[row := attempts[row].(state := Pending, job := None)];
      }
    }

    /** Score a finished attempt. Says whose it was, unless something else settled it first. */
    method Settle(row: nat, job: Job, result: HackResult, price: Price, now: Time) returns (who: Option<Pid>)
      requires row < |attempts|
      requires Unscored(attempts[row])
      modifies this`attempts
      ensures who == if old(attempts)[row].job == Some(job) && old(attempts)[row].state != Done
                     then Some(old(attempts)[row].who) else None
      ensures who.None? ==> attempts == old(attempts)
      ensures |attempts| == |old(attempts)|
      ensures who.Some? ==>
                && OutcomeIs(price, result,
                             HadHacked(old(attempts), old(attempts)[row].who, old(attempts)[row].question), attempts[row])
                && SameAttempt(old(attempts)[row], attempts[row]) && attempts[row].ended == Some(now)
      ensures who.Some? ==>
                var a := old(attempts)[row];
                var already := AnyHit(old(attempts), a.who, a.question);
                attempts == old(attempts)[row := Settled(a, price, result, already, now)]
      ensures who.Some? && Honest(result) && Total(old(attempts), who.value, attempts[row].question)
                           == Earned(old(attempts), price, who.value, attempts[row].question) ==>
              Total(attempts, who.value, attempts[row].question) == Earned(attempts, price, who.value, attempts[row].question)
    {
      var a := attempts[row];
      if a.job != Some(job) || a.state == Done {
        return None;
      }
      var points := 0;
      if result.valid {
        if result.hacked == Some(false) {
          points := 0 - price.penalty;
        } else if result.hacked == Some(true) {
          var already := AnyHit(attempts, a.who, a.question);
          points := if already then 0 else price.hack;
        }
      }
      HadHackedIff(attempts, a.who, a.question);
      SettledIsOutcome(a, price, result, AnyHit(attempts, a.who, a.question), now);
      ghost var before := attempts;
      attempts := attempts[row := a.(state := Done, hacked := result.hacked, points := points, ended := Some(now))];
      if Honest(result) && Total(before, a.who, a.question) == Earned(before, price, a.who, a.question) {
        SettlingScores(price, before, row, Settling(result, AnyHit(before, a.who, a.question)), now, a.who, a.question);
      }
      who := Some(a.who);
    }
  }
}
