/** Every run of Section B, however many schedulers send, poll and settle. */
module HackRuns {
  import opened Common
  import opened Hacking

  // ----- the invariant -----------------------------------------------------------------------------

  ghost predicate AttemptOk(w: World, i: nat)
    requires i < |w.attempts|
  {
    var a := w.attempts[i];
    && (a.job.Some? ==> a.job.value in w.issued && w.issued[a.job.value] == i)
    && (a.state == Pending ==> a.job.None?)
    && (a.state == Queued || a.state == Running ==> a.job.Some?)
    && (a.state == Done <==> a.ended.Some?)
    && (a.state != Done ==> a.hacked.None? && a.points == 0)
  }

  predicate SamePerson(attempts: seq<Attempt>, i: nat, j: nat)
    requires i < |attempts| && j < |attempts|
  {
    attempts[i].who == attempts[j].who
  }

  /** Only a participant's newest attempt can be unfinished. */
  ghost predicate OnlyNewestOpen(attempts: seq<Attempt>) {
    forall i, j {:trigger SamePerson(attempts, i, j)} :: 0 <= i < j < |attempts| && SamePerson(attempts, i, j) ==>
      attempts[i].state == Done
  }

  /** What a settle in progress read is still so. */
  ghost predicate SettlingOk(w: World, i: nat, s: Settling) {
    && i < |w.attempts|
    && (w.attempts[i].state == Queued || w.attempts[i].state == Running)
    && Honest(s.result)
    && s.already == AnyHit(w.attempts, w.attempts[i].who, w.attempts[i].question)
  }

  ghost predicate LocksOk(w: World) {
    && (forall i :: i in w.claimed ==> i < |w.attempts| && w.attempts[i].state == Pending)
    && (forall ask :: ask in w.asked ==> ask.1 in w.issued && w.issued[ask.1] == ask.0)
    && (forall answer :: answer in w.answers ==> Honest(answer.1))
  }

  ghost predicate ScoreOk(prices: Qid -> Price, attempts: seq<Attempt>, who: Pid, question: Qid) {
    Total(attempts, who, question) == Earned(attempts, prices(question), who, question)
  }

  ghost predicate Inv(prices: Qid -> Price, w: World) {
    && (forall i {:trigger AttemptOk(w, i)} :: 0 <= i < |w.attempts| ==> AttemptOk(w, i))
    && OnlyNewestOpen(w.attempts)
    && LocksOk(w)
    && (forall i {:trigger SettlingOk(w, i, w.settling[i])} :: i in w.settling ==> SettlingOk(w, i, w.settling[i]))
    && (forall who, q {:trigger ScoreOk(prices, w.attempts, who, q)} :: ScoreOk(prices, w.attempts, who, q))
  }

  // ----- one step ---------------------------------------------------------------------------------

  lemma StepKeepsAttempts(prices: Qid -> Price, w: World, step: Step)
    requires Inv(prices, w) && Enabled(w, step)
    ensures var w' := Next(prices, w, step);
            forall i {:trigger AttemptOk(w', i)} :: 0 <= i < |w'.attempts| ==> AttemptOk(w', i)
  {
    hide ScoreOk;
    hide AnyHit;
    var w' := Next(prices, w, step);
    forall i | 0 <= i < |w'.attempts|
      ensures AttemptOk(w', i)
    {
      if i < |w.attempts| {
        assert AttemptOk(w, i);
      }
    }
  }

  lemma StepKeepsNewestOpen(prices: Qid -> Price, w: World, step: Step)
    requires OnlyNewestOpen(w.attempts) && LocksOk(w) && Enabled(w, step)
    ensures OnlyNewestOpen(Next(prices, w, step).attempts)
  {
    hide AnyHit;
    var w' := Next(prices, w, step);
    forall i, j | 0 <= i < j < |w'.attempts| && SamePerson(w'.attempts, i, j)
      ensures w'.attempts[i].state == Done
    {
      if j < |w.attempts| {
        assert SamePerson(w.attempts, i, j);
      } else {
        var newest := Newest(w.attempts, step.who);
        assert newest.Some? && i <= newest.value;
        assert i < newest.value ==> SamePerson(w.attempts, i, newest.value);
      }
    }
  }

  lemma StepKeepsLocks(prices: Qid -> Price, w: World, step: Step)
    requires Inv(prices, w) && Enabled(w, step)
    ensures LocksOk(Next(prices, w, step))
  {
    hide ScoreOk;
    hide AnyHit;
    if step.Ask? {
      assert AttemptOk(w, step.row);
    }
    if step.SettleWrite? {
      assert SettlingOk(w, step.row, w.settling[step.row]);
    }
  }

  /** The step gives an unfinished row a result, or none does. */
  ghost predicate Settles(step: Step) {
    step.SendRefused? || step.SettleWrite?
  }

  lemma OtherStepsScoreNothing(prices: Qid -> Price, w: World, step: Step, who: Pid, q: Qid)
    requires Inv(prices, w) && Enabled(w, step) && !Settles(step)
    ensures var w' := Next(prices, w, step);
            && Total(w'.attempts, who, q) == Total(w.attempts, who, q)
            && Misses(w'.attempts, who, q) == Misses(w.attempts, who, q)
            && AnyHit(w'.attempts, who, q) == AnyHit(w.attempts, who, q)
  {
    hide ScoreOk;
    var w' := Next(prices, w, step);
    if step.Submit? {
      TotalAppend(w.attempts, Fresh(step.who, step.question), who, q);
    } else if step.SendOk? || step.Lose? || step.Report? {
      assert AttemptOk(w, step.row);
      if w.attempts[step.row].state != Done {
        TotalWithRow(w.attempts, step.row, w'.attempts[step.row], who, q);
        HitWithRow(w.attempts, step.row, w'.attempts[step.row], who, q);
      }
    }
  }

  lemma OneMorePenalty(penalty: int, misses: nat)
    ensures penalty * (misses + 1) == penalty * misses + penalty
  {
  }

  /** Settling an attempt pays what that attempt adds to what was earned. */
  lemma SettlingScores(price: Price, attempts: seq<Attempt>, i: nat, s: Settling, now: Time, who: Pid, q: Qid)
    requires i < |attempts| && attempts[i].hacked.None? && attempts[i].points == 0 && Honest(s.result)
    requires s.already == AnyHit(attempts, attempts[i].who, attempts[i].question)
    requires attempts[i].question == q
    requires Total(attempts, who, q) == Earned(attempts, price, who, q)
    ensures var after := attempts[i := Settled(attempts[i], price, s.result, s.already, now)];
            Total(after, who, q) == Earned(after, price, who, q)
  {
    var a := Settled(attempts[i], price, s.result, s.already, now);
    TotalWithRow(attempts, i, a, who, q);
    HitWithRow(attempts, i, a, who, q);
    hide Total;
    hide Misses;
    hide AnyHit;
    OneMorePenalty(price.penalty, Misses(attempts, who, q));
  }

  lemma StepKeepsScore(prices: Qid -> Price, w: World, step: Step, who: Pid, q: Qid)
    requires Inv(prices, w) && Enabled(w, step)
    ensures ScoreOk(prices, Next(prices, w, step).attempts, who, q)
  {
    assert ScoreOk(prices, w.attempts, who, q);
    if step.SettleWrite? {
      var i := step.row;
      assert AttemptOk(w, i) && SettlingOk(w, i, w.settling[i]);
      if w.attempts[i].question == q {
        SettlingScores(prices(q), w.attempts, i, w.settling[i], step.now, who, q);
      } else {
        var a := Next(prices, w, step).attempts[i];
        TotalWithRow(w.attempts, i, a, who, q);
        HitWithRow(w.attempts, i, a, who, q);
      }
    } else if step.SendRefused? {
      assert AttemptOk(w, step.row);
      TotalWithRow(w.attempts, step.row, Broken(w.attempts[step.row], step.now), who, q);
      HitWithRow(w.attempts, step.row, Broken(w.attempts[step.row], step.now), who, q);
    } else {
      OtherStepsScoreNothing(prices, w, step, who, q);
    }
  }

  /** Nobody else's settle, and no other attempt of the same participant, changes what this settle read. */
  lemma SettlingStaysOk(prices: Qid -> Price, w: World, step: Step, i: nat)
    requires Inv(prices, w) && Enabled(w, step) && i in w.settling && i in Next(prices, w, step).settling
    requires !step.SettleRead? || step.row != i
    ensures SettlingOk(Next(prices, w, step), i, Next(prices, w, step).settling[i])
  {
    hide ScoreOk;
    var s := w.settling[i];
    assert SettlingOk(w, i, s) && AttemptOk(w, i);
    var who, q := w.attempts[i].who, w.attempts[i].question;
    var w' := Next(prices, w, step);
    if Settles(step) {
      var j := step.row;
      assert AttemptOk(w, j) && j != i;
      if step.SettleWrite? {
        assert SettlingOk(w, j, w.settling[j]);
      }
      assert i < j ==> !SamePerson(w.attempts, i, j);
      assert j < i ==> !SamePerson(w.attempts, j, i);
      HitWithRow(w.attempts, j, w'.attempts[j], who, q);
    } else {
      OtherStepsScoreNothing(prices, w, step, who, q);
    }
  }

  lemma StepKeepsInv(prices: Qid -> Price, w: World, step: Step)
    requires Inv(prices, w) && Enabled(w, step)
    ensures Inv(prices, Next(prices, w, step))
  {
    hide ScoreOk;
    hide OnlyNewestOpen;
    hide LocksOk;
    hide AttemptOk;
    hide SettlingOk;
    var w' := Next(prices, w, step);
    StepKeepsAttempts(prices, w, step);
    StepKeepsNewestOpen(prices, w, step);
    StepKeepsLocks(prices, w, step);
    forall i | i in w'.settling
      ensures SettlingOk(w', i, w'.settling[i])
    {
      if step.SettleRead? && step.row == i {
        NewSettlingOk(prices, w, step);
      } else {
        SettlingStaysOk(prices, w, step, i);
      }
    }
    forall who, q
      ensures ScoreOk(prices, w'.attempts, who, q)
    {
      StepKeepsScore(prices, w, step, who, q);
    }
  }

  lemma NewSettlingOk(prices: Qid -> Price, w: World, step: Step)
    requires Inv(prices, w) && Enabled(w, step) && step.SettleRead?
    ensures SettlingOk(Next(prices, w, step), step.row, Next(prices, w, step).settling[step.row])
  {
    assert AttemptOk(w, step.row);
  }

  // ----- runs -----------------------------------------------------------------------------------------

  const EMPTY: World := World([], {}, {}, map[], {}, map[], {})

  ghost predicate IsStep(prices: Qid -> Price, w: World, step: Step, w': World) {
    Enabled(w, step) && Next(prices, w, step) == w'
  }

  ghost predicate IsRun(prices: Qid -> Price, states: seq<World>, steps: seq<Step>) {
    && |states| == |steps| + 1
    && states[0] == EMPTY
    && forall k {:trigger steps[k]} :: 0 <= k < |steps| ==> IsStep(prices, states[k], steps[k], states[k + 1])
  }

  lemma {:induction false} EveryStateIsOk(prices: Qid -> Price, states: seq<World>, steps: seq<Step>, k: nat)
    requires IsRun(prices, states, steps) && k < |states|
    ensures Inv(prices, states[k])
  {
    if k == 0 {
      forall who, q
        ensures ScoreOk(prices, states[0].attempts, who, q)
      {
        assert !AnyHit([], who, q);
      }
    } else {
      EveryStateIsOk(prices, states, steps, k - 1);
      StepKeepsInv(prices, states[k - 1], steps[k - 1]);
    }
  }

  /** However many senders and pollers settle them: a participant's attempts on a question add up to its hack
      points once if any succeeded, less its penalty for each that failed. */
  lemma ScoreIsWhatWasEarned(prices: Qid -> Price, states: seq<World>, steps: seq<Step>, k: nat, who: Pid, q: Qid)
    requires IsRun(prices, states, steps) && k < |states|
    ensures Total(states[k].attempts, who, q)
         == (if exists i :: 0 <= i < |states[k].attempts| && Hit(states[k].attempts[i], who, q) then prices(q).hack else 0)
            - prices(q).penalty * Misses(states[k].attempts, who, q)
  {
    EveryStateIsOk(prices, states, steps, k);
    assert ScoreOk(prices, states[k].attempts, who, q);
  }

  /** Nobody ever has two unfinished attempts, and the one they may have is their newest. */
  lemma OneUnfinishedAttempt(prices: Qid -> Price, states: seq<World>, steps: seq<Step>, k: nat, i: nat, j: nat)
    requires IsRun(prices, states, steps) && k < |states| && i < |states[k].attempts| && j < |states[k].attempts|
    requires states[k].attempts[i].who == states[k].attempts[j].who && states[k].attempts[i].state != Done
    ensures j <= i && (j < i ==> states[k].attempts[j].state == Done)
  {
    EveryStateIsOk(prices, states, steps, k);
    assert i < j ==> SamePerson(states[k].attempts, i, j);
    assert j < i ==> SamePerson(states[k].attempts, j, i);
  }

  lemma SettledStepIsFinal(prices: Qid -> Price, w: World, step: Step, i: nat)
    requires Inv(prices, w) && Enabled(w, step) && i < |w.attempts| && w.attempts[i].state == Done
    ensures i < |Next(prices, w, step).attempts| && Next(prices, w, step).attempts[i] == w.attempts[i]
  {
    hide ScoreOk;
    hide AnyHit;
    if step.SettleWrite? {
      assert SettlingOk(w, step.row, w.settling[step.row]);
    }
  }

  /** Once an attempt is done, no later step of anybody alters its row. */
  lemma {:induction false} SettledIsFinal(prices: Qid -> Price, states: seq<World>, steps: seq<Step>, k: nat, later: nat, i: nat)
    requires IsRun(prices, states, steps) && k <= later < |states|
    requires i < |states[k].attempts| && states[k].attempts[i].state == Done
    ensures i < |states[later].attempts| && states[later].attempts[i] == states[k].attempts[i]
  {
    if k < later {
      SettledIsFinal(prices, states, steps, k, later - 1, i);
      EveryStateIsOk(prices, states, steps, later - 1);
      SettledStepIsFinal(prices, states[later - 1], steps[later - 1], i);
    }
  }

  // ----- a copy removed before it was sent ------------------------------------------------------------------

  /** Waiting to be sent, with nothing to send. */
  predicate Orphan(w: World, i: nat) {
    && i < |w.attempts| && w.attempts[i].state == Pending && i in w.orphans && i !in w.claimed
  }

  /** Such an attempt is two steps away from the start. */
  lemma OrphanIsReached(prices: Qid -> Price)
    ensures exists states, steps :: IsRun(prices, states, steps) && |states| == 3 && Orphan(states[2], 0)
  {
    var w0 := EMPTY;
    var w1 := w0.(attempts := [Fresh(1, 0)]);
    var w2 := w1.(orphans := {0});
    var states, steps := [w0, w1, w2], [Submit(1, 0, 0), RemoveCopy(0)];
    assert Next(prices, w0, steps[0]) == w1 && Next(prices, w1, steps[1]) == w2;
    assert IsRun(prices, states, steps) && Orphan(states[2], 0);
  }

  lemma OrphanStepStays(prices: Qid -> Price, w: World, step: Step, i: nat)
    requires Inv(prices, w) && Enabled(w, step) && Orphan(w, i)
    ensures Orphan(Next(prices, w, step), i) && Next(prices, w, step).attempts[i] == w.attempts[i]
  {
    hide ScoreOk;
    hide AnyHit;
    if step.SettleWrite? {
      assert SettlingOk(w, step.row, w.settling[step.row]);
    }
  }

  /** An attempt whose copy was removed before it was sent is never settled, and its owner never gets to make
      another. */
  lemma {:induction false} OrphanIsNeverSettled(prices: Qid -> Price, states: seq<World>, steps: seq<Step>,
                                                k: nat, later: nat, i: nat, now: Time)
    requires IsRun(prices, states, steps) && k <= later < |states| && Orphan(states[k], i)
    ensures Orphan(states[later], i) && states[later].attempts[i] == states[k].attempts[i]
    ensures SubmitRefusal(states[later].attempts, states[k].attempts[i].who, now) == Some(InFlight)
  {
    EveryStateIsOk(prices, states, steps, later);
    if k < later {
      OrphanIsNeverSettled(prices, states, steps, k, later - 1, i, now);
      EveryStateIsOk(prices, states, steps, later - 1);
      OrphanStepStays(prices, states[later - 1], steps[later - 1], i);
    }
    var attempts := states[later].attempts;
    var newest := Newest(attempts, attempts[i].who);
    assert i < newest.value ==> SamePerson(attempts, i, newest.value);
  }
}
