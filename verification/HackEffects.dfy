/** What each hacking step does, told by the columns of the rows alone, and where every outcome comes from. */
module HackEffects {
  import opened Common
  import opened Hacking
  import opened HackRuns

  /** Somebody's attempts on a question include a successful one. */
  predicate HadHacked(attempts: seq<Attempt>, who: Pid, question: Qid) {
    exists i :: 0 <= i < |attempts|
      && attempts[i].who == who && attempts[i].question == question && attempts[i].hacked == Some(true)
  }

  lemma HadHackedIff(attempts: seq<Attempt>, who: Pid, question: Qid)
    ensures AnyHit(attempts, who, question) <==> HadHacked(attempts, who, question)
  {
    if i :| 0 <= i < |attempts| && Hit(attempts[i], who, question) {
      assert attempts[i].who == who && attempts[i].question == question && attempts[i].hacked == Some(true);
    }
    if i :| 0 <= i < |attempts|
            && attempts[i].who == who && attempts[i].question == question && attempts[i].hacked == Some(true) {
      assert Hit(attempts[i], who, question);
    }
  }

  /** The outcome of an attempt is the judge's: the question's points for a first success, its penalty for a failure,
      and nothing either way for an input that was not valid or not run. */
  predicate OutcomeIs(price: Price, result: HackResult, already: bool, a: Attempt) {
    && a.state == Done && a.hacked == result.hacked
    && (result.valid && result.hacked == Some(true) ==> a.points == if already then 0 else price.hack)
    && (result.valid && result.hacked == Some(false) ==> a.points == -price.penalty)
    && (!result.valid || result.hacked == None ==> a.points == 0)
  }

  /** The same attempt: by whom, at what, on what job. */
  predicate SameAttempt(a: Attempt, b: Attempt) {
    a.who == b.who && a.question == b.question && a.job == b.job
  }

  lemma SettledIsOutcome(a: Attempt, price: Price, result: HackResult, already: bool, now: Time)
    ensures var after := Settled(a, price, result, already, now);
            OutcomeIs(price, result, already, after) && SameAttempt(a, after) && after.ended == Some(now)
  {
  }

  // ----- where outcomes come from ------------------------------------------------------------------------------

  /** A settle in progress holds what the judge said of the very job its row waits on. */
  ghost predicate SettlingIsTrue(w: World) {
    forall i {:trigger w.settling[i]} :: i in w.settling ==>
      && i < |w.attempts| && w.attempts[i].job.Some?
      && (w.attempts[i].job.value, w.settling[i].result) in w.answers
  }

  lemma StepKeepsSettlingTrue(prices: Qid -> Price, w: World, step: Step)
    requires Inv(prices, w) && Enabled(w, step) && SettlingIsTrue(w)
    ensures SettlingIsTrue(Next(prices, w, step))
  {
    hide ScoreOk;
    hide AnyHit;
    hide OnlyNewestOpen;
    var w' := Next(prices, w, step);
    forall i | i in w'.settling
      ensures i < |w'.attempts| && w'.attempts[i].job.Some?
      ensures (w'.attempts[i].job.value, w'.settling[i].result) in w'.answers
    {
      if i in w.settling {
        assert SettlingOk(w, i, w.settling[i]);
      }
    }
  }

  lemma {:induction false} EverySettlingIsTrue(prices: Qid -> Price, states: seq<World>, steps: seq<Step>, k: nat)
    requires IsRun(prices, states, steps) && k < |states|
    ensures SettlingIsTrue(states[k])
  {
    if k > 0 {
      assert IsStep(prices, states[k - 1], steps[k - 1], states[k]);
      EverySettlingIsTrue(prices, states, steps, k - 1);
      EveryStateIsOk(prices, states, steps, k - 1);
      StepKeepsSettlingTrue(prices, states[k - 1], steps[k - 1]);
    }
  }

  /** The judge refused the attempt when it was sent: no outcome, and nothing scored. */
  ghost predicate RefusedThen(w: World, step: Step, i: nat, a: Attempt) {
    && step.SendRefused? && step.row == i
    && a.state == Done && a.hacked == None && a.points == 0 && a.ended == Some(step.now)
  }

  /** A settle gave it the outcome the judge found for the job it waited on, by what its author had hacked before. */
  ghost predicate SettledThen(prices: Qid -> Price, w: World, step: Step, i: nat, a: Attempt) {
    && step.SettleWrite? && step.row == i && i < |w.attempts| && SameAttempt(w.attempts[i], a)
    && a.ended == Some(step.now) && a.job.Some?
    && exists result :: (a.job.value, result) in w.answers
                        && OutcomeIs(prices(a.question), result, HadHacked(w.attempts, a.who, a.question), a)
  }

  lemma FinishingStep(prices: Qid -> Price, w: World, step: Step, i: nat)
    requires Inv(prices, w) && SettlingIsTrue(w) && Enabled(w, step)
    requires i < |Next(prices, w, step).attempts| && Next(prices, w, step).attempts[i].state == Done
    requires i < |w.attempts| ==> w.attempts[i].state != Done
    ensures var a := Next(prices, w, step).attempts[i];
            i < |w.attempts| && (RefusedThen(w, step, i, a) || SettledThen(prices, w, step, i, a))
  {
    hide ScoreOk;
    hide OnlyNewestOpen;
    if i < |w.attempts| {
      assert AttemptOk(w, i);
    }
    if step.SettleWrite? && step.row == i {
      var s, before := w.settling[i], w.attempts[i];
      assert SettlingOk(w, i, s);
      HadHackedIff(w.attempts, before.who, before.question);
      SettledIsOutcome(before, prices(before.question), s.result, s.already, step.now);
      hide AnyHit;
      hide Settled;
      hide OutcomeIs;
      assert (before.job.value, s.result) in w.answers;
    }
    hide AnyHit;
  }

  /** In every run: an attempt is done only by a refused send, with no outcome and no points, or by one settle, with
      the outcome and the points that the judge's result for its own job asks for. Nothing has changed it since. */
  lemma {:induction false} OutcomesComeFromTheJudge(prices: Qid -> Price, states: seq<World>, steps: seq<Step>, k: nat,
                                                    i: nat) returns (when: nat)
    requires IsRun(prices, states, steps) && k < |states|
    requires i < |states[k].attempts| && states[k].attempts[i].state == Done
    ensures when < k && i < |states[when].attempts| && states[when].attempts[i].state != Done
    ensures RefusedThen(states[when], steps[when], i, states[k].attempts[i])
         || SettledThen(prices, states[when], steps[when], i, states[k].attempts[i])
  {
    assert IsStep(prices, states[k - 1], steps[k - 1], states[k]);
    EveryStateIsOk(prices, states, steps, k - 1);
    EverySettlingIsTrue(prices, states, steps, k - 1);
    hide Inv;
    hide SettlingIsTrue;
    hide RefusedThen;
    hide SettledThen;
    hide Enabled;
    hide Next;
    if i < |states[k - 1].attempts| && states[k - 1].attempts[i].state == Done {
      when := OutcomesComeFromTheJudge(prices, states, steps, k - 1, i);
      SettledStepIsFinal(prices, states[k - 1], steps[k - 1], i);
    } else {
      when := k - 1;
      FinishingStep(prices, states[k - 1], steps[k - 1], i);
    }
  }

  // ----- the other steps -----------------------------------------------------------------------------------------

  /** Nothing of the other attempts. */
  ghost predicate OnlyAttempt(w: World, w': World, row: nat) {
    |w'.attempts| == |w.attempts| && forall i :: 0 <= i < |w.attempts| && i != row ==> w'.attempts[i] == w.attempts[i]
  }

  /** The settle itself, on the row it holds. */
  lemma SettleWrites(prices: Qid -> Price, w: World, row: nat, now: Time)
    requires Enabled(w, SettleWrite(row, now))
    ensures var a, s, w' := w.attempts[row], w.settling[row], Next(prices, w, SettleWrite(row, now));
            && OnlyAttempt(w, w', row) && row !in w'.settling
            && OutcomeIs(prices(a.question), s.result, s.already, w'.attempts[row])
            && SameAttempt(a, w'.attempts[row]) && w'.attempts[row].ended == Some(now)
  {
  }

  /** A lost job's attempt waits to be sent again if and only if it was queued or running on that job. */
  lemma LoseSendsBackIff(prices: Qid -> Price, w: World, row: nat, job: Job)
    requires Enabled(w, Lose(row, job))
    ensures var a, w' := w.attempts[row], Next(prices, w, Lose(row, job));
            && OnlyAttempt(w, w', row)
            && w'.attempts[row] ==
                 if a.job == Some(job) && (a.state == Queued || a.state == Running)
                 then Attempt(a.who, a.question, Pending, None, a.hacked, a.points, a.ended) else a
  {
  }

  lemma ReportMovesIff(prices: Qid -> Price, w: World, row: nat, job: Job, running: bool)
    requires Enabled(w, Report(row, job, running))
    ensures var a, w' := w.attempts[row], Next(prices, w, Report(row, job, running));
            && OnlyAttempt(w, w', row)
            && w'.attempts[row] ==
                 if a.job == Some(job) && (a.state == Queued || a.state == Running)
                 then Attempt(a.who, a.question, if running then Running else Queued, a.job, a.hacked, a.points, a.ended)
                 else a
  {
  }

  lemma SentIsQueued(prices: Qid -> Price, w: World, row: nat, job: Job)
    requires Enabled(w, SendOk(row, job))
    ensures var a, w' := w.attempts[row], Next(prices, w, SendOk(row, job));
            && OnlyAttempt(w, w', row)
            && w'.attempts[row] == Attempt(a.who, a.question, Queued, Some(job), a.hacked, a.points, a.ended)
            && job in w'.issued && w'.issued[job] == row && row !in w'.claimed
  {
  }

  /** An attempt is taken if and only if its author's last one, if any, is done and ended three seconds ago or more. */
  lemma SubmitTakenIff(prices: Qid -> Price, w: World, who: Pid, question: Qid, now: Time)
    ensures var w' := Next(prices, w, Submit(who, question, now));
            && (|w'.attempts| > |w.attempts| <==>
                  forall i: nat :: IsLast(w.attempts, who, i) ==>
                    && w.attempts[i].state == Done
                    && (w.attempts[i].ended.Some? ==> now >= w.attempts[i].ended.value + 3000))
            && w'.attempts == w.attempts
                 + if |w'.attempts| > |w.attempts| then [Attempt(who, question, Pending, None, None, 0, None)] else []
  {
    var newest := Newest(w.attempts, who);
    if newest.Some? {
      assert IsLast(w.attempts, who, newest.value);
      assert forall i: nat :: IsLast(w.attempts, who, i) ==> i == newest.value;
    } else {
      assert forall i: nat :: !IsLast(w.attempts, who, i);
    }
  }

  /** The last attempt a participant made. */
  ghost predicate IsLast(attempts: seq<Attempt>, who: Pid, i: nat) {
    i < |attempts| && attempts[i].who == who && forall j :: i < j < |attempts| ==> attempts[j].who != who
  }
}
