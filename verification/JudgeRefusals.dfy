/** A refusal of the judge is written after its claim is let go, when somebody else may have sent the row again. */
module JudgeRefusals {
  import opened Common
  import opened Judgements
  import opened JudgingRuns

  /** A current row that waits on a job the judge has. */
  predicate OnLiveJob(rows: seq<Row>, row: nat) {
    row < |rows| && !rows[row].superseded && rows[row].job.Some? && OnJob(rows[row], rows[row].job.value)
  }

  /** The row is finished as an internal error, though its job would have had a verdict. */
  predicate Overridden(before: World, after: World, row: nat) {
    && OnLiveJob(before.rows, row) && row < |after.rows|
    && after.rows[row].state == Done && after.rows[row].verdict == Some(IE) && after.rows[row].job == before.rows[row].job
  }

  /** Since the judge last refused the row it was sent, and the job has not been lost. */
  ghost predicate SentSinceRefused(states: seq<World>, steps: seq<Step>, k: nat, row: nat)
    requires IsRun(states, steps) && k <= |steps|
  {
    if k == 0 then false
    else
      match steps[k - 1]
      case SendOk(i, _) => i == row || SentSinceRefused(states, steps, k - 1, row)
      case SendRefused(i) => i != row && SentSinceRefused(states, steps, k - 1, row)
      case Lose(i, job) =>
        !(i == row && row < |states[k - 1].rows| && OnJob(states[k - 1].rows[row], job))
        && SentSinceRefused(states, steps, k - 1, row)
      case _ => SentSinceRefused(states, steps, k - 1, row)
  }

  /** What a step does to whether an unfinished row has a job. */
  lemma JobAfterStep(w: World, step: Step, row: nat)
    requires Inv(w) && Enabled(w, step) && row < |Next(w, step).rows| && Next(w, step).rows[row].state != Done
    ensures row >= |w.rows| ==> Next(w, step).rows[row].job.None?
    ensures row < |w.rows| ==>
              && w.rows[row].state != Done
              && match step
                 case SendOk(i, _) => Next(w, step).rows[row].job.Some? <==> i == row || w.rows[row].job.Some?
                 case SendRefused(i) => Next(w, step).rows[row].job.Some? <==> i != row && w.rows[row].job.Some?
                 case Lose(i, job) =>
                   Next(w, step).rows[row].job.Some? <==> !(i == row && OnJob(w.rows[row], job)) && w.rows[row].job.Some?
                 case _ => Next(w, step).rows[row].job.Some? <==> w.rows[row].job.Some?
  {
    hide Ordered;
    hide Complete;
    hide EndsOk;
    NextSubs(w, step);
    if row < |w.rows| {
      assert RowOk(w, row);
      NextRow(w, step, row);
    }
    hide Next;
  }

  lemma {:induction false} NeverSentUnmade(states: seq<World>, steps: seq<Step>, k: nat, row: nat)
    requires IsRun(states, steps) && k < |states| && row >= |states[k].rows|
    ensures !SentSinceRefused(states, steps, k, row)
  {
    if k > 0 {
      assert IsStep(states[k - 1], steps[k - 1], states[k]);
      EveryStateIsOk(states, steps, k - 1);
      NextSubs(states[k - 1], steps[k - 1]);
      NeverSentUnmade(states, steps, k - 1, row);
      hide Next;
      hide Inv;
    }
  }

  /** In every run, an unfinished row has a job exactly when it was sent since the judge last refused it. */
  lemma {:induction false} JobIffSentSince(states: seq<World>, steps: seq<Step>, k: nat, row: nat)
    requires IsRun(states, steps) && k < |states| && row < |states[k].rows| && states[k].rows[row].state != Done
    ensures states[k].rows[row].job.Some? <==> SentSinceRefused(states, steps, k, row)
  {
    if k > 0 {
      assert IsStep(states[k - 1], steps[k - 1], states[k]);
      EveryStateIsOk(states, steps, k - 1);
      JobAfterStep(states[k - 1], steps[k - 1], row);
      hide Next;
      hide Inv;
      if row < |states[k - 1].rows| {
        JobIffSentSince(states, steps, k - 1, row);
      } else {
        NeverSentUnmade(states, steps, k - 1, row);
        NeverSentUnmadeNow(states, steps, k, row);
      }
    }
  }

  lemma NeverSentUnmadeNow(states: seq<World>, steps: seq<Step>, k: nat, row: nat)
    requires IsRun(states, steps) && 0 < k < |states| && row >= |states[k - 1].rows|
    ensures !SentSinceRefused(states, steps, k, row)
  {
    assert IsStep(states[k - 1], steps[k - 1], states[k]);
    NeverSentUnmade(states, steps, k - 1, row);
    hide Next;
    EveryStateIsOk(states, steps, k - 1);
    hide Inv;
  }

  /** In every run: writing a refusal overrides a live job if and only if the row is still current and unfinished and
      somebody has sent it since the judge refused it. Otherwise the row it finishes has no job, or it finishes
      nothing. */
  lemma RefusalOverridesIff(states: seq<World>, steps: seq<Step>, k: nat, row: nat, now: Time)
    requires IsRun(states, steps) && k < |steps| && steps[k] == WriteRefusal(row, now)
    ensures row < |states[k].rows|
    ensures Overridden(states[k], states[k + 1], row) <==>
              InFlight(states[k].rows[row]) && SentSinceRefused(states, steps, k, row)
  {
    assert IsStep(states[k], steps[k], states[k + 1]);
    EveryStateIsOk(states, steps, k);
    assert RowOk(states[k], row);
    NextRow(states[k], steps[k], row);
    if states[k].rows[row].state != Done {
      JobIffSentSince(states, steps, k, row);
    }
    hide SentSinceRefused;
    hide Inv;
    hide Next;
  }

  /** The job's own verdict is never recorded then, whatever it is and whenever it comes. */
  lemma OverriddenForGood(states: seq<World>, steps: seq<Step>, k: nat, later: nat, row: nat)
    requires IsRun(states, steps) && k < later < |states| && Overridden(states[k], states[k + 1], row)
    ensures row < |states[later].rows| && states[later].rows[row].verdict == Some(IE)
  {
    DoneIsFinal(states, steps, k + 1, later, row);
  }

  // ----- a run that does it -------------------------------------------------------------------------------

  const SENT_ONCE := World([1], [NewRow(0, 1)], map[], {}, {}, map[], {}, map[], {}, 0)

  function RefusalStates(): seq<World> {
    [EMPTY,
     SENT_ONCE,
     SENT_ONCE.(claimed := {0}),
     SENT_ONCE.(refused := {0}),
     SENT_ONCE.(refused := {0}, claimed := {0}),
     SENT_ONCE.(refused := {0}, issued := map[9 := 0], rows := [Sent(NewRow(0, 1), 9)]),
     SENT_ONCE.(issued := map[9 := 0], rows := [Finished(Sent(NewRow(0, 1), 9), IE, 5)],
                lastEnded := map[1 := 5], clock := 5)]
  }

  /** Refused, let go, claimed by another sender and accepted; then the refusal is written. */
  function RefusalSteps(): seq<Step> {
    [Submit(1, 0), Claim(0), SendRefused(0), Claim(0), SendOk(0, 9), WriteRefusal(0, 5)]
  }

  lemma RefusalStep(k: nat)
    requires k < 6
    ensures IsStep(RefusalStates()[k], RefusalSteps()[k], RefusalStates()[k + 1])
  {
    var w, step, next := RefusalStates()[k], RefusalSteps()[k], RefusalStates()[k + 1];
    match k
    case 0 => assert Next(w, step).rows == next.rows && Next(w, step).subs == next.subs;
    case 1 => assert Next(w, step).claimed == next.claimed;
    case 2 => assert Next(w, step).refused == next.refused && Next(w, step).claimed == next.claimed;
    case 3 => assert Next(w, step).claimed == next.claimed;
    case 4 => assert Next(w, step).rows == next.rows && Next(w, step).claimed == next.claimed;
    case 5 => assert Next(w, step).rows == next.rows && Next(w, step).refused == next.refused;
  }

  /** Job 9 is live when the row is finished as an internal error. */
  lemma RefusalOverridesLiveJob()
    ensures IsRun(RefusalStates(), RefusalSteps())
    ensures OnJob(RefusalStates()[5].rows[0], 9) && Overridden(RefusalStates()[5], RefusalStates()[6], 0)
  {
    forall k | 0 <= k < |RefusalSteps()|
      ensures IsStep(RefusalStates()[k], RefusalSteps()[k], RefusalStates()[k + 1])
    {
      RefusalStep(k);
    }
  }
}
