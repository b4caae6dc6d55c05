/** Judging one submission: its outcomes on the testcases, folded into a judgement.
    `app/judging/judge.py` and the wording of `app/core/verdict.py` */
module Tallying {
  import opened Common

  /** One run on one testcase. Time is in thousandths of a millisecond. */
  datatype RunOutcome = RunOutcome(verdict: Verdict, detail: string, time: nat, memory: nat)

  /** What the contestant is told. Test numbers count from zero, as `first_fail` does. */
  datatype Message = AllPassed | FailedOn(verdict: Verdict, test: nat) | InternalError | NoTestcases | CompilationFailed

  function MessageFor(verdict: Verdict, test: nat): Message {
    if verdict == IE then InternalError else FailedOn(verdict, test)
  }

  /** A judgement's verdict and all that goes with it. */
  datatype Summary = Summary(
    verdict: Verdict,
    message: Message,
    passed: nat,
    firstFail: Option<nat>,
    juryDetail: string,
    maxTime: nat,
    maxMemory: nat)

  // ----- what a judgement should say ---------------------------------------------------------------

  /** The least failing test, if any fails. */
  function FirstFail(outcomes: seq<RunOutcome>): (i: Option<nat>)
    ensures i.None? ==> forall k :: 0 <= k < |outcomes| ==> outcomes[k].verdict == AC
    ensures i.Some? ==> i.value < |outcomes| && outcomes[i.value].verdict != AC
    ensures i.Some? ==> forall k :: 0 <= k < i.value ==> outcomes[k].verdict == AC
  {
    if outcomes == [] then None
    else
      var n := |outcomes| - 1;
      var before := FirstFail(outcomes[..n]);
      if before.Some? then before else if outcomes[n].verdict == AC then None else Some(n)
  }

  function PassedOf(outcomes: seq<RunOutcome>): nat {
    if outcomes == [] then 0
    else
      var n := |outcomes| - 1;
      PassedOf(outcomes[..n]) + if outcomes[n].verdict == AC then 1 else 0
  }

  function Max(a: nat, b: nat): nat {
    if a < b then b else a
  }

  function MaxTime(outcomes: seq<RunOutcome>): nat {
    if outcomes == [] then 0 else Max(MaxTime(outcomes[..|outcomes| - 1]), outcomes[|outcomes| - 1].time)
  }

  function MaxMemory(outcomes: seq<RunOutcome>): nat {
    if outcomes == [] then 0 else Max(MaxMemory(outcomes[..|outcomes| - 1]), outcomes[|outcomes| - 1].memory)
  }

  /** No run took more than these, and unless nothing was used some run took as much. */
  lemma {:induction false} MaximaAreReached(outcomes: seq<RunOutcome>)
    ensures forall k :: 0 <= k < |outcomes| ==>
              outcomes[k].time <= MaxTime(outcomes) && outcomes[k].memory <= MaxMemory(outcomes)
    ensures MaxTime(outcomes) == 0 || exists k :: 0 <= k < |outcomes| && outcomes[k].time == MaxTime(outcomes)
    ensures MaxMemory(outcomes) == 0 || exists k :: 0 <= k < |outcomes| && outcomes[k].memory == MaxMemory(outcomes)
  {
    if outcomes != [] {
      var n := |outcomes| - 1;
      MaximaAreReached(outcomes[..n]);
      if k :| 0 <= k < n && outcomes[..n][k].time == MaxTime(outcomes[..n]) {
        assert outcomes[k].time == MaxTime(outcomes[..n]);
      }
      if k :| 0 <= k < n && outcomes[..n][k].memory == MaxMemory(outcomes[..n]) {
        assert outcomes[k].memory == MaxMemory(outcomes[..n]);
      }
    }
  }

  /** The outcomes that are looked at: up to and with the first failure when stopping early. */
  function Considered(outcomes: seq<RunOutcome>, stopEarly: bool): seq<RunOutcome> {
    if stopEarly && FirstFail(outcomes).Some? then outcomes[..FirstFail(outcomes).value + 1] else outcomes
  }

  /** The judgement of the outcomes that were run. */
  function SummaryOf(run: seq<RunOutcome>): Summary {
    var first := FirstFail(run);
    Summary(
      if first.Some? then run[first.value].verdict else AC,
      if first.Some? then MessageFor(run[first.value].verdict, first.value) else AllPassed,
      PassedOf(run),
      first,
      if first.Some? then run[first.value].detail else "",
      MaxTime(run),
      MaxMemory(run))
  }

  function Judged(outcomes: seq<RunOutcome>, stopEarly: bool): Summary {
    var summary := SummaryOf(Considered(outcomes, stopEarly));
    if outcomes == [] then summary.(verdict := IE, message := NoTestcases) else summary
  }

  /** What a tally makes of one more outcome. */
  function Folded(s: Summary, index: nat, o: RunOutcome): Summary {
    var seen := s.(maxTime := Max(s.maxTime, o.time), maxMemory := Max(s.maxMemory, o.memory));
    if o.verdict == AC then seen.(passed := s.passed + 1)
    else if s.firstFail.Some? then seen
    else
      seen.(firstFail := Some(index), verdict := o.verdict, message := MessageFor(o.verdict, index), juryDetail := o.detail)
  }

  /** Folding the outcomes in one at a time gives the judgement of them all. */
  lemma FoldedIsSummary(run: seq<RunOutcome>, o: RunOutcome)
    ensures SummaryOf(run + [o]) == Folded(SummaryOf(run), |run|, o)
    ensures FirstFail(run + [o])
         == if FirstFail(run).Some? then FirstFail(run) else if o.verdict == AC then None else Some(|run|)
  {
    assert (run + [o])[..|run|] == run;
  }

  // ----- the tally -----------------------------------------------------------------------------------

  /** The running tally; its `View` is the fold of the outcomes added so far. */
  class Tally {
    var verdict: Verdict
    var message: Message
    var passed: nat
    var firstFail: Option<nat>
    var juryDetail: string
    var maxTime: nat
    var maxMemory: nat

    function View(): Summary
      reads this
    {
      Summary(verdict, message, passed, firstFail, juryDetail, maxTime, maxMemory)
    }

    constructor ()
      ensures View() == SummaryOf([])
    {
      verdict, message, passed, firstFail := AC, AllPassed, 0, None;
      juryDetail, maxTime, maxMemory := "", 0, 0;
    }

    constructor CompileError()
      ensures View() == SummaryOf([]).(verdict := CE, message := CompilationFailed)
    {
      verdict, message, passed, firstFail := CE, CompilationFailed, 0, None;
      juryDetail, maxTime, maxMemory := "", 0, 0;
    }

    /** Fold one testcase in. Says whether it is the first failure. */
    method Add(index: nat, outcome: RunOutcome) returns (first: bool)
      modifies this
      ensures View() == Folded(old(View()), index, outcome)
      ensures first <==> old(firstFail).None? && firstFail == Some(index)
    {
      maxTime, maxMemory := Max(maxTime, outcome.time), Max(maxMemory, outcome.memory);
      if outcome.verdict == AC {
        passed := passed + 1;
        return false;
      }
      if firstFail.Some? {
        return false;
      }
      firstFail, verdict := Some(index), outcome.verdict;
      message, juryDetail := MessageFor(outcome.verdict, index), outcome.detail;
      first := true;
    }
  }

  lemma FirstFailOfPrefix(outcomes: seq<RunOutcome>, n: nat)
    requires n <= |outcomes| && FirstFail(outcomes[..n]).Some?
    ensures FirstFail(outcomes) == FirstFail(outcomes[..n])
  {
    hide FirstFail;
    var i := FirstFail(outcomes[..n]).value;
    assert outcomes[i] == outcomes[..n][i];
    forall k | 0 <= k < i
      ensures outcomes[k].verdict == AC
    {
      assert outcomes[k] == outcomes[..n][k];
    }
  }

  /** Run every testcase in turn, unless the job is cancelled first: `cancelled[i]` says whether that has been
      asked by the time test `i` would start. Without a result, nothing is recorded. */
  method RunTestcases(outcomes: seq<RunOutcome>, cancelled: seq<bool>, stopEarly: bool) returns (r: Option<Summary>)
    requires |cancelled| == |outcomes|
    ensures r.Some? ==> r.value == Judged(outcomes, stopEarly)
    ensures r.None? <==> exists i :: 0 <= i < |Considered(outcomes, stopEarly)| && cancelled[i]
  {
    hide FirstFail;
    hide PassedOf;
    hide MaxTime;
    hide MaxMemory;
    var tally := new Tally();
    var i := 0;
    var done := false;
    while i < |outcomes| && !done
      invariant 0 <= i <= |outcomes| && tally.View() == SummaryOf(outcomes[..i])
      invariant done <==> stopEarly && FirstFail(outcomes[..i]).Some?
      invariant done ==> i > 0 && FirstFail(outcomes[..i]) == Some(i - 1)
      invariant forall k :: 0 <= k < i ==> !cancelled[k]
    {
      if cancelled[i] {
        if FirstFail(outcomes).Some? && FirstFail(outcomes).value < i {
          NoEarlierFailure(outcomes, i);
        }
        return None;
      }
      FoldedIsSummary(outcomes[..i], outcomes[i]);
      assert outcomes[..i] + [outcomes[i]] == outcomes[..i + 1];
      var first := tally.Add(i, outcomes[i]);
      done := first && stopEarly;
      i := i + 1;
    }
    if done {
      FirstFailOfPrefix(outcomes, i);
    }
    assert Considered(outcomes, stopEarly) == outcomes[..i];
    var summary := tally.View();
    if |outcomes| == 0 {
      summary := summary.(verdict := IE, message := NoTestcases);
    }
    r := Some(summary);
  }

  lemma NoEarlierFailure(outcomes: seq<RunOutcome>, i: nat)
    requires i <= |outcomes| && FirstFail(outcomes).Some? && FirstFail(outcomes).value < i
    ensures FirstFail(outcomes[..i]).Some?
  {
    var k := FirstFail(outcomes).value;
    assert outcomes[..i][k] == outcomes[k];
  }

  // ----- what the two ways of running agree on ----------------------------------------------------------

  /** Stopping at the first failure changes nothing that the contestant or the jury is told. */
  lemma EarlyExitAgrees(outcomes: seq<RunOutcome>)
    ensures var early, full := Judged(outcomes, true), Judged(outcomes, false);
            && early.verdict == full.verdict && early.message == full.message
            && early.juryDetail == full.juryDetail && early.firstFail == full.firstFail
            && early.passed <= full.passed && early.maxTime <= full.maxTime && early.maxMemory <= full.maxMemory
  {
    var first := FirstFail(outcomes);
    if first.Some? {
      var run := outcomes[..first.value + 1];
      NoEarlierFailure(outcomes, first.value + 1);
      FirstFailOfPrefix(outcomes, first.value + 1);
      PrefixIsLess(outcomes, first.value + 1);
    }
  }

  lemma {:induction false} PrefixIsLess(outcomes: seq<RunOutcome>, n: nat)
    requires n <= |outcomes|
    ensures PassedOf(outcomes[..n]) <= PassedOf(outcomes)
    ensures MaxTime(outcomes[..n]) <= MaxTime(outcomes) && MaxMemory(outcomes[..n]) <= MaxMemory(outcomes)
  {
    if n < |outcomes| {
      PrefixIsLess(outcomes[..|outcomes| - 1], n);
      assert outcomes[..|outcomes| - 1][..n] == outcomes[..n];
    } else {
      assert outcomes[..n] == outcomes;
    }
  }

  lemma {:induction false} AllPassedOf(outcomes: seq<RunOutcome>)
    requires forall k :: 0 <= k < |outcomes| ==> outcomes[k].verdict == AC
    ensures PassedOf(outcomes) == |outcomes|
  {
    if outcomes != [] {
      AllPassedOf(outcomes[..|outcomes| - 1]);
    }
  }

  /** Stopped early, the count of tests passed is the number of the first that failed. */
  lemma EarlyExitPassedIsFirstFail(outcomes: seq<RunOutcome>)
    requires FirstFail(outcomes).Some?
    ensures Judged(outcomes, true).passed == FirstFail(outcomes).value
    ensures Judged(outcomes, true).firstFail == FirstFail(outcomes)
  {
    hide FirstFail;
    hide MaxTime;
    hide MaxMemory;
    var i := FirstFail(outcomes).value;
    var run := outcomes[..i + 1];
    assert forall k :: 0 <= k <= i ==> run[k] == outcomes[k];
    PassedBeforeFailure(run);
    hide PassedOf;
    NoEarlierFailure(outcomes, i + 1);
    FirstFailOfPrefix(outcomes, i + 1);
  }

  lemma PassedBeforeFailure(run: seq<RunOutcome>)
    requires run != [] && run[|run| - 1].verdict != AC
    requires forall k :: 0 <= k < |run| - 1 ==> run[k].verdict == AC
    ensures PassedOf(run) == |run| - 1
  {
    AllPassedOf(run[..|run| - 1]);
  }

  /** A submission is accepted exactly when there are testcases and it passes them all; and an empty list is
      nobody's fault but the problem's. */
  lemma AcceptedIff(outcomes: seq<RunOutcome>, stopEarly: bool)
    ensures Judged(outcomes, stopEarly).verdict == AC <==>
              outcomes != [] && forall k :: 0 <= k < |outcomes| ==> outcomes[k].verdict == AC
    ensures Judged(outcomes, stopEarly).verdict == AC ==> Judged(outcomes, stopEarly).passed == |outcomes|
    ensures outcomes == [] ==> Judged(outcomes, stopEarly).verdict == IE
  {
    EarlyExitAgrees(outcomes);
    if FirstFail(outcomes).None? {
      AllPassedOf(outcomes);
    }
  }
}
