/** The judge's rules in plain words: when each comparison accepts, and what a judgement reports. */
module JudgeRules {
  import opened Common
  import opened Text
  import opened Comparisons
  import opened Tallying

  // ----- comparing -------------------------------------------------------------------------------------------

  /** Equal but for whitespace at the very end. */
  ghost predicate SameButTail(a: string, b: string) {
    exists core, x, y :: a == core + x && b == core + y && Blank(x) && Blank(y)
  }

  lemma {:induction false} StrippedTail(s: string)
    ensures |RStripped(s)| <= |s| && s == RStripped(s) + s[|RStripped(s)|..] && Blank(s[|RStripped(s)|..])
  {
    if s != [] && IsSpace(s[|s| - 1]) {
      var front := s[..|s| - 1];
      StrippedTail(front);
      var k := |RStripped(front)|;
      forall i | 0 <= i < |s[k..]|
        ensures IsSpace(s[k..][i])
      {
        assert k + i < |front| ==> front[k..][i] == s[k + i];
      }
    }
  }

  lemma {:induction false} TailStripped(core: string, x: string)
    requires Blank(x)
    ensures RStripped(core + x) == RStripped(core)
  {
    if x == [] {
      assert core + x == core;
    } else {
      var n := |x| - 1;
      assert (core + x)[..|core| + n] == core + x[..n] && (core + x)[|core| + n] == x[n];
      assert Blank(x[..n]);
      TailStripped(core, x[..n]);
    }
  }

  /** "exact" accepts if and only if the two are equal but for whitespace at the very end. */
  lemma ExactAcceptsIff(output: string, answer: string)
    ensures CompareExact(output, answer).Accepted? <==> SameButTail(output, answer)
  {
    StrippedTail(output);
    StrippedTail(answer);
    if core, x, y :| output == core + x && answer == core + y && Blank(x) && Blank(y) {
      TailStripped(core, x);
      TailStripped(core, y);
    }
  }

  /** Within so much of the expected value, on either side. */
  predicate Within(got: real, want: real, slack: real) {
    want - slack <= got && got <= want + slack
  }

  function Size(x: real): real {
    if x >= 0.0 then x else 0.0 - x
  }

  /** "float" takes two tokens for one if and only if they are the same text, or numbers apart by no more than the
      tolerance, or by no more than the tolerance times the size of the expected one: either is enough. */
  lemma FloatMatchesIff(parse: string -> Option<real>, tolerance: real, got: string, want: string)
    ensures Matches(Floats(parse, tolerance), got, want) <==>
              got == want
              || (parse(got).Some? && parse(want).Some?
                  && (Within(parse(got).value, parse(want).value, tolerance)
                      || Within(parse(got).value, parse(want).value, tolerance * Size(parse(want).value))))
  {
    if parse(got).Some? && parse(want).Some? {
      CloseIff(parse(got).value, parse(want).value, tolerance);
    }
    hide Close;
    hide Within;
  }

  lemma CloseIff(got: real, want: real, tolerance: real)
    ensures Close(got, want, tolerance) <==>
              Within(got, want, tolerance) || Within(got, want, tolerance * Size(want))
  {
    assert Size(want) == Abs(want);
  }

  /** One answer in other words: both say yes, both say no, or both say the same once lower-cased. */
  lemma YesNoMatchesIff(lower: string -> string, got: string, want: string)
    ensures var yes, no := {"yes", "y", "true"}, {"no", "n", "false"};
            Matches(YesNo(lower), got, want) <==>
              || (lower(got) in yes && lower(want) in yes)
              || (lower(got) in no && lower(want) in no)
              || lower(got) == lower(want)
  {
  }

  /** As many tokens, and each of them matching its own. */
  predicate EachMatches(m: Matcher, got: seq<string>, want: seq<string>) {
    |got| == |want| && forall i :: 0 <= i < |got| ==> Matches(m, got[i], want[i])
  }

  /** The mode a problem names decides which of these is asked; an unknown name asks for the same tokens. */
  lemma ModesMean(mode: string, parse: string -> Option<real>, lower: string -> string, tolerance: real,
                  output: string, answer: string)
    ensures var accepted := Compare(mode, parse, lower, tolerance, output, answer).Accepted?;
            var got, want := Split(output), Split(answer);
            && (mode == "exact" ==> (accepted <==> SameButTail(output, answer)))
            && (mode == "float" ==> (accepted <==> EachMatches(Floats(parse, tolerance), got, want)))
            && (mode == "yesno" ==> (accepted <==> EachMatches(YesNo(lower), got, want)))
            && (mode !in ["exact", "float", "yesno"] ==> (accepted <==> got == want))
  {
    ExactAcceptsIff(output, answer);
    TokenwiseAcceptsIff(Floats(parse, tolerance), output, answer);
    TokenwiseAcceptsIff(YesNo(lower), output, answer);
    assert "exact" != "float" && "exact" != "yesno" && "float" != "yesno" by {
      assert |"exact"| == 5 && "exact"[0] == 'e' && "float"[0] == 'f' && "yesno"[0] == 'y';
    }
  }

  // ----- a judgement ------------------------------------------------------------------------------------------

  /** Which outcomes passed. */
  ghost function Passing(outcomes: seq<RunOutcome>): set<nat> {
    set i: nat | i < |outcomes| && outcomes[i].verdict == AC
  }

  lemma {:induction false} PassedCounts(outcomes: seq<RunOutcome>)
    ensures PassedOf(outcomes) == |Passing(outcomes)|
  {
    if outcomes == [] {
      assert Passing(outcomes) == {};
    } else {
      var n := |outcomes| - 1;
      PassedCounts(outcomes[..n]);
      assert Passing(outcomes) == Passing(outcomes[..n]) + if outcomes[n].verdict == AC then {n} else {};
    }
  }

  /** Test `f` is the first that did not pass. */
  ghost predicate FailsFirstAt(outcomes: seq<RunOutcome>, f: nat) {
    f < |outcomes| && outcomes[f].verdict != AC && forall k :: 0 <= k < f ==> outcomes[k].verdict == AC
  }

  /** A judgement with a failure: the verdict, the words for the jury and the number are those of the first test that
      failed, the contestant is told that number unless the fault is the judge's, and the count is of the tests that
      passed among those run. */
  lemma FailureIsReported(outcomes: seq<RunOutcome>, stopEarly: bool, f: nat)
    requires FailsFirstAt(outcomes, f)
    ensures var s := Judged(outcomes, stopEarly);
            && s.verdict == outcomes[f].verdict && s.firstFail == Some(f) && s.juryDetail == outcomes[f].detail
            && s.message == (if outcomes[f].verdict == IE then InternalError else FailedOn(outcomes[f].verdict, f))
            && s.passed == if stopEarly then f else |Passing(outcomes)|
  {
    assert FirstFail(outcomes) == Some(f);
    EarlyExitAgrees(outcomes);
    EarlyExitPassedIsFirstFail(outcomes);
    PassedCounts(outcomes);
  }

  /** A judgement without one: accepted, all passed, nothing for the jury; with no tests at all, the problem's own
      error. */
  lemma SuccessIsReported(outcomes: seq<RunOutcome>, stopEarly: bool)
    requires forall k :: 0 <= k < |outcomes| ==> outcomes[k].verdict == AC
    ensures var s := Judged(outcomes, stopEarly);
            && s.firstFail == None && s.juryDetail == "" && s.passed == |outcomes|
            && s.verdict == (if outcomes == [] then IE else AC)
            && s.message == (if outcomes == [] then NoTestcases else AllPassed)
  {
    assert FirstFail(outcomes) == None;
    AllPassedOf(outcomes);
  }

  /** The time and memory reported are the greatest among the tests that were run. */
  lemma WorstIsReported(outcomes: seq<RunOutcome>, stopEarly: bool, k: nat)
    requires k < |outcomes| && (stopEarly ==> forall f :: FailsFirstAt(outcomes, f) ==> k <= f)
    ensures var s := Judged(outcomes, stopEarly);
            outcomes[k].time <= s.maxTime && outcomes[k].memory <= s.maxMemory
  {
    var run := Considered(outcomes, stopEarly);
    if FirstFail(outcomes).Some? {
      assert FailsFirstAt(outcomes, FirstFail(outcomes).value);
    }
    assert k < |run| && run[k] == outcomes[k];
    MaximaAreReached(run);
  }
}
