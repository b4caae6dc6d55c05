/** The comparison modes, how they order by strictness, and what they tell the jury. `app/core/comparison.py` */
module Comparisons {
  import opened Common
  import opened Text

  /** What the jury is told about a difference. Counts are of tokens. */
  datatype Detail =
    | TokenDiffers(index: nat, want: string, got: string)
    | TokenTooFar(index: nat, want: string, got: string, tolerance: Option<real>)
    | TooShort(have: nat, need: nat)
    | TooLong(have: nat, need: nat)
    | OutputsDiffer

  datatype Comparison = Accepted | Rejected(detail: Detail)

  const WIDTH := 60

  function Shown(token: string): string {
    if |token| <= WIDTH then token else token[..WIDTH]
  }

  /** The first point of difference, from token `i` on. */
  function DescribeFrom(got: seq<string>, want: seq<string>, i: nat): Detail
    decreases |got| - i
  {
    if i < |got| && i < |want| then
      if got[i] != want[i] then TokenDiffers(i, Shown(want[i]), Shown(got[i])) else DescribeFrom(got, want, i + 1)
    else if |got| < |want| then TooShort(|got|, |want|)
    else if |got| > |want| then TooLong(|got|, |want|)
    else OutputsDiffer
  }

  function Describe(got: seq<string>, want: seq<string>): Detail {
    DescribeFrom(got, want, 0)
  }

  function CompareTokens(output: string, answer: string): Comparison {
    if Split(output) == Split(answer) then Accepted else Rejected(Describe(Split(output), Split(answer)))
  }

  function CompareExact(output: string, answer: string): Comparison {
    if RStripped(output) == RStripped(answer) then Accepted else Rejected(Describe(Split(output), Split(answer)))
  }

  /** How a token-by-token mode decides that two tokens match, and what it adds to a rejection. */
  datatype Matcher =
    | Floats(parse: string -> Option<real>, tolerance: real)
    | YesNo(lower: string -> string)

  function Abs(x: real): real {
    if x < 0.0 then -x else x
  }

  /** Absolute or relative to the expected value, whichever is kinder. */
  predicate Close(got: real, want: real, tolerance: real) {
    Abs(got - want) <= tolerance || Abs(got - want) <= tolerance * Abs(want)
  }

  function YesNoForm(lower: string -> string, token: string): string {
    var lowered := lower(token);
    if lowered in ["yes", "y", "true"] then "yes"
    else if lowered in ["no", "n", "false"] then "no"
    else lowered
  }

  predicate Matches(m: Matcher, got: string, want: string) {
    match m
    case Floats(parse, tolerance) =>
      got == want
      || (parse(got).Some? && parse(want).Some? && Close(parse(got).value, parse(want).value, tolerance))
    case YesNo(lower) => YesNoForm(lower, got) == YesNoForm(lower, want)
  }

  /** The tolerance is named when both tokens were numbers. */
  function Why(m: Matcher, got: string, want: string): Option<real> {
    match m
    case Floats(parse, tolerance) => if parse(got).Some? && parse(want).Some? then Some(tolerance) else None
    case YesNo(_) => None
  }

  function MatchFrom(m: Matcher, got: seq<string>, want: seq<string>, i: nat): Comparison
    requires |got| == |want|
    decreases |got| - i
  {
    if i >= |got| then Accepted
    else if !Matches(m, got[i], want[i]) then Rejected(TokenTooFar(i, want[i], got[i], Why(m, got[i], want[i])))
    else MatchFrom(m, got, want, i + 1)
  }

  function CompareTokenwise(m: Matcher, output: string, answer: string): Comparison {
    var got, want := Split(output), Split(answer);
    if |got| != |want| then Rejected(Describe(got, want)) else MatchFrom(m, got, want, 0)
  }

  /** The comparator a problem's mode names; an unknown name gets tokens. */
  function Compare(mode: string, parse: string -> Option<real>, lower: string -> string, tolerance: real,
                   output: string, answer: string): Comparison
  {
    if mode == "exact" then CompareExact(output, answer)
    else if mode == "float" then CompareTokenwise(Floats(parse, tolerance), output, answer)
    else if mode == "yesno" then CompareTokenwise(YesNo(lower), output, answer)
    else CompareTokens(output, answer)
  }

  // ----- each mode is kinder than the one before -------------------------------------------------------

  /** What exact accepts, tokens accepts. */
  lemma ExactImpliesTokens(output: string, answer: string)
    requires CompareExact(output, answer).Accepted?
    ensures CompareTokens(output, answer).Accepted?
  {
    SplitRStripped(output);
    SplitRStripped(answer);
  }

  /** A token-by-token mode accepts exactly when there are as many tokens and each matches its own. */
  lemma TokenwiseAcceptsIff(m: Matcher, output: string, answer: string)
    ensures var got, want := Split(output), Split(answer);
            CompareTokenwise(m, output, answer).Accepted? <==>
              |got| == |want| && forall i :: 0 <= i < |got| ==> Matches(m, got[i], want[i])
  {
    var got, want := Split(output), Split(answer);
    if |got| == |want| {
      MatchFromAcceptsIff(m, got, want, 0);
    }
  }

  lemma {:induction false} MatchFromAcceptsIff(m: Matcher, got: seq<string>, want: seq<string>, i: nat)
    requires |got| == |want|
    ensures MatchFrom(m, got, want, i).Accepted? <==> forall k :: i <= k < |got| ==> Matches(m, got[k], want[k])
    decreases |got| - i
  {
    if i < |got| {
      MatchFromAcceptsIff(m, got, want, i + 1);
    }
  }

  /** What tokens accepts, the other two accept, whatever the tolerance. */
  lemma TokensImpliesTokenwise(m: Matcher, output: string, answer: string)
    requires CompareTokens(output, answer).Accepted?
    ensures CompareTokenwise(m, output, answer).Accepted?
  {
    TokenwiseAcceptsIff(m, output, answer);
  }

  /** Whatever mode a problem names: what "exact" accepts it accepts, and unless it is "exact" it accepts what
      "tokens" does; and a name that is none of the four is "tokens". */
  lemma ModesAreOrdered(mode: string, parse: string -> Option<real>, lower: string -> string, tolerance: real,
                        output: string, answer: string)
    ensures Compare("exact", parse, lower, tolerance, output, answer).Accepted? ==>
              Compare(mode, parse, lower, tolerance, output, answer).Accepted?
    ensures mode != "exact" && Compare("tokens", parse, lower, tolerance, output, answer).Accepted? ==>
              Compare(mode, parse, lower, tolerance, output, answer).Accepted?
    ensures mode !in ["exact", "float", "yesno"] ==>
              Compare(mode, parse, lower, tolerance, output, answer) == Compare("tokens", parse, lower, tolerance, output, answer)
  {
    if CompareExact(output, answer).Accepted? {
      ExactImpliesTokens(output, answer);
    }
    if CompareTokens(output, answer).Accepted? {
      TokensImpliesTokenwise(Floats(parse, tolerance), output, answer);
      TokensImpliesTokenwise(YesNo(lower), output, answer);
    }
  }

  /** More tolerance never turns an acceptance into a rejection. */
  lemma MoreToleranceIsKinder(parse: string -> Option<real>, less: real, more: real, output: string, answer: string)
    requires less <= more && CompareTokenwise(Floats(parse, less), output, answer).Accepted?
    ensures CompareTokenwise(Floats(parse, more), output, answer).Accepted?
  {
    TokenwiseAcceptsIff(Floats(parse, less), output, answer);
    TokenwiseAcceptsIff(Floats(parse, more), output, answer);
    var got, want := Split(output), Split(answer);
    hide Split;
    hide Matches;
    hide CompareTokenwise;
    forall i | 0 <= i < |got|
      ensures Matches(Floats(parse, more), got[i], want[i])
    {
      assert Matches(Floats(parse, less), got[i], want[i]);
      MoreMatches(parse, less, more, got[i], want[i]);
    }
  }

  lemma MoreMatches(parse: string -> Option<real>, less: real, more: real, got: string, want: string)
    requires less <= more && Matches(Floats(parse, less), got, want)
    ensures Matches(Floats(parse, more), got, want)
  {
    if parse(want).Some? {
      Scales(less, more, Abs(parse(want).value));
    }
  }

  lemma Scales(a: real, b: real, x: real)
    requires a <= b && x >= 0.0
    ensures a * x <= b * x
  {
    assert (b - a) * x >= 0.0;
  }

  // ----- what a rejection says is true ----------------------------------------------------------------

  /** `i` is the first token in which the two differ. */
  ghost predicate FirstDifference(got: seq<string>, want: seq<string>, i: nat) {
    && i < |got| && i < |want| && got[i] != want[i]
    && forall k :: 0 <= k < i ==> got[k] == want[k]
  }

  /** The detail names a real first difference. */
  ghost predicate Truthful(got: seq<string>, want: seq<string>, detail: Detail) {
    match detail
    case TokenDiffers(i, w, g) => FirstDifference(got, want, i) && w == Shown(want[i]) && g == Shown(got[i])
    case TooShort(g, w) => got < want && g == |got| && w == |want|
    case TooLong(g, w) => want < got && g == |got| && w == |want|
    case OutputsDiffer => got == want
    case TokenTooFar(_, _, _, _) => false
  }

  lemma {:induction false} DescribeFromIsTruthful(got: seq<string>, want: seq<string>, i: nat)
    requires i <= |got| && i <= |want| && forall k :: 0 <= k < i ==> got[k] == want[k]
    ensures Truthful(got, want, DescribeFrom(got, want, i))
    decreases |got| - i
  {
    if i < |got| && i < |want| && got[i] == want[i] {
      DescribeFromIsTruthful(got, want, i + 1);
    }
  }

  /** A token comparison that rejects names the real first difference, or says which output ran short; it never
      says merely that the outputs differ. */
  lemma TokenRejectionIsTruthful(output: string, answer: string)
    requires CompareTokens(output, answer).Rejected?
    ensures var detail := CompareTokens(output, answer).detail;
            Truthful(Split(output), Split(answer), detail) && !detail.OutputsDiffer?
  {
    DescribeFromIsTruthful(Split(output), Split(answer), 0);
  }

  /** An exact comparison says merely that the outputs differ exactly when it is whitespace that differs. */
  lemma ExactRejectionIsTruthful(output: string, answer: string)
    requires CompareExact(output, answer).Rejected?
    ensures Truthful(Split(output), Split(answer), CompareExact(output, answer).detail)
    ensures CompareExact(output, answer).detail.OutputsDiffer? <==> CompareTokens(output, answer).Accepted?
  {
    DescribeFromIsTruthful(Split(output), Split(answer), 0);
  }

  /** A token-by-token rejection names the first pair that does not match, in full; or, when the counts differ,
      what a token comparison would. */
  lemma TokenwiseRejectionIsTruthful(m: Matcher, output: string, answer: string)
    requires CompareTokenwise(m, output, answer).Rejected?
    ensures var got, want := Split(output), Split(answer);
            var detail := CompareTokenwise(m, output, answer).detail;
            if |got| != |want| then Truthful(got, want, detail) && !detail.OutputsDiffer?
            else
              && detail.TokenTooFar? && detail.index < |got|
              && detail.got == got[detail.index] && detail.want == want[detail.index]
              && !Matches(m, detail.got, detail.want)
              && forall k :: 0 <= k < detail.index ==> Matches(m, got[k], want[k])
  {
    var got, want := Split(output), Split(answer);
    if |got| != |want| {
      DescribeFromIsTruthful(got, want, 0);
    } else {
      MatchFromRejection(m, got, want, 0);
    }
  }

  lemma {:induction false} MatchFromRejection(m: Matcher, got: seq<string>, want: seq<string>, i: nat)
    requires |got| == |want| && MatchFrom(m, got, want, i).Rejected?
    requires forall k :: 0 <= k < i < |got| ==> Matches(m, got[k], want[k])
    ensures var detail := MatchFrom(m, got, want, i).detail;
            && detail.TokenTooFar? && detail.index < |got|
            && detail.got == got[detail.index] && detail.want == want[detail.index]
            && !Matches(m, detail.got, detail.want)
            && forall k :: 0 <= k < detail.index ==> Matches(m, got[k], want[k])
    decreases |got| - i
  {
    if i < |got| && Matches(m, got[i], want[i]) {
      MatchFromRejection(m, got, want, i + 1);
    }
  }

  /** Two different tokens are shown alike exactly when both reach sixty characters and agree up to there. */
  lemma ShownAlikeIff(got: string, want: string)
    requires got != want
    ensures Shown(got) == Shown(want) <==>
              (|got| >= 60 && |want| >= 60 && forall i :: 0 <= i < 60 ==> got[i] == want[i])
  {
    if |got| >= WIDTH && |want| >= WIDTH && forall i :: 0 <= i < WIDTH ==> got[i] == want[i] {
      assert got[..WIDTH] == want[..WIDTH];
      assert |got| == WIDTH ==> got == got[..WIDTH];
      assert |want| == WIDTH ==> want == want[..WIDTH];
    }
    if Shown(got) == Shown(want) {
      assert |Shown(got)| == WIDTH;
      forall i | 0 <= i < WIDTH
        ensures got[i] == want[i]
      {
        assert got[i] == Shown(got)[i] && want[i] == Shown(want)[i];
      }
    }
  }

  // ----- what each mode is told of the problem -----------------------------------------------------------

  /** Yes in any of its spellings is one answer, and so is no; and the two are never one. */
  lemma YesAndNoAreApart(lower: string -> string, yes: string, no: string)
    requires lower(yes) in ["yes", "y", "true"] && lower(no) in ["no", "n", "false"]
    ensures !Matches(YesNo(lower), yes, no)
    ensures forall t :: Matches(YesNo(lower), t, yes) <==> lower(t) in ["yes", "y", "true"]
    ensures forall t :: Matches(YesNo(lower), t, no) <==> lower(t) in ["no", "n", "false"]
  {
    assert "yes"[0] != "no"[0];
  }
}
