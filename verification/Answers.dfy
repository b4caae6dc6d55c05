/** The distinct entries of a free-form answer, which is what a validator scores. `phase1/answers.py` */
module Answers {
  import opened Text

  /** How a question tells entries apart: `fold` is the lower-casing used unless case matters. */
  datatype Telling = Telling(caseSensitive: bool, fold: string -> string)

  /** Two spellings of one entry have the same norm. */
  function Norm(t: Telling, text: string): string {
    var collapsed := Collapsed(Stripped(text));
    if t.caseSensitive then collapsed else t.fold(collapsed)
  }

  /** A Python slice `s[:max]`, whose bound counts from the end when negative. */
  function Take<T>(s: seq<T>, max: int): (r: seq<T>)
    ensures r <= s && (max >= 0 ==> |r| <= max)
    ensures max >= |s| ==> r == s
  {
    if max >= |s| then s
    else if max >= 0 then s[..max]
    else if |s| + max >= 0 then s[..|s| + max]
    else []
  }

  /** Entry `i` says something, and is the first to say it. */
  predicate IsFirst(t: Telling, raw: seq<string>, i: nat) {
    && i < |raw| && !Blank(raw[i])
    && forall j :: 0 <= j < i && !Blank(raw[j]) ==> Norm(t, raw[j]) != Norm(t, raw[i])
  }

  /** The first spelling of each entry, in order. */
  function Kept(t: Telling, raw: seq<string>): seq<string> {
    if raw == [] then []
    else
      var n := |raw| - 1;
      Kept(t, raw[..n]) + if IsFirst(t, raw, n) then [Stripped(raw[n])] else []
  }

  function Distinct(t: Telling, raw: seq<string>, max: int): seq<string> {
    Take(Kept(t, raw), max)
  }

  lemma StripOnce(t: Telling, text: string)
    ensures Norm(t, Stripped(text)) == Norm(t, text)
    ensures Stripped(text) == [] <==> Blank(text)
  {
    SplitStripped(text);
    CollapsedIsWords(text);
    CollapsedIsWords(Stripped(text));
  }

  /** When case matters, two entries are the same exactly when they hold the same words. */
  lemma SameEntryIff(t: Telling, a: string, b: string)
    requires t.caseSensitive
    ensures Norm(t, a) == Norm(t, b) <==> Split(a) == Split(b)
  {
    CollapsedAlikeIff(a, b);
  }

  /** An entry is known by its words, joined by single spaces; in lower case unless case matters. */
  lemma NormIsItsWords(t: Telling, text: string)
    ensures Norm(t, text) == if t.caseSensitive then Joined(Split(text)) else t.fold(Joined(Split(text)))
  {
    CollapsedIsWords(text);
  }

  /** What a limit keeps: so many from the front, or, when negative, all but so many at the back. */
  lemma TakeIs<T>(s: seq<T>, max: int)
    ensures max >= 0 ==> Take(s, max) == s[..if max < |s| then max else |s|]
    ensures max < 0 ==> Take(s, max) == s[..if |s| + max > 0 then |s| + max else 0]
  {
  }

  /** `text` is the first spelling, among the raw entries, of what it says. */
  ghost predicate FirstSpelling(t: Telling, raw: seq<string>, text: string) {
    exists i: nat :: IsFirst(t, raw, i) && Stripped(raw[i]) == text
  }

  ghost predicate Represented(t: Telling, kept: seq<string>, text: string) {
    exists k :: 0 <= k < |kept| && Norm(t, kept[k]) == Norm(t, text)
  }

  /** Every kept entry is some raw entry's first spelling; no two say the same; and every raw entry that says
      anything is represented. */
  lemma {:induction false} KeptIsExactlyTheEntries(t: Telling, raw: seq<string>)
    ensures forall text :: text in Kept(t, raw) ==> FirstSpelling(t, raw, text)
    ensures forall j, k :: 0 <= j < k < |Kept(t, raw)| ==> Norm(t, Kept(t, raw)[j]) != Norm(t, Kept(t, raw)[k])
    ensures forall i :: 0 <= i < |raw| && !Blank(raw[i]) ==> Represented(t, Kept(t, raw), raw[i])
  {
    if raw != [] {
      var n := |raw| - 1;
      var before, kept := Kept(t, raw[..n]), Kept(t, raw);
      KeptIsExactlyTheEntries(t, raw[..n]);
      assert raw == raw[..n] + [raw[n]];
      forall text | text in kept
        ensures FirstSpelling(t, raw, text)
      {
        KeptStaysFirst(t, raw, text);
      }
      forall j, k | 0 <= j < k < |kept|
        ensures Norm(t, kept[j]) != Norm(t, kept[k])
      {
        if k == |before| {
          assert before[j] in before;
          NewEntryIsNew(t, raw, before[j]);
        }
      }
      forall i | 0 <= i < |raw| && !Blank(raw[i])
        ensures Represented(t, kept, raw[i])
      {
        EntryIsRepresented(t, raw, i);
      }
    }
  }

  lemma KeptStaysFirst(t: Telling, raw: seq<string>, text: string)
    requires raw != [] && text in Kept(t, raw)
    requires text in Kept(t, raw[..|raw| - 1]) ==> FirstSpelling(t, raw[..|raw| - 1], text)
    ensures FirstSpelling(t, raw, text)
  {
    hide Norm;
    hide Blank;
    hide Stripped;
    var n := |raw| - 1;
    if text in Kept(t, raw[..n]) {
      var i: nat :| IsFirst(t, raw[..n], i) && Stripped(raw[..n][i]) == text;
      assert IsFirst(t, raw, i);
    } else {
      assert IsFirst(t, raw, n);
    }
  }

  lemma NewEntryIsNew(t: Telling, raw: seq<string>, text: string)
    requires raw != [] && IsFirst(t, raw, |raw| - 1) && FirstSpelling(t, raw[..|raw| - 1], text)
    ensures Norm(t, text) != Norm(t, Stripped(raw[|raw| - 1]))
  {
    hide Norm;
    hide Blank;
    hide Stripped;
    var n := |raw| - 1;
    var i: nat :| IsFirst(t, raw[..n], i) && Stripped(raw[..n][i]) == text;
    StripOnce(t, raw[i]);
    StripOnce(t, raw[n]);
  }

  lemma EntryIsRepresented(t: Telling, raw: seq<string>, i: nat)
    requires raw != [] && i < |raw| && !Blank(raw[i])
    requires forall k :: 0 <= k < |raw| - 1 && !Blank(raw[k]) ==> Represented(t, Kept(t, raw[..|raw| - 1]), raw[k])
    ensures Represented(t, Kept(t, raw), raw[i])
  {
    hide Norm;
    hide Blank;
    hide Stripped;
    var n := |raw| - 1;
    var before, kept := Kept(t, raw[..n]), Kept(t, raw);
    if IsFirst(t, raw, i) && i == n {
      StripOnce(t, raw[n]);
      assert Norm(t, kept[|before|]) == Norm(t, raw[i]);
    } else {
      var j := i;
      if i == n {
        j :| 0 <= j < n && !Blank(raw[j]) && Norm(t, raw[j]) == Norm(t, raw[n]);
      }
      assert Represented(t, before, raw[j]);
      var k :| 0 <= k < |before| && Norm(t, before[k]) == Norm(t, raw[j]);
      assert kept[k] == before[k];
    }
  }

  /** One of the first `n` raw entries says this. */
  ghost predicate Said(t: Telling, raw: seq<string>, n: nat, norm: string)
    requires n <= |raw|
  {
    exists j :: 0 <= j < n && !Blank(raw[j]) && Norm(t, raw[j]) == norm
  }

  lemma OneMoreSaid(t: Telling, raw: seq<string>, n: nat)
    requires n < |raw|
    ensures forall norm :: Said(t, raw, n + 1, norm) <==>
              Said(t, raw, n, norm) || (!Blank(raw[n]) && Norm(t, raw[n]) == norm)
    ensures IsFirst(t, raw, n) <==> !Blank(raw[n]) && !Said(t, raw, n, Norm(t, raw[n]))
    ensures Kept(t, raw[..n + 1]) == Kept(t, raw[..n]) + if IsFirst(t, raw, n) then [Stripped(raw[n])] else []
  {
    hide Norm;
    hide Blank;
    hide Stripped;
    assert raw[..n + 1][..n] == raw[..n];
    assert IsFirst(t, raw[..n + 1], n) <==> IsFirst(t, raw, n);
    forall norm
      ensures Said(t, raw, n + 1, norm) <==> Said(t, raw, n, norm) || (!Blank(raw[n]) && Norm(t, raw[n]) == norm)
    {
      if j :| 0 <= j < n + 1 && !Blank(raw[j]) && Norm(t, raw[j]) == norm {
        assert j < n ==> Said(t, raw, n, norm);
      }
    }
  }

  /** The dictionary of the source, in insertion order: norms seen and, beside each, its first spelling. */
  method DistinctEntries(t: Telling, raw: seq<string>, max: int) returns (entries: seq<string>)
    ensures entries == Distinct(t, raw, max)
  {
    hide Norm;
    hide Blank;
    hide Stripped;
    hide IsFirst;
    var norms: seq<string> := [];
    var texts: seq<string> := [];
    var i := 0;
    while i < |raw|
      invariant 0 <= i <= |raw| && texts == Kept(t, raw[..i])
      invariant forall norm {:trigger norm in norms} :: norm in norms <==> Said(t, raw, i, norm)
    {
      hide Kept;
      hide Said;
      var text := Stripped(raw[i]);
      StripOnce(t, raw[i]);
      OneMoreSaid(t, raw, i);
      if text != [] && Norm(t, text) !in norms {
        norms, texts := norms + [Norm(t, text)], texts + [text];
      }
      i := i + 1;
    }
    assert raw[..i] == raw;
    entries := Take(texts, max);
  }
}
