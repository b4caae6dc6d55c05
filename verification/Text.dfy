/** Whitespace as Python sees it: splitting, stripping and collapsing. */
module Text {
  /** `str.isspace`, for one character. */
  predicate IsSpace(c: char) {
    var n := c as int;
    || 9 <= n <= 13 || 28 <= n <= 32 || n == 0x85 || n == 0xA0 || n == 0x1680
    || 0x2000 <= n <= 0x200A || n == 0x2028 || n == 0x2029 || n == 0x202F || n == 0x205F || n == 0x3000
  }

  predicate Blank(s: string) {
    forall i :: 0 <= i < |s| ==> IsSpace(s[i])
  }

  /** A token: not empty, and without whitespace. */
  predicate IsWord(s: string) {
    s != [] && forall i :: 0 <= i < |s| ==> !IsSpace(s[i])
  }

  predicate EndsInSpace(s: string) {
    s == [] || IsSpace(s[|s| - 1])
  }

  /** `str.split()`: the maximal runs of characters that are not whitespace. */
  function Split(s: string): (words: seq<string>)
    ensures forall i :: 0 <= i < |words| ==> IsWord(words[i])
    ensures !EndsInSpace(s) ==> words != []
  {
    if s == [] then []
    else
      var n := |s| - 1;
      var before := Split(s[..n]);
      if IsSpace(s[n]) then before
      else if EndsInSpace(s[..n]) then before + [[s[n]]]
      else before[|before| - 1 := before[|before| - 1] + [s[n]]]
  }

  lemma {:induction false} SplitBlank(s: string)
    ensures Split(s) == [] <==> Blank(s)
  {
    if s != [] {
      var n := |s| - 1;
      SplitBlank(s[..n]);
      if Blank(s) {
        assert forall i :: 0 <= i < n ==> s[..n][i] == s[i];
      } else if IsSpace(s[n]) {
        assert !Blank(s[..n]) by {
          if Blank(s[..n]) {
            forall i | 0 <= i < |s|
              ensures IsSpace(s[i])
            {
              assert i < n ==> s[..n][i] == s[i];
            }
          }
        }
      }
    }
  }

  lemma {:induction false} SplitWord(s: string)
    requires IsWord(s)
    ensures Split(s) == [s]
  {
    var n := |s| - 1;
    assert s == s[..n] + [s[n]];
    if n > 0 {
      SplitWord(s[..n]);
    }
  }

  /** No token runs over the place where `x` ends and `y` begins. */
  predicate Apart(x: string, y: string) {
    EndsInSpace(x) || y == [] || IsSpace(y[0])
  }

  lemma SplitPush(s: string, c: char)
    ensures IsSpace(c) ==> Split(s + [c]) == Split(s)
    ensures !IsSpace(c) && EndsInSpace(s) ==> Split(s + [c]) == Split(s) + [[c]]
    ensures !IsSpace(c) && !EndsInSpace(s) ==>
              Split(s + [c]) == Split(s)[|Split(s)| - 1 := Split(s)[|Split(s)| - 1] + [c]]
  {
    assert (s + [c])[..|s|] == s;
  }

  lemma {:induction false} SplitJoins(x: string, y: string)
    requires Apart(x, y)
    ensures Split(x + y) == Split(x) + Split(y)
  {
    hide IsSpace;
    if y == [] {
      assert x + y == x;
    } else {
      var n := |y| - 1;
      SplitJoins(x, y[..n]);
      assert x + y == (x + y[..n]) + [y[n]] && y == y[..n] + [y[n]];
      if n == 0 {
        assert x + y[..n] == x;
        hide Split;
        SplitEmpty();
        SplitPush(x, y[n]);
        SplitPush([], y[n]);
      } else {
        assert EndsInSpace(x + y[..n]) == EndsInSpace(y[..n]);
        hide Split;
        hide EndsInSpace;
        PushedAlike(x, y[..n], y[n]);
      }
    }
  }

  /** One character more splits alike after the whole and after its second part. */
  lemma PushedAlike(x: string, y: string, c: char)
    requires Split(x + y) == Split(x) + Split(y) && EndsInSpace(x + y) == EndsInSpace(y) && y != []
    ensures Split(x + y + [c]) == Split(x) + Split(y + [c])
  {
    hide IsSpace;
    SplitPush(x + y, c);
    SplitPush(y, c);
  }

  lemma SplitSpace()
    ensures Split(" ") == [] && EndsInSpace(" ")
  {
    SplitBlank(" ");
  }

  lemma SplitEmpty()
    ensures Split([]) == []
  {
  }

  // ----- stripping ---------------------------------------------------------------------------------

  /** `str.lstrip()` */
  function LStripped(s: string): (r: string)
    ensures r != [] ==> !IsSpace(r[0])
  {
    if s != [] && IsSpace(s[0]) then LStripped(s[1..]) else s
  }

  /** `str.rstrip()` */
  function RStripped(s: string): (r: string)
    ensures r != [] ==> !IsSpace(r[|r| - 1])
    ensures r <= s
  {
    if s != [] && IsSpace(s[|s| - 1]) then RStripped(s[..|s| - 1]) else s
  }

  /** `str.strip()` */
  function Stripped(s: string): string {
    RStripped(LStripped(s))
  }

  lemma {:induction false} SplitRStripped(s: string)
    ensures Split(RStripped(s)) == Split(s)
  {
    if s != [] && IsSpace(s[|s| - 1]) {
      SplitRStripped(s[..|s| - 1]);
    }
  }

  lemma {:induction false} SplitLStripped(s: string)
    ensures Split(LStripped(s)) == Split(s)
  {
    if s != [] && IsSpace(s[0]) {
      SplitLStripped(s[1..]);
      assert s == [s[0]] + s[1..];
      SplitBlank([s[0]]);
      SplitJoins([s[0]], s[1..]);
    }
  }

  /** Stripping takes whitespace and nothing else. */
  lemma SplitStripped(s: string)
    ensures Split(Stripped(s)) == Split(s)
    ensures Stripped(s) == [] <==> Blank(s)
  {
    SplitLStripped(s);
    SplitRStripped(LStripped(s));
    SplitBlank(s);
    SplitBlank(Stripped(s));
    if Stripped(s) != [] {
      assert !IsSpace(Stripped(s)[|Stripped(s)| - 1]);
    }
  }

  // ----- collapsing --------------------------------------------------------------------------------

  /** Every run of whitespace replaced by one space: `re.sub(r"\s+", " ", s)`. */
  function Collapsed(s: string): string {
    if s == [] then []
    else
      var n := |s| - 1;
      if !IsSpace(s[n]) then Collapsed(s[..n]) + [s[n]]
      else if n > 0 && IsSpace(s[n - 1]) then Collapsed(s[..n])
      else Collapsed(s[..n]) + " "
  }

  function Joined(words: seq<string>): string {
    if words == [] then []
    else
      var n := |words| - 1;
      Joined(words[..n]) + (if n == 0 then "" else " ") + words[n]
  }

  /** Collapsing a text that starts with a word joins its words with single spaces. */
  lemma {:induction false} CollapsedIsJoined(s: string)
    requires s == [] || !IsSpace(s[0])
    ensures Collapsed(s) == Joined(Split(s)) + if EndsInSpace(s) && s != [] then " " else ""
  {
    if s != [] {
      var n := |s| - 1;
      CollapsedIsJoined(s[..n]);
      var before := Split(s[..n]);
      if !IsSpace(s[n]) {
        if EndsInSpace(s[..n]) {
          assert (before + [[s[n]]])[..|before|] == before;
          if n > 0 {
            assert s[..n][0] == s[0];
            SplitBlank(s[..n]);
          }
        } else {
          var last := before[|before| - 1] + [s[n]];
          assert before[|before| - 1 := last][..|before| - 1] == before[..|before| - 1];
        }
      }
    }
  }

  lemma SplitOneMore(front: string, word: string)
    requires IsWord(word)
    ensures Split(front + " " + word) == Split(front) + [word]
  {
    hide IsSpace;
    hide Split;
    SplitSpace();
    SplitWord(word);
    SplitJoins(front, " ");
    SplitJoins(front + " ", word);
  }

  lemma {:induction false} SplitJoined(words: seq<string>)
    requires forall i :: 0 <= i < |words| ==> IsWord(words[i])
    ensures Split(Joined(words)) == words
  {
    hide IsSpace, Split;
    if words != [] {
      var n := |words| - 1;
      SplitJoined(words[..n]);
      SplitWord(words[n]);
      if n > 0 {
        SplitOneMore(Joined(words[..n]), words[n]);
      } else {
        assert Joined(words) == words[0];
      }
      assert words == words[..n] + [words[n]];
    } else {
      SplitEmpty();
    }
  }

  /** Two texts collapse alike, once stripped, exactly when they hold the same words. */
  lemma CollapsedAlikeIff(a: string, b: string)
    ensures Collapsed(Stripped(a)) == Collapsed(Stripped(b)) <==> Split(a) == Split(b)
  {
    CollapsedIsWords(a);
    CollapsedIsWords(b);
    SplitJoined(Split(a));
    SplitJoined(Split(b));
  }

  lemma CollapsedIsWords(s: string)
    ensures Collapsed(Stripped(s)) == Joined(Split(s))
  {
    SplitStripped(s);
    var t := Stripped(s);
    if t != [] {
      assert !IsSpace(t[|t| - 1]);
      assert t <= LStripped(s) && t[0] == LStripped(s)[0];
    }
    CollapsedIsJoined(t);
  }
}
