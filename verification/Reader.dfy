/** What a problem's checker reads its three files with. `app/sandbox/runtime/checker_runtime.py` */
module CheckerReader {
  import opened Common
  import opened Text

  datatype ReadError = NoMoreValues | NoMoreLines | NotANumber(token: string) | OutOfRange(value: int) | ExtraOutput

  /** Where a number may lie. */
  datatype Range = Range(low: Option<int>, high: Option<int>)

  predicate InRange(range: Range, value: int) {
    (range.low.Some? ==> range.low.value <= value) && (range.high.Some? ==> value <= range.high.value)
  }

  /** The token is a number the checker will take. */
  predicate IsNumber(parse: string -> Option<int>, range: Range, token: string) {
    parse(token).Some? && InRange(range, parse(token).value)
  }

  /** `str.rstrip("\r")` */
  function WithoutReturns(s: string): (r: string)
    ensures r <= s && (r == [] || r[|r| - 1] != '\r')
    ensures forall i :: |r| <= i < |s| ==> s[i] == '\r'
  {
    if s != [] && s[|s| - 1] == '\r' then WithoutReturns(s[..|s| - 1]) else s
  }

  lemma {:induction false} ReturnsAreSpace(s: string)
    ensures Split(WithoutReturns(s)) == Split(s)
  {
    if s != [] && s[|s| - 1] == '\r' {
      ReturnsAreSpace(s[..|s| - 1]);
    }
  }

  /** `line` comes first in the text, and `newline` after it unless the text ends there. */
  predicate LineThen(unread: string, line: string, newline: string, rest: string) {
    && unread == line + newline + rest && '\n' !in line
    && (newline == "\n" || (newline == "" && rest == []))
  }

  /** `value` is the text's first line without the carriage returns that end it, and `rest` what follows. */
  ghost predicate IsNextLine(unread: string, value: string, rest: string) {
    exists line, newline :: LineThen(unread, line, newline, rest) && value == WithoutReturns(line)
  }

  class Reader {
    const text: string
    var pos: nat

    /** Reading always stops where no token is cut in two. A line read at the very end leaves the position one
        past it. */
    ghost predicate Valid()
      reads this
    {
      && pos <= |text| + 1
      && (pos <= |text| ==> Apart(text[..pos], text[pos..]))
    }

    function Unread(): string
      reads this
    {
      if pos <= |text| then text[pos..] else []
    }

    /** The tokens not yet read. */
    ghost function Left(): seq<string>
      reads this
    {
      Split(Unread())
    }

    constructor (text: string)
      ensures Valid() && this.text == text && pos == 0 && Left() == Split(text)
    {
      this.text, pos := text, 0;
    }

    /** The next token; an error exactly when there is none. */
    method Word() returns (r: Result<string, ReadError>)
      requires Valid()
      modifies this
      ensures Valid() && pos >= old(pos)
      ensures r.Ok? ==> old(Left()) == [r.value] + Left() && pos > old(pos)
      ensures r.Err? ==> r.error == NoMoreValues && old(Left()) == [] && Left() == []
    {
      hide IsSpace;
      hide Split;
      ghost var start := pos;
      while pos < |text| && IsSpace(text[pos])
        invariant start <= pos && (pos <= |text| || pos == start)
        invariant forall i :: start <= i < pos ==> IsSpace(text[i])
        decreases |text| - pos
      {
        pos := pos + 1;
      }
      if pos >= |text| {
        NothingAhead(text, start);
        NothingAhead(text, pos);
        return Err(NoMoreValues);
      }
      var from := pos;
      while pos < |text| && !IsSpace(text[pos])
        invariant from <= pos <= |text|
        invariant forall i :: from <= i < pos ==> !IsSpace(text[i])
        decreases |text| - pos
      {
        pos := pos + 1;
      }
      WordAhead(text, start, from, pos);
      r := Ok(text[from..pos]);
    }

    /** The next token, as a number in a range. */
    method Int(parse: string -> Option<int>, range: Range) returns (r: Result<int, ReadError>)
      requires Valid()
      modifies this
      ensures Valid() && pos >= old(pos)
      ensures r.Ok? <==> old(Left()) != [] && IsNumber(parse, range, old(Left())[0])
      ensures r.Ok? ==> parse(old(Left())[0]) == Some(r.value)
      ensures r.Ok? ==> (range.low.Some? ==> range.low.value <= r.value) && (range.high.Some? ==> r.value <= range.high.value)
      ensures r.Err? ==>
                match r.error
                case NoMoreValues => old(Left()) == []
                case NotANumber(token) => old(Left()) != [] && token == old(Left())[0] && parse(token).None?
                case OutOfRange(value) =>
                  && old(Left()) != [] && parse(old(Left())[0]) == Some(value)
                  && ((range.low.Some? && value < range.low.value) || (range.high.Some? && range.high.value < value))
                case _ => false
      ensures old(Left()) != [] ==> Left() == old(Left())[1..]
      ensures old(Left()) == [] ==> Left() == []
    {
      var token := Word();
      if token.Err? {
        return Err(token.error);
      }
      var value := parse(token.value);
      if value.None? {
        return Err(NotANumber(token.value));
      }
      if range.low.Some? && value.value < range.low.value {
        return Err(OutOfRange(value.value));
      }
      if range.high.Some? && value.value > range.high.value {
        return Err(OutOfRange(value.value));
      }
      r := Ok(value.value);
    }

    /** The next `count` tokens, as numbers: an error as soon as one is missing or will not do. */
    method Ints(count: int, parse: string -> Option<int>, range: Range) returns (r: Result<seq<int>, ReadError>)
      requires Valid()
      modifies this
      ensures Valid()
      ensures var tokens, n := old(Left()), if count > 0 then count else 0;
              && (r.Ok? <==> n <= |tokens| && forall i :: 0 <= i < n ==> IsNumber(parse, range, tokens[i]))
              && (r.Ok? ==> |r.value| == n && Left() == tokens[n..])
              && (r.Ok? ==> forall i :: 0 <= i < n ==> parse(tokens[i]) == Some(r.value[i]))
    {
      hide IsSpace;
      hide Split;
      hide IsNumber;
      hide Unread;
      var values := [];
      ghost var tokens := Left();
      var i := 0;
      while i < count
        invariant 0 <= i && (count >= 0 ==> i <= count) && (count < 0 ==> i == 0)
        invariant Valid() && i == |values| <= |tokens| && Left() == tokens[i..]
        invariant forall k :: 0 <= k < i ==> IsNumber(parse, range, tokens[k]) && parse(tokens[k]) == Some(values[k])
      {
        assert i < |tokens| ==> tokens[i..][0] == tokens[i] && tokens[i..][1..] == tokens[i + 1..];
        var value := Int(parse, range);
        if value.Err? {
          return Err(value.error);
        }
        values := values + [value.value];
        i := i + 1;
      }
      r := Ok(values);
    }

    /** `str.find` of the next newline, or the end of the text. */
    method LineEnd() returns (end: nat)
      requires pos <= |text|
      ensures pos <= end <= |text| && (end < |text| ==> text[end] == '\n')
      ensures forall i :: pos <= i < end ==> text[i] != '\n'
    {
      end := pos;
      while end < |text| && text[end] != '\n'
        invariant pos <= end <= |text| && forall i :: pos <= i < end ==> text[i] != '\n'
        decreases |text| - end
      {
        end := end + 1;
      }
    }

    /** What is left before the next line break; the reader's next tokens are spent with it. */
    method Line() returns (r: Result<string, ReadError>)
      requires Valid()
      modifies this
      ensures Valid() && (r.Ok? <==> old(Unread()) != [])
      ensures r.Err? ==> r.error == NoMoreLines && pos == old(pos)
      ensures r.Ok? ==> old(Left()) == Split(r.value) + Left()
      ensures r.Ok? ==> IsNextLine(old(Unread()), r.value, Unread())
    {
      hide IsSpace;
      hide Split;
      hide IsNextLine;
      hide WithoutReturns;
      if pos >= |text| {
        return Err(NoMoreLines);
      }
      var end := LineEnd();
      LineAhead(text, pos, end);
      r := Ok(WithoutReturns(text[pos..end]));
      pos := end + 1;
    }

    /** Everything not yet read. */
    method Rest() returns (rest: string)
      requires Valid()
      modifies this
      ensures Valid() && rest == old(Unread()) && Unread() == []
    {
      rest := Unread();
      pos := |text|;
    }

    /** Asserts that no token is left. */
    method Eof() returns (r: Result<(), ReadError>)
      requires Valid()
      ensures r == if Left() == [] then Ok(()) else Err(ExtraOutput)
    {
      SplitStripped(Unread());
      SplitBlank(Unread());
      if Stripped(Unread()) != [] {
        return Err(ExtraOutput);
      }
      r := Ok(());
    }

    method AtEof() returns (atEnd: bool)
      requires Valid()
      ensures atEnd <==> Left() == []
    {
      SplitStripped(Unread());
      SplitBlank(Unread());
      atEnd := Stripped(Unread()) == [];
    }
  }

  /** From `start` to `end` one line, then its newline or the end of the text. */
  lemma LineAhead(text: string, start: nat, end: nat)
    requires start <= end <= |text| && (end < |text| ==> text[end] == '\n')
    requires forall i :: start <= i < end ==> text[i] != '\n'
    ensures var value, rest := WithoutReturns(text[start..end]), if end < |text| then text[end + 1..] else [];
            IsNextLine(text[start..], value, rest) && Split(text[start..]) == Split(value) + Split(rest)
    ensures end < |text| ==> Apart(text[..end + 1], text[end + 1..])
  {
    var line, rest := text[start..end], if end < |text| then text[end + 1..] else [];
    var newline := if end < |text| then "\n" else "";
    assert LineThen(text[start..], line, newline, rest);
    ReturnsAreSpace(line);
    NewlineSeparates(line, newline, rest);
  }

  lemma NothingAhead(text: string, start: nat)
    requires forall i :: start <= i < |text| ==> IsSpace(text[i])
    ensures Split(if start <= |text| then text[start..] else []) == []
  {
    SplitBlank(if start <= |text| then text[start..] else []);
  }

  /** White space from `start`, then one whole token from `from` to `end`. */
  lemma WordAhead(text: string, start: nat, from: nat, end: nat)
    requires start <= from < end <= |text|
    requires forall i :: start <= i < from ==> IsSpace(text[i])
    requires forall i :: from <= i < end ==> !IsSpace(text[i])
    requires end < |text| ==> IsSpace(text[end])
    ensures Split(text[start..]) == [text[from..end]] + Split(text[end..])
    ensures Apart(text[..end], text[end..])
  {
    var gap, word, rest := text[start..from], text[from..end], text[end..];
    assert text[start..] == gap + (word + rest);
    assert Apart(gap, word + rest) && Apart(word, rest);
    assert IsWord(word) && Blank(gap);
    hide IsSpace;
    hide Split;
    SplitBlank(gap);
    SplitWord(word);
    SplitJoins(gap, word + rest);
    SplitJoins(word, rest);
  }

  lemma NewlineSeparates(line: string, newline: string, rest: string)
    requires newline == "\n" || (newline == "" && rest == [])
    ensures Split(line + newline + rest) == Split(line) + Split(rest)
  {
    if newline == "\n" {
      SplitBlank(newline);
      SplitJoins(line, newline);
      SplitJoins(line + newline, rest);
    } else {
      assert line + newline + rest == line;
    }
  }

  /** Reading words until the end gives the text's tokens: all of them, once, in order. */
  method ReadAll(text: string) returns (words: seq<string>)
    ensures words == Split(text)
  {
    hide IsSpace;
    hide Split;
    var reader := new Reader(text);
    words := [];
    var done := reader.AtEof();
    while !done
      invariant reader.Valid() && done == (reader.Left() == [])
      invariant words + reader.Left() == Split(text)
      decreases |reader.Left()|
    {
      ghost var left := reader.Left();
      var word := reader.Word();
      assert words + left == (words + [word.value]) + reader.Left();
      words := words + [word.value];
      done := reader.AtEof();
    }
  }
}
