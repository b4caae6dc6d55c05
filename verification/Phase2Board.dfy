/** The Phase 2 leaderboard, computed on every read. `coding/scoring.py` */
module Phase2Board {
  import opened Common
  import opened Sorting
  import P1 = Phase1Board

  /** A current acceptance of a question its author still owns. */
  datatype Ac = Ac(who: Pid, question: Qid, at: Time, awarded: Time)

  datatype Person = Person(pid: Pid, name: string)

  datatype Row = Row(who: Pid, name: string, score: int, solved: nat, time: int, phase1: Option<nat>, rank: nat)

  /** Points for a question, and the time its solve took. */
  datatype Solve = Solve(score: int, ms: int)

  function SolveMs(ac: Ac): int {
    ac.at - ac.awarded
  }

  predicate Solves(ac: Ac, who: Pid, q: Qid) {
    ac.who == who && ac.question == q
  }

  // ----- what the fold should find -----------------------------------------------------------------------

  /** A participant's earliest solve of a question. */
  function Earliest(acs: seq<Ac>, who: Pid, q: Qid): (ms: Option<int>)
    ensures ms.None? ==> forall ac :: ac in acs ==> !Solves(ac, who, q)
    ensures ms.Some? ==> exists ac :: ac in acs && Solves(ac, who, q) && SolveMs(ac) == ms.value
    ensures ms.Some? ==> forall ac :: ac in acs && Solves(ac, who, q) ==> ms.value <= SolveMs(ac)
  {
    if acs == [] then None
    else
      var n := |acs| - 1;
      assert acs == acs[..n] + [acs[n]];
      var before := Earliest(acs[..n], who, q);
      if Solves(acs[n], who, q) && (before.None? || SolveMs(acs[n]) < before.value) then Some(SolveMs(acs[n]))
      else before
  }

  function SolvedBy(acs: seq<Ac>, who: Pid): set<Qid> {
    set ac | ac in acs && ac.who == who :: ac.question
  }

  function MsOn(acs: seq<Ac>, who: Pid): Qid -> int {
    (q: Qid) => if Earliest(acs, who, q).Some? then Earliest(acs, who, q).value else 0
  }

  ghost function SumOver(s: set<Qid>, f: Qid -> int): int {
    if s == {} then 0
    else
      var q :| q in s;
      f(q) + SumOver(s - {q}, f)
  }

  ghost function RowOf(p: Person, acs: seq<Ac>, worth: Qid -> int, phase1: map<Pid, nat>): Row {
    var solved := SolvedBy(acs, p.pid);
    Row(p.pid, p.name, SumOver(solved, worth), |solved|, SumOver(solved, MsOn(acs, p.pid)),
        if p.pid in phase1 then Some(phase1[p.pid]) else None, 0)
  }

  ghost function RowsOf(people: seq<Person>, acs: seq<Ac>, worth: Qid -> int, phase1: map<Pid, nat>): (rows: seq<Row>)
    ensures |rows| == |people|
    ensures forall i :: 0 <= i < |people| ==> rows[i] == RowOf(people[i], acs, worth, phase1)
  {
    seq(|people|, i requires 0 <= i < |people| => RowOf(people[i], acs, worth, phase1))
  }

  /** What breaks ties: score, then time, then Phase 1 rank. */
  function TieKey(r: Row): Key {
    [0 - r.score, r.time] + if r.phase1.Some? then [0, r.phase1.value] else [1, 0]
  }

  function RowKey(r: Row): Key {
    TieKey(r) + P1.NameKey(r.name)
  }

  predicate Better(a: Row, b: Row) {
    Less(TieKey(a), TieKey(b))
  }

  function BetterThan(rows: seq<Row>, r: Row): nat {
    if rows == [] then 0
    else
      var n := |rows| - 1;
      BetterThan(rows[..n], r) + if Better(rows[n], r) then 1 else 0
  }

  /** A rank is one more than the number of rows strictly better. */
  function WithRanks(rows: seq<Row>): (ranked: seq<Row>)
    ensures |ranked| == |rows|
    ensures forall i :: 0 <= i < |rows| ==> ranked[i] == rows[i].(rank := 1 + BetterThan(rows, rows[i]))
  {
    seq(|rows|, i requires 0 <= i < |rows| => rows[i].(rank := 1 + BetterThan(rows, rows[i])))
  }

  ghost function Board(people: seq<Person>, acs: seq<Ac>, worth: Qid -> int, phase1: map<Pid, nat>): seq<Row> {
    WithRanks(SortBy(RowKey, RowsOf(people, acs, worth, phase1)))
  }

  /** Better by the rulebook: a higher score, then less time, then a better Phase 1 rank. */
  lemma BetterMeans(a: Row, b: Row)
    ensures Better(a, b) <==>
              || a.score > b.score
              || (a.score == b.score && a.time < b.time)
              || (a.score == b.score && a.time == b.time && a.phase1.Some?
                  && (b.phase1.None? || a.phase1.value < b.phase1.value))
    ensures TieKey(a) == TieKey(b) <==> a.score == b.score && a.time == b.time && a.phase1 == b.phase1
  {
    var x := if a.phase1.Some? then [0, a.phase1.value as int] else [1, 0];
    var y := if b.phase1.Some? then [0, b.phase1.value as int] else [1, 0];
    var s, t := [0 - a.score, a.time], [0 - b.score, b.time];
    LessByParts(s, t, x, y);
    LessOfPairs(s, t);
    LessOfPairs(x, y);
    assert TieKey(a)[..2] == s && TieKey(a)[2..] == x && TieKey(b)[..2] == t && TieKey(b)[2..] == y;
  }

  lemma LessOfPairs(a: Key, b: Key)
    requires |a| == |b| == 2
    ensures Less(a, b) <==> a[0] < b[0] || (a[0] == b[0] && a[1] < b[1])
    ensures a == b <==> a[0] == b[0] && a[1] == b[1]
  {
    var x, y := a[1..], b[1..];
    assert x[0] == a[1] && y[0] == b[1] && x[1..] == [] && y[1..] == [];
    assert !Less(x[1..], y[1..]);
  }

  // ----- sums do not depend on an order --------------------------------------------------------------------

  lemma {:induction false} SumPick(s: set<Qid>, f: Qid -> int, q: Qid)
    requires q in s
    ensures SumOver(s, f) == f(q) + SumOver(s - {q}, f)
    decreases |s|
  {
    var first :| first in s && SumOver(s, f) == f(first) + SumOver(s - {first}, f);
    if first != q {
      SumPick(s - {first}, f, q);
      SumPick(s - {q}, f, first);
      assert s - {first} - {q} == s - {q} - {first};
    }
  }

  lemma {:induction false} SumAgrees(s: set<Qid>, f: Qid -> int, g: Qid -> int)
    requires forall q :: q in s ==> f(q) == g(q)
    ensures SumOver(s, f) == SumOver(s, g)
    decreases |s|
  {
    if s != {} {
      var q :| q in s;
      SumPick(s, f, q);
      SumPick(s, g, q);
      SumAgrees(s - {q}, f, g);
    }
  }

  /** Nobody's line depends on the order their acceptances were read in. */
  lemma LineIsOrderFree(p: Person, acs: seq<Ac>, other: seq<Ac>, worth: Qid -> int, phase1: map<Pid, nat>)
    requires multiset(acs) == multiset(other)
    ensures RowOf(p, acs, worth, phase1) == RowOf(p, other, worth, phase1)
  {
    SameBagSameElements(acs, other);
    assert SolvedBy(acs, p.pid) == SolvedBy(other, p.pid);
    forall q | q in SolvedBy(acs, p.pid)
      ensures MsOn(acs, p.pid)(q) == MsOn(other, p.pid)(q)
    {
      EarliestIsOrderFree(acs, other, p.pid, q);
    }
    SumAgrees(SolvedBy(acs, p.pid), MsOn(acs, p.pid), MsOn(other, p.pid));
  }

  lemma EarliestIsOrderFree(acs: seq<Ac>, other: seq<Ac>, who: Pid, q: Qid)
    requires forall ac :: ac in acs <==> ac in other
    ensures Earliest(acs, who, q) == Earliest(other, who, q)
  {
  }

  // ----- the whole board ----------------------------------------------------------------------------------

  /** Everybody on the board has a Phase 1 rank of their own. */
  ghost predicate RankedApart(people: seq<Person>, phase1: map<Pid, nat>) {
    && (forall p :: p in people ==> p.pid in phase1)
    && forall i, j :: 0 <= i < j < |people| ==> phase1[people[i].pid] != phase1[people[j].pid]
  }

  lemma ApartKeys(rows: seq<Row>)
    requires forall i, j :: 0 <= i < j < |rows| ==> rows[i].phase1 != rows[j].phase1
    ensures DistinctKeys(RowKey, rows) && DistinctKeys(TieKey, rows)
  {
    forall i, j | 0 <= i < j < |rows|
      ensures RowKey(rows[i]) != RowKey(rows[j]) && TieKey(rows[i]) != TieKey(rows[j])
    {
      BetterMeans(rows[i], rows[j]);
      assert RowKey(rows[i])[..4] == TieKey(rows[i]) && RowKey(rows[j])[..4] == TieKey(rows[j]);
    }
  }

  /** Read the people and the acceptances in any other order: the board is the same. */
  lemma BoardIsOrderFree(people: seq<Person>, otherPeople: seq<Person>, acs: seq<Ac>, otherAcs: seq<Ac>,
                         worth: Qid -> int, phase1: map<Pid, nat>)
    requires multiset(people) == multiset(otherPeople) && multiset(acs) == multiset(otherAcs)
    requires RankedApart(people, phase1)
    ensures Board(people, acs, worth, phase1) == Board(otherPeople, otherAcs, worth, phase1)
  {
    var rows, others := RowsOf(people, acs, worth, phase1), RowsOf(otherPeople, otherAcs, worth, phase1);
    forall p
      ensures RowOf(p, acs, worth, phase1) == RowOf(p, otherAcs, worth, phase1)
    {
      LineIsOrderFree(p, acs, otherAcs, worth, phase1);
    }
    assert others == RowsOf(otherPeople, acs, worth, phase1);
    RowsOfBag(people, otherPeople, acs, worth, phase1);
    ApartKeys(rows);
    DistinctInAnyOrder(RowKey, rows, others);
    AnyOrderSortsAlike(RowKey, rows, others);
  }

  lemma RowsOfBag(people: seq<Person>, others: seq<Person>, acs: seq<Ac>, worth: Qid -> int, phase1: map<Pid, nat>)
    requires multiset(people) == multiset(others)
    ensures multiset(RowsOf(people, acs, worth, phase1)) == multiset(RowsOf(others, acs, worth, phase1))
  {
    ghost var line := (p: Person) => RowOf(p, acs, worth, phase1);
    MappedBag(line, people, others);
    assert RowsOf(people, acs, worth, phase1) == Mapped(line, people);
    assert RowsOf(others, acs, worth, phase1) == Mapped(line, others);
  }

  // ----- ranks ---------------------------------------------------------------------------------------------

  lemma {:induction false} CountIsPosition(rows: seq<Row>, r: Row, n: nat, i: nat)
    requires i <= n <= |rows|
    requires forall j :: 0 <= j < n ==> (Better(rows[j], r) <==> j < i)
    ensures BetterThan(rows[..n], r) == i
  {
    if n > 0 {
      assert rows[..n][..n - 1] == rows[..n - 1];
      CountIsPosition(rows, r, n - 1, if i < n then i else n - 1);
    }
  }

  lemma SortedTies(rows: seq<Row>, i: nat, j: nat)
    requires Sorted(RowKey, rows) && i < j < |rows|
    ensures !Better(rows[j], rows[i])
  {
    LessByParts(TieKey(rows[j]), TieKey(rows[i]), P1.NameKey(rows[j].name), P1.NameKey(rows[i].name));
  }

  /** In a sorted board, a row that ties with none above it is beaten by exactly those above it. */
  lemma FirstOfItsTie(rows: seq<Row>, i: nat)
    requires Sorted(RowKey, rows) && i < |rows| && (i > 0 ==> TieKey(rows[i - 1]) != TieKey(rows[i]))
    ensures BetterThan(rows, rows[i]) == i
  {
    hide Less;
    hide TieKey;
    hide RowKey;
    hide Sorted;
    hide BetterThan;
    forall j | 0 <= j < |rows|
      ensures Better(rows[j], rows[i]) <==> j < i
    {
      if j < i {
        SortedTies(rows, i - 1, i);
        LessIsTotal(TieKey(rows[i - 1]), TieKey(rows[i]));
        if j < i - 1 {
          SortedTies(rows, j, i - 1);
          LessIsTransitive(TieKey(rows[j]), TieKey(rows[i - 1]), TieKey(rows[i]));
        }
      } else if i < j {
        SortedTies(rows, i, j);
      } else {
        LessIsTotal(TieKey(rows[i]), TieKey(rows[i]));
      }
    }
    assert rows[..|rows|] == rows;
    CountIsPosition(rows, rows[i], |rows|, i);
  }

  lemma {:induction false} SameTieSameCount(rows: seq<Row>, a: Row, b: Row)
    requires TieKey(a) == TieKey(b)
    ensures BetterThan(rows, a) == BetterThan(rows, b)
  {
    if rows != [] {
      SameTieSameCount(rows[..|rows| - 1], a, b);
    }
  }

  /** Ranks sorted rows in place by looking only at neighbours, and gets the ranks that counting gives. */
  method AssignRanks(rows: array<Row>)
    requires Sorted(RowKey, rows[..])
    modifies rows
    ensures rows[..] == WithRanks(old(rows[..]))
  {
    hide BetterThan;
    ghost var was := rows[..];
    var i := 0;
    while i < rows.Length
      invariant 0 <= i <= rows.Length == |was|
      invariant forall k :: 0 <= k < i ==> rows[k] == was[k].(rank := 1 + BetterThan(was, was[k]))
      invariant forall k :: i <= k < rows.Length ==> rows[k] == was[k]
    {
      var r := rows[i];
      if i > 0 && rows[i - 1].score == r.score && rows[i - 1].time == r.time && rows[i - 1].phase1 == r.phase1 {
        SameTieSameCount(was, was[i - 1], was[i]);
        rows[i] := r.(rank := rows[i - 1].rank);
      } else {
        if i > 0 {
          BetterMeans(was[i - 1], was[i]);
        }
        FirstOfItsTie(was, i);
        rows[i] := r.(rank := i + 1);
      }
      i := i + 1;
    }
  }

  /** Ranks are exactly 1 to n, in order, if and only if no two lines are equal in everything that breaks ties. */
  lemma RanksAreOneToNIff(people: seq<Person>, acs: seq<Ac>, worth: Qid -> int, phase1: map<Pid, nat>)
    ensures var board := Board(people, acs, worth, phase1);
            |board| == |people|
            && ((forall i :: 0 <= i < |board| ==> board[i].rank == i + 1) <==>
                  DistinctKeys(TieKey, RowsOf(people, acs, worth, phase1)))
  {
    var rows, board := RowsOf(people, acs, worth, phase1), Board(people, acs, worth, phase1);
    var sorted := SortBy(RowKey, rows);
    SortBySorts(RowKey, rows);
    hide SortBy;
    hide Less;
    hide RowKey;
    hide RowOf;
    hide TieKey;
    hide RowsOf;
    if DistinctKeys(TieKey, rows) {
      DistinctInAnyOrder(TieKey, rows, sorted);
      forall i | 0 <= i < |sorted|
        ensures BetterThan(sorted, sorted[i]) == i
      {
        FirstOfItsTie(sorted, i);
      }
    }
    if forall i :: 0 <= i < |board| ==> board[i].rank == i + 1 {
      forall i, j | 0 <= i < j < |sorted|
        ensures TieKey(sorted[i]) != TieKey(sorted[j])
      {
        if TieKey(sorted[i]) == TieKey(sorted[j]) {
          SameTieSameCount(sorted, sorted[i], sorted[j]);
        }
      }
      DistinctInAnyOrder(TieKey, sorted, rows);
    }
  }

  /** With Phase 1 ranks all different, Phase 2 ranks are exactly 1 to n, in order. */
  lemma RanksAreOneToN(people: seq<Person>, acs: seq<Ac>, worth: Qid -> int, phase1: map<Pid, nat>)
    requires RankedApart(people, phase1)
    ensures var board := Board(people, acs, worth, phase1);
            |board| == |people| && forall i :: 0 <= i < |board| ==> board[i].rank == i + 1
  {
    ApartKeys(RowsOf(people, acs, worth, phase1));
    RanksAreOneToNIff(people, acs, worth, phase1);
  }
}
