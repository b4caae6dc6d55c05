/** The Phase 1 leaderboard. `phase1/standings.py` */
module Phase1Board {
  import opened Common
  import opened Sorting
  import Validation

  /** An answer that counts on the board. `failed`: its validator could not run. */
  datatype Answered = Answered(
    who: Pid,
    auto: Option<int>,
    manual: Option<int>,
    explain: Option<int>,
    grading: Validation.Grading,
    explainPoints: int,
    failed: bool)

  datatype Person = Person(
    pid: Pid,
    name: string,
    disqualified: bool,
    puzzlesDone: Option<Time>,
    hackingDone: Option<Time>)

  /** A line of the leaderboard. Rank 0 is no rank. */
  datatype Row = Row(
    who: Pid,
    name: string,
    points: int,
    provisional: bool,
    finished: Option<Time>,
    disqualified: bool,
    rank: nat)

  function OrZero(x: Option<int>): int {
    if x.Some? then x.value else 0
  }

  function AnswerScore(a: Answered): int {
    OrZero(a.auto) + OrZero(a.manual) + OrZero(a.explain)
  }

  /** Some part of its score may still change. */
  predicate AnswerPending(a: Answered) {
    || (a.grading == Validation.Manual && a.manual.None?)
    || (a.explainPoints > 0 && a.explain.None?)
    || (a.grading == Validation.ByValidator && a.failed)
  }

  function PointsOf(answers: seq<Answered>, who: Pid): int {
    if answers == [] then 0
    else
      var n := |answers| - 1;
      PointsOf(answers[..n], who) + if answers[n].who == who then AnswerScore(answers[n]) else 0
  }

  predicate Provisional(answers: seq<Answered>, who: Pid) {
    exists i :: 0 <= i < |answers| && answers[i].who == who && AnswerPending(answers[i])
  }

  predicate HasAnswer(answers: seq<Answered>, who: Pid) {
    exists i :: 0 <= i < |answers| && answers[i].who == who
  }

  /** When both sections were finished: the maximum over the presses that were made. */
  function FinishedAt(p: Person): Option<Time> {
    if p.puzzlesDone.None? then p.hackingDone
    else if p.hackingDone.None? then p.puzzlesDone
    else if p.puzzlesDone.value < p.hackingDone.value then p.hackingDone
    else p.puzzlesDone
  }

  function RowOf(p: Person, answers: seq<Answered>, hacks: map<Pid, int>): Row {
    var hacked := if p.pid in hacks then hacks[p.pid] else 0;
    Row(p.pid, p.name, PointsOf(answers, p.pid) + hacked, Provisional(answers, p.pid), FinishedAt(p), p.disqualified, 0)
  }

  function NameKey(name: string): Key {
    seq(|name|, i requires 0 <= i < |name| => name[i] as int)
  }

  /** Most points first, then the earlier finish, never having pressed it last; then the name. */
  function RowKey(r: Row): Key {
    [0 - r.points] + (if r.finished.Some? then [0, r.finished.value] else [1, 0]) + NameKey(r.name)
  }

  /** The participants who are ranked, or those who are not. */
  function RowsOf(people: seq<Person>, answers: seq<Answered>, hacks: map<Pid, int>, disqualified: bool): seq<Row> {
    if people == [] then []
    else
      var n := |people| - 1;
      RowsOf(people[..n], answers, hacks, disqualified)
      + if people[n].disqualified == disqualified then [RowOf(people[n], answers, hacks)] else []
  }

  function Numbered(rows: seq<Row>): (ranked: seq<Row>)
    ensures |ranked| == |rows|
    ensures forall i :: 0 <= i < |rows| ==> ranked[i] == rows[i].(rank := i + 1)
  {
    seq(|rows|, i requires 0 <= i < |rows| => rows[i].(rank := i + 1))
  }

  function Ranked(people: seq<Person>, answers: seq<Answered>, hacks: map<Pid, int>): seq<Row> {
    Numbered(SortBy(RowKey, RowsOf(people, answers, hacks, false)))
  }

  /** The whole board: the ranked, then the disqualified as they were read. */
  function Board(people: seq<Person>, answers: seq<Answered>, hacks: map<Pid, int>): seq<Row> {
    Ranked(people, answers, hacks) + RowsOf(people, answers, hacks, true)
  }

  // ----- computing it ----------------------------------------------------------------------------------

  /** Each participant's answer points, and whether any of them is provisional. */
  method AnswerPoints(answers: seq<Answered>) returns (totals: map<Pid, (int, bool)>)
    ensures forall who :: who in totals <==> HasAnswer(answers, who)
    ensures forall who :: who in totals ==> totals[who] == (PointsOf(answers, who), Provisional(answers, who))
    ensures forall who :: who !in totals ==> PointsOf(answers, who) == 0 && !Provisional(answers, who)
  {
    totals := map[];
    var i := 0;
    while i < |answers|
      invariant 0 <= i <= |answers|
      invariant forall who {:trigger who in totals} {:trigger HasAnswer(answers[..i], who)} ::
                  who in totals <==> HasAnswer(answers[..i], who)
      invariant forall who :: who in totals ==>
                  totals[who] == (PointsOf(answers[..i], who), Provisional(answers[..i], who))
      invariant forall who :: who !in totals ==> PointsOf(answers[..i], who) == 0 && !Provisional(answers[..i], who)
    {
      var a := answers[i];
      var entry := if a.who in totals then totals[a.who] else (0, false);
      OneMoreAnswer(answers, i);
      totals := totals[a.who := (entry.0 + AnswerScore(a), entry.1 || AnswerPending(a))];
      i := i + 1;
    }
    assert answers[..i] == answers;
  }

  lemma OneMoreAnswer(answers: seq<Answered>, i: nat)
    requires i < |answers|
    ensures var a, before, after := answers[i], answers[..i], answers[..i + 1];
            forall who ::
              && HasAnswer(after, who) == (HasAnswer(before, who) || a.who == who)
              && PointsOf(after, who) == PointsOf(before, who) + (if a.who == who then AnswerScore(a) else 0)
              && Provisional(after, who) == (Provisional(before, who) || (a.who == who && AnswerPending(a)))
  {
    var a, before, after := answers[i], answers[..i], answers[..i + 1];
    assert after == before + [a] && after[..i] == before;
    forall who
      ensures HasAnswer(after, who) == (HasAnswer(before, who) || a.who == who)
      ensures Provisional(after, who) == (Provisional(before, who) || (a.who == who && AnswerPending(a)))
    {
      assert after[i] == a;
      if k :| 0 <= k < i && before[k].who == who {
        assert after[k].who == who;
      }
      if k :| 0 <= k < i && before[k].who == who && AnswerPending(before[k]) {
        assert after[k].who == who && AnswerPending(after[k]);
      }
    }
  }

  /** Number the sorted rows from one. */
  method NumberRows(rows: seq<Row>) returns (ranked: seq<Row>)
    ensures ranked == Numbered(rows)
  {
    ranked := rows;
    var i := 0;
    while i < |ranked|
      invariant 0 <= i <= |ranked| == |rows|
      invariant forall k :: 0 <= k < |ranked| ==> ranked[k] == if k < i then rows[k].(rank := k + 1) else rows[k]
    {
      ranked := ranked[i := ranked[i].(rank := i + 1)];
      i := i + 1;
    }
  }

  method Standings(people: seq<Person>, answers: seq<Answered>, hacks: map<Pid, int>) returns (board: seq<Row>)
    ensures board == Board(people, answers, hacks)
  {
    hide PointsOf;
    hide Provisional;
    hide FinishedAt;
    hide SortBy;
    var totals := AnswerPoints(answers);
    var eligible, disqualified := [], [];
    var i := 0;
    while i < |people|
      invariant 0 <= i <= |people|
      invariant eligible == RowsOf(people[..i], answers, hacks, false)
      invariant disqualified == RowsOf(people[..i], answers, hacks, true)
    {
      var p := people[i];
      var total := if p.pid in totals then totals[p.pid] else (0, false);
      var hacked := if p.pid in hacks then hacks[p.pid] else 0;
      var row := Row(p.pid, p.name, total.0 + hacked, total.1, FinishedAt(p), p.disqualified, 0);
      assert people[..i + 1][..i] == people[..i];
      if p.disqualified {
        disqualified := disqualified + [row];
      } else {
        eligible := eligible + [row];
      }
      i := i + 1;
    }
    assert people[..i] == people;
    var ranked := NumberRows(SortBy(RowKey, eligible));
    board := ranked + disqualified;
  }

  // ----- what the board promises -------------------------------------------------------------------------

  /** `a` finished no later than `b`, who may never have. */
  predicate NoLater(a: Option<Time>, b: Option<Time>) {
    b.None? || (a.Some? && a.value <= b.value)
  }

  /** `a` is ahead of `b` on points, or on the finish when the points are equal. */
  predicate Ahead(a: Row, b: Row) {
    a.points > b.points || (a.points == b.points && NoLater(a.finished, b.finished) && a.finished != b.finished)
  }

  lemma KeyMeans(a: Row, b: Row)
    ensures Ahead(a, b) ==> Less(RowKey(a), RowKey(b))
    ensures RowKey(a) == RowKey(b) <==> a.points == b.points && a.finished == b.finished && NameKey(a.name) == NameKey(b.name)
  {
    var x := [0 - a.points] + if a.finished.Some? then [0, a.finished.value] else [1, 0];
    var y := [0 - b.points] + if b.finished.Some? then [0, b.finished.value] else [1, 0];
    LessByParts(x, y, NameKey(a.name), NameKey(b.name));
    assert x[0] == 0 - a.points && y[0] == 0 - b.points;
    assert x[1..] == if a.finished.Some? then [0, a.finished.value] else [1, 0];
    assert y[1..] == if b.finished.Some? then [0, b.finished.value] else [1, 0];
    assert RowKey(a)[..3] == x && RowKey(a)[3..] == NameKey(a.name);
    assert RowKey(b)[..3] == y && RowKey(b)[3..] == NameKey(b.name);
  }

  /** Nobody is ranked below somebody they are ahead of; and the ranks are 1 to n, one each. */
  lemma RanksFollowTheRule(people: seq<Person>, answers: seq<Answered>, hacks: map<Pid, int>)
    ensures var ranked := Ranked(people, answers, hacks);
            && (forall i :: 0 <= i < |ranked| ==> ranked[i].rank == i + 1)
            && forall i, j :: 0 <= i < |ranked| && 0 <= j < |ranked| && Ahead(ranked[i], ranked[j]) ==>
                 ranked[i].rank < ranked[j].rank
  {
    var rows := RowsOf(people, answers, hacks, false);
    var sorted, ranked := SortBy(RowKey, rows), Ranked(people, answers, hacks);
    SortBySorts(RowKey, rows);
    hide SortBy;
    hide RowsOf;
    hide Less;
    hide Ahead;
    forall i, j | 0 <= i < |ranked| && 0 <= j < |ranked| && Ahead(ranked[i], ranked[j])
      ensures i < j
    {
      assert RowKey(ranked[i]) == RowKey(sorted[i]) && RowKey(ranked[j]) == RowKey(sorted[j]);
      KeyMeans(ranked[i], ranked[j]);
      LessIsTotal(RowKey(ranked[i]), RowKey(ranked[j]));
    }
  }

  // ----- whether the order read shows ---------------------------------------------------------------------

  /** Two people tie on everything the board sorts by. */
  predicate Tied(a: Row, b: Row) {
    a.points == b.points && a.finished == b.finished && NameKey(a.name) == NameKey(b.name)
  }

  ghost predicate NoTies(rows: seq<Row>) {
    forall i, j :: 0 <= i < j < |rows| ==> !Tied(rows[i], rows[j])
  }

  /** The ranking is the same whatever order the rows are read in, if and only if no two of them tie on points,
      finish and name. */
  lemma OrderShowsOnlyInTies(rows: seq<Row>)
    requires forall i, j :: 0 <= i < j < |rows| ==> rows[i].who != rows[j].who
    ensures (forall other: seq<Row> :: multiset(other) == multiset(rows) ==> SortBy(RowKey, other) == SortBy(RowKey, rows))
            <==> NoTies(rows)
  {
    forall i, j | 0 <= i < |rows| && 0 <= j < |rows|
      ensures Tied(rows[i], rows[j]) <==> RowKey(rows[i]) == RowKey(rows[j])
    {
      KeyMeans(rows[i], rows[j]);
    }
    if NoTies(rows) {
      forall other: seq<Row> | multiset(other) == multiset(rows)
        ensures SortBy(RowKey, other) == SortBy(RowKey, rows)
      {
        DistinctInAnyOrder(RowKey, rows, other);
        AnyOrderSortsAlike(RowKey, rows, other);
      }
    } else {
      var i, j :| 0 <= i < j < |rows| && Tied(rows[i], rows[j]);
      assert forall a, b :: 0 <= a < b < |rows| ==> rows[a] != rows[b];
      var other := TiedElementsShowTheOrder(RowKey, rows, i, j);
    }
  }
}
