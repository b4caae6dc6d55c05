/** Whether the order rows are read in shows on the Phase 2 board, whose last ties are broken by Phase 1 ranks
    worked out from the same read. */
module ReadOrder {
  import opened Common
  import opened Sorting
  import opened BothBoards
  import P1 = Phase1Board
  import P2 = Phase2Board

  // ----- Phase 1 lines ---------------------------------------------------------------------------------

  lemma {:induction false} PointsOfParts(a: seq<P1.Answered>, b: seq<P1.Answered>, who: Pid)
    ensures P1.PointsOf(a + b, who) == P1.PointsOf(a, who) + P1.PointsOf(b, who)
  {
    if b == [] {
      assert a + b == a;
    } else {
      var n := |b| - 1;
      assert (a + b)[..|a| + n] == a + b[..n];
      PointsOfParts(a, b[..n], who);
    }
  }

  lemma {:induction false} PointsOfBag(answers: seq<P1.Answered>, others: seq<P1.Answered>, who: Pid)
    requires multiset(answers) == multiset(others)
    ensures P1.PointsOf(answers, who) == P1.PointsOf(others, who)
    decreases |answers|
  {
    if answers == [] {
      assert |multiset(others)| == |others|;
    } else {
      var n := |answers| - 1;
      SameBagSameElements(answers, others);
      assert answers[n] in answers;
      var k :| 0 <= k < |others| && others[k] == answers[n];
      WithoutOne(answers, others, k);
      PointsOfBag(answers[..n], others[..k] + others[k + 1..], who);
      assert others == others[..k] + ([others[k]] + others[k + 1..]);
      PointsOfParts(others[..k], [others[k]] + others[k + 1..], who);
      PointsOfParts([others[k]], others[k + 1..], who);
      PointsOfParts(others[..k], others[k + 1..], who);
    }
  }

  lemma PendingInAnyOrder(answers: seq<P1.Answered>, others: seq<P1.Answered>, who: Pid)
    requires forall a :: a in answers <==> a in others
    ensures P1.Provisional(answers, who) ==> P1.Provisional(others, who)
  {
    if P1.Provisional(answers, who) {
      var i :| 0 <= i < |answers| && answers[i].who == who && P1.AnswerPending(answers[i]);
      assert answers[i] in others;
    }
  }

  /** Nobody's Phase 1 line depends on the order the answers were read in. */
  lemma FirstLineIsOrderFree(p: P1.Person, answers: seq<P1.Answered>, others: seq<P1.Answered>, hacks: map<Pid, int>)
    requires multiset(answers) == multiset(others)
    ensures P1.RowOf(p, answers, hacks) == P1.RowOf(p, others, hacks)
  {
    PointsOfBag(answers, others, p.pid);
    SameBagSameElements(answers, others);
    PendingInAnyOrder(answers, others, p.pid);
    PendingInAnyOrder(others, answers, p.pid);
  }

  lemma {:induction false} RowsOfParts(a: seq<P1.Person>, b: seq<P1.Person>, answers: seq<P1.Answered>,
                                       hacks: map<Pid, int>, flag: bool)
    ensures P1.RowsOf(a + b, answers, hacks, flag) == P1.RowsOf(a, answers, hacks, flag) + P1.RowsOf(b, answers, hacks, flag)
  {
    hide P1.RowOf;
    if b == [] {
      assert a + b == a;
    } else {
      var n := |b| - 1;
      assert (a + b)[..|a| + n] == a + b[..n];
      RowsOfParts(a, b[..n], answers, hacks, flag);
    }
  }

  function LineFor(p: P1.Person, answers: seq<P1.Answered>, hacks: map<Pid, int>, flag: bool): seq<P1.Row> {
    if p.disqualified == flag then [P1.RowOf(p, answers, hacks)] else []
  }

  lemma RowsOfWithout(people: seq<P1.Person>, k: nat, answers: seq<P1.Answered>, hacks: map<Pid, int>, flag: bool)
    requires k < |people|
    ensures multiset(P1.RowsOf(people, answers, hacks, flag))
         == multiset(P1.RowsOf(people[..k] + people[k + 1..], answers, hacks, flag))
            + multiset(LineFor(people[k], answers, hacks, flag))
  {
    hide P1.RowOf;
    var a, b := people[..k], people[k + 1..];
    assert people == people[..k + 1] + b && people[..k + 1][..k] == a;
    RowsOfParts(people[..k + 1], b, answers, hacks, flag);
    RowsOfParts(a, b, answers, hacks, flag);
  }

  lemma RowsOfOneMore(people: seq<P1.Person>, others: seq<P1.Person>, k: nat, answers: seq<P1.Answered>,
                      hacks: map<Pid, int>, flag: bool)
    requires people != [] && k < |others| && others[k] == people[|people| - 1]
    requires multiset(P1.RowsOf(people[..|people| - 1], answers, hacks, flag))
          == multiset(P1.RowsOf(others[..k] + others[k + 1..], answers, hacks, flag))
    ensures multiset(P1.RowsOf(people, answers, hacks, flag)) == multiset(P1.RowsOf(others, answers, hacks, flag))
  {
    hide LineFor;
    hide P1.RowsOf;
    var n := |people| - 1;
    assert people[..n] + people[n + 1..] == people[..n];
    RowsOfWithout(people, n, answers, hacks, flag);
    RowsOfWithout(others, k, answers, hacks, flag);
  }

  lemma {:induction false} RowsOfBag(people: seq<P1.Person>, others: seq<P1.Person>, answers: seq<P1.Answered>,
                                     hacks: map<Pid, int>, flag: bool)
    requires multiset(people) == multiset(others)
    ensures multiset(P1.RowsOf(people, answers, hacks, flag)) == multiset(P1.RowsOf(others, answers, hacks, flag))
    decreases |people|
  {
    if people == [] {
      assert |multiset(others)| == |others|;
    } else {
      hide P1.RowsOf;
      var n := |people| - 1;
      SameBagSameElements(people, others);
      assert people[n] in people;
      var k :| 0 <= k < |others| && others[k] == people[n];
      WithoutOne(people, others, k);
      RowsOfBag(people[..n], others[..k] + others[k + 1..], answers, hacks, flag);
      RowsOfOneMore(people, others, k, answers, hacks, flag);
    }
  }

  lemma {:induction false} RowsOfAnswers(people: seq<P1.Person>, answers: seq<P1.Answered>, others: seq<P1.Answered>,
                                         hacks: map<Pid, int>, flag: bool)
    requires multiset(answers) == multiset(others)
    ensures P1.RowsOf(people, answers, hacks, flag) == P1.RowsOf(people, others, hacks, flag)
  {
    hide P1.RowOf;
    if people != [] {
      var n := |people| - 1;
      RowsOfAnswers(people[..n], answers, others, hacks, flag);
      FirstLineIsOrderFree(people[n], answers, others, hacks);
    }
  }

  lemma {:induction false} RowIsSomebodys(people: seq<P1.Person>, answers: seq<P1.Answered>, hacks: map<Pid, int>,
                                          flag: bool, row: P1.Row)
    requires row in P1.RowsOf(people, answers, hacks, flag)
    ensures exists p :: p in people && p.disqualified == flag && row == P1.RowOf(p, answers, hacks)
  {
    var n := |people| - 1;
    if row in P1.RowsOf(people[..n], answers, hacks, flag) {
      RowIsSomebodys(people[..n], answers, hacks, flag, row);
    } else {
      assert people[n] in people;
    }
  }

  // ----- places on the Phase 1 board ---------------------------------------------------------------------

  ghost predicate Runs(p: P1.Person, everyone: seq<P1.Person>) {
    p in everyone && !p.disqualified
  }

  function Sort1(everyone: seq<P1.Person>, answers: seq<P1.Answered>, hacks: map<Pid, int>): seq<P1.Row> {
    SortBy(P1.RowKey, P1.RowsOf(everyone, answers, hacks, false))
  }

  function Ranks(everyone: seq<P1.Person>, answers: seq<P1.Answered>, hacks: map<Pid, int>): map<Pid, nat> {
    RankMap(P1.Board(everyone, answers, hacks))
  }

  /** Where somebody stands among the ranked, and that their rank says so. */
  lemma PlaceOf(everyone: seq<P1.Person>, answers: seq<P1.Answered>, hacks: map<Pid, int>, p: P1.Person) returns (x: nat)
    requires OwnPids(everyone) && Runs(p, everyone)
    ensures p.pid in Ranks(everyone, answers, hacks) && Ranks(everyone, answers, hacks)[p.pid] == x + 1
    ensures x < |Sort1(everyone, answers, hacks)| && Sort1(everyone, answers, hacks)[x] == P1.RowOf(p, answers, hacks)
  {
    var rows, sorted := P1.RowsOf(everyone, answers, hacks, false), Sort1(everyone, answers, hacks);
    var ranked, board := P1.Ranked(everyone, answers, hacks), P1.Board(everyone, answers, hacks);
    assert Among(everyone, p.pid, false);
    RankedNamesEachOnce(everyone, answers, hacks);
    x :| 0 <= x < |ranked| && ranked[x].who == p.pid;
    BoardNamesEachOnce(everyone, answers, hacks);
    assert board[x] == ranked[x];
    RankMapAt(board, x);
    SameBagSameElements(sorted, rows);
    assert sorted[x] in sorted;
    RowIsSomebodys(everyone, answers, hacks, false, sorted[x]);
    var q :| q in everyone && !q.disqualified && sorted[x] == P1.RowOf(q, answers, hacks);
    assert q.pid == p.pid;
  }

  /** Ahead on points, finish or name: ahead in rank, whatever the order read. */
  lemma KeysDecideRanks(everyone: seq<P1.Person>, answers: seq<P1.Answered>, hacks: map<Pid, int>, p: P1.Person, q: P1.Person)
    requires OwnPids(everyone) && Runs(p, everyone) && Runs(q, everyone)
    requires Less(P1.RowKey(P1.RowOf(p, answers, hacks)), P1.RowKey(P1.RowOf(q, answers, hacks)))
    ensures p.pid in Ranks(everyone, answers, hacks) && q.pid in Ranks(everyone, answers, hacks)
    ensures Ranks(everyone, answers, hacks)[p.pid] < Ranks(everyone, answers, hacks)[q.pid]
  {
    var x := PlaceOf(everyone, answers, hacks, p);
    var y := PlaceOf(everyone, answers, hacks, q);
    SortBySorts(P1.RowKey, P1.RowsOf(everyone, answers, hacks, false));
    LessIsTotal(P1.RowKey(P1.RowOf(p, answers, hacks)), P1.RowKey(P1.RowOf(q, answers, hacks)));
  }

  /** Level with everybody on points, finish and name: whoever is read first is ranked ahead. */
  lemma FirstReadFirstRanked(p: P1.Person, rest: seq<P1.Person>, answers: seq<P1.Answered>, hacks: map<Pid, int>, q: P1.Person)
    requires OwnPids([p] + rest) && !p.disqualified && Runs(q, [p] + rest) && p != q
    requires P1.RowKey(P1.RowOf(p, answers, hacks)) == P1.RowKey(P1.RowOf(q, answers, hacks))
    ensures var ranks := Ranks([p] + rest, answers, hacks);
            p.pid in ranks && q.pid in ranks && ranks[p.pid] < ranks[q.pid]
  {
    var everyone, line := [p] + rest, P1.RowOf(p, answers, hacks);
    var rows, sorted := P1.RowsOf(everyone, answers, hacks, false), Sort1(everyone, answers, hacks);
    assert everyone[0] == p;
    var x := PlaceOf(everyone, answers, hacks, p);
    var y := PlaceOf(everyone, answers, hacks, q);
    RowsOfParts([p], rest, answers, hacks, false);
    assert [p][..0] == [] && rows[0] == line;
    hide P1.RowsOf;
    hide P1.RowKey;
    hide Ranks;
    LinesApart(everyone, answers, hacks, false);
    DistinctInAnyOrder(WhoKey, rows, sorted);
    assert forall a, b :: 0 <= a < b < |sorted| ==> WhoKey(sorted[a]) != WhoKey(sorted[b]);
    FirstStaysFirst(P1.RowKey, rows, sorted, x, y);
  }

  // ----- one read of both boards ---------------------------------------------------------------------------

  /** The rows of every table in the order they were read. */
  datatype Read = Read(
    everyone: seq<P1.Person>,
    answers: seq<P1.Answered>,
    hacks: map<Pid, int>,
    people: seq<P2.Person>,
    acs: seq<P2.Ac>)

  function Named(r: P1.Row): P2.Person {
    P2.Person(r.who, r.name)
  }

  /** The participants who are not disqualified. */
  ghost function Eligible(everyone: seq<P1.Person>): seq<P2.Person> {
    Mapped(Named, P1.RowsOf(everyone, [], map[], false))
  }

  /** Pids are keys, and the query for the Phase 2 board's people finds those not disqualified. */
  ghost predicate Consistent(d: Read) {
    OwnPids(d.everyone) && multiset(d.people) == multiset(Eligible(d.everyone))
  }

  /** The same rows in another order. */
  ghost predicate SameRows(d: Read, e: Read) {
    && multiset(d.everyone) == multiset(e.everyone) && multiset(d.answers) == multiset(e.answers)
    && multiset(d.people) == multiset(e.people) && multiset(d.acs) == multiset(e.acs)
    && d.hacks == e.hacks
  }

  function PersonKey(p: P1.Person): Key {
    [p.pid]
  }

  lemma ConsistentInAnyOrder(d: Read, e: Read)
    requires Consistent(d) && SameRows(d, e)
    ensures Consistent(e)
  {
    assert DistinctKeys(PersonKey, d.everyone) by {
      assert forall p, q :: PersonKey(p) == PersonKey(q) ==> PersonKey(p)[0] == PersonKey(q)[0];
    }
    DistinctInAnyOrder(PersonKey, d.everyone, e.everyone);
    assert OwnPids(e.everyone) by {
      forall i, j | 0 <= i < j < |e.everyone|
        ensures e.everyone[i].pid != e.everyone[j].pid
      {
        assert PersonKey(e.everyone[i]) != PersonKey(e.everyone[j]);
      }
    }
    RowsOfBag(d.everyone, e.everyone, [], map[], false);
    MappedBag(Named, P1.RowsOf(d.everyone, [], map[], false), P1.RowsOf(e.everyone, [], map[], false));
  }

  lemma {:induction false} RowIsThere(people: seq<P1.Person>, answers: seq<P1.Answered>, hacks: map<Pid, int>, p: P1.Person)
    requires p in people
    ensures P1.RowOf(p, answers, hacks) in P1.RowsOf(people, answers, hacks, p.disqualified)
  {
    hide P1.RowOf;
    var n := |people| - 1;
    if p in people[..n] {
      RowIsThere(people[..n], answers, hacks, p);
    }
  }

  function AsListed(p: P1.Person): P2.Person {
    P2.Person(p.pid, p.name)
  }

  /** Whoever is on the Phase 2 board runs, and the other way round. */
  lemma OnTheBoardIff(d: Read, e: P2.Person)
    requires Consistent(d)
    ensures e in d.people <==> exists p :: Runs(p, d.everyone) && e == AsListed(p)
  {
    var rows := P1.RowsOf(d.everyone, [], map[], false);
    SameBagSameElements(d.people, Eligible(d.everyone));
    if e in d.people {
      assert e in Eligible(d.everyone);
      var i :| 0 <= i < |rows| && e == Named(rows[i]);
      RowIsSomebodys(d.everyone, [], map[], false, rows[i]);
      var p :| p in d.everyone && !p.disqualified && rows[i] == P1.RowOf(p, [], map[]);
      assert Runs(p, d.everyone);
    }
    if p :| Runs(p, d.everyone) && e == AsListed(p) {
      RowIsThere(d.everyone, [], map[], p);
      var i :| 0 <= i < |rows| && rows[i] == P1.RowOf(p, [], map[]);
      assert Eligible(d.everyone)[i] == e;
    }
  }

  function PidKey(p: P2.Person): Key {
    [p.pid]
  }

  lemma PeopleApart(d: Read)
    requires Consistent(d)
    ensures forall i, j :: 0 <= i < j < |d.people| ==> d.people[i].pid != d.people[j].pid
  {
    var rows := P1.RowsOf(d.everyone, [], map[], false);
    LinesApart(d.everyone, [], map[], false);
    forall i, j | 0 <= i < j < |rows|
      ensures PidKey(Eligible(d.everyone)[i]) != PidKey(Eligible(d.everyone)[j])
    {
      assert WhoKey(rows[i]) != WhoKey(rows[j]);
    }
    DistinctInAnyOrder(PidKey, Eligible(d.everyone), d.people);
    forall i, j | 0 <= i < j < |d.people|
      ensures d.people[i].pid != d.people[j].pid
    {
      assert PidKey(d.people[i]) != PidKey(d.people[j]);
    }
  }

  function RanksIn(d: Read): map<Pid, nat> {
    Ranks(d.everyone, d.answers, d.hacks)
  }

  lemma EverybodyIsRanked(d: Read)
    requires Consistent(d)
    ensures P2.RankedApart(d.people, RanksIn(d))
  {
    PeopleApart(d);
    forall e | e in d.people
      ensures Among(d.everyone, e.pid, false)
    {
      OnTheBoardIff(d, e);
      var p :| Runs(p, d.everyone) && e == AsListed(p);
      var i :| 0 <= i < |d.everyone| && d.everyone[i] == p;
      assert d.everyone[i].pid == e.pid;
    }
    RanksAreApart(d.everyone, d.answers, d.hacks, d.people);
  }

  ghost function BoardOf(d: Read, worth: Qid -> int): seq<P2.Row> {
    P2.Board(d.people, d.acs, worth, RanksIn(d))
  }

  function Covered(r: P2.Row): P2.Row {
    r.(phase1 := None)
  }

  /** The board with its Phase 1 column covered: who stands where, with what score and time, at what rank. */
  ghost function Shown(d: Read, worth: Qid -> int): seq<P2.Row> {
    Mapped(Covered, BoardOf(d, worth))
  }

  /** Somebody's Phase 2 line, without the Phase 1 rank. */
  ghost function SecondLine(d: Read, worth: Qid -> int, p: P1.Person): P2.Row {
    P2.RowOf(AsListed(p), d.acs, worth, map[])
  }

  ghost function Unsorted(d: Read, worth: Qid -> int): seq<P2.Row> {
    P2.RowsOf(d.people, d.acs, worth, RanksIn(d))
  }

  /** The lines of the Phase 2 board before they are numbered. */
  ghost function Lines(d: Read, worth: Qid -> int): seq<P2.Row> {
    SortBy(P2.RowKey, Unsorted(d, worth))
  }

  ghost predicate IsLineOf(d: Read, worth: Qid -> int, r: P2.Row, p: P1.Person) {
    && Runs(p, d.everyone)
    && p.pid in RanksIn(d)
    && r == SecondLine(d, worth, p).(phase1 := Some(RanksIn(d)[p.pid]))
  }

  lemma UnsortedLine(d: Read, worth: Qid -> int, k: nat, p: P1.Person)
    requires k < |d.people| && Runs(p, d.everyone) && p.pid in RanksIn(d) && d.people[k] == AsListed(p)
    ensures IsLineOf(d, worth, Unsorted(d, worth)[k], p)
  {
    hide RanksIn;
    assert Unsorted(d, worth)[k] == P2.RowOf(AsListed(p), d.acs, worth, RanksIn(d));
  }

  lemma SameLines(d: Read, worth: Qid -> int)
    ensures multiset(Unsorted(d, worth)) == multiset(Lines(d, worth))
    ensures forall r :: r in Unsorted(d, worth) <==> r in Lines(d, worth)
  {
    SameBagSameElements(Unsorted(d, worth), Lines(d, worth));
  }

  /** A line is somebody's; its number is its place; and everybody has one. */
  lemma LineIsSomebodys(d: Read, worth: Qid -> int, i: nat) returns (p: P1.Person)
    requires Consistent(d) && i < |Lines(d, worth)|
    ensures IsLineOf(d, worth, Lines(d, worth)[i], p)
  {
    hide IsLineOf;
    hide Unsorted;
    SameLines(d, worth);
    EverybodyIsRanked(d);
    assert Lines(d, worth)[i] in Lines(d, worth);
    hide Lines;
    var k :| 0 <= k < |Unsorted(d, worth)| && Unsorted(d, worth)[k] == Lines(d, worth)[i];
    assert |Unsorted(d, worth)| == |d.people| by { UnsortedCount(d, worth); }
    OnTheBoardIff(d, d.people[k]);
    assert d.people[k] in d.people;
    p :| Runs(p, d.everyone) && d.people[k] == AsListed(p);
    UnsortedLine(d, worth, k, p);
  }

  lemma UnsortedCount(d: Read, worth: Qid -> int)
    ensures |Unsorted(d, worth)| == |d.people|
  {
  }

  lemma EverybodyHasALine(d: Read, worth: Qid -> int, p: P1.Person) returns (i: nat)
    requires Consistent(d) && Runs(p, d.everyone)
    ensures i < |Lines(d, worth)| && IsLineOf(d, worth, Lines(d, worth)[i], p)
  {
    hide IsLineOf;
    UnsortedCount(d, worth);
    hide Unsorted;
    SameLines(d, worth);
    hide Lines;
    EverybodyIsRanked(d);
    OnTheBoardIff(d, AsListed(p));
    var k :| 0 <= k < |d.people| && d.people[k] == AsListed(p);
    UnsortedLine(d, worth, k, p);
    assert Unsorted(d, worth)[k] in Lines(d, worth);
    i :| 0 <= i < |Lines(d, worth)| && Lines(d, worth)[i] == Unsorted(d, worth)[k];
  }

  function Whose(r: P2.Row): Key {
    [r.who]
  }

  lemma UnsortedApart(d: Read, worth: Qid -> int)
    requires Consistent(d)
    ensures DistinctKeys(Whose, Unsorted(d, worth))
  {
    hide RanksIn;
    PeopleApart(d);
    forall a, b | 0 <= a < b < |d.people|
      ensures Whose(Unsorted(d, worth)[a]) != Whose(Unsorted(d, worth)[b])
    {
      assert Unsorted(d, worth)[a].who == d.people[a].pid && Unsorted(d, worth)[b].who == d.people[b].pid;
    }
  }

  lemma LinesApartToo(d: Read, worth: Qid -> int, i: nat, j: nat)
    requires Consistent(d) && i < j < |Lines(d, worth)|
    ensures Lines(d, worth)[i].who != Lines(d, worth)[j].who
  {
    UnsortedApart(d, worth);
    SameLines(d, worth);
    hide Lines;
    hide Unsorted;
    DistinctInAnyOrder(Whose, Unsorted(d, worth), Lines(d, worth));
    assert Whose(Lines(d, worth)[i]) != Whose(Lines(d, worth)[j]);
  }

  lemma LinesAreNumbered(d: Read, worth: Qid -> int)
    requires Consistent(d)
    ensures |BoardOf(d, worth)| == |Lines(d, worth)|
    ensures forall i :: 0 <= i < |Lines(d, worth)| ==> BoardOf(d, worth)[i] == Lines(d, worth)[i].(rank := i + 1)
  {
    EverybodyIsRanked(d);
    P2.RanksAreOneToN(d.people, d.acs, worth, RanksIn(d));
  }

  // ----- ties ------------------------------------------------------------------------------------------------

  /** Level in Phase 1: on points, finish and name. */
  ghost predicate LevelFirst(d: Read, p: P1.Person, q: P1.Person) {
    P1.Tied(P1.RowOf(p, d.answers, d.hacks), P1.RowOf(q, d.answers, d.hacks))
  }

  /** Level in Phase 2: on score and time. */
  ghost predicate LevelSecond(d: Read, worth: Qid -> int, p: P1.Person, q: P1.Person) {
    var a, b := SecondLine(d, worth, p), SecondLine(d, worth, q);
    a.score == b.score && a.time == b.time
  }

  ghost predicate NoneLevelFirst(d: Read) {
    forall p, q :: Runs(p, d.everyone) && Runs(q, d.everyone) && p != q ==> !LevelFirst(d, p, q)
  }

  ghost predicate NoneLevelTwice(d: Read, worth: Qid -> int) {
    forall p, q :: Runs(p, d.everyone) && Runs(q, d.everyone) && p != q ==>
      !(LevelFirst(d, p, q) && LevelSecond(d, worth, p, q))
  }

  lemma LevelFirstMeans(d: Read, p: P1.Person, q: P1.Person)
    ensures LevelFirst(d, p, q) <==>
              P1.RowKey(P1.RowOf(p, d.answers, d.hacks)) == P1.RowKey(P1.RowOf(q, d.answers, d.hacks))
  {
    P1.KeyMeans(P1.RowOf(p, d.answers, d.hacks), P1.RowOf(q, d.answers, d.hacks));
  }

  /** Level in Phase 2, the better Phase 1 rank comes first. */
  lemma LevelGoesByRank(d: Read, worth: Qid -> int, p: P1.Person, q: P1.Person, i: nat, j: nat)
    requires Consistent(d) && i < |Lines(d, worth)| && j < |Lines(d, worth)|
    requires IsLineOf(d, worth, Lines(d, worth)[i], p) && IsLineOf(d, worth, Lines(d, worth)[j], q)
    requires LevelSecond(d, worth, p, q) && RanksIn(d)[p.pid] < RanksIn(d)[q.pid]
    ensures i < j
  {
    var lines := Lines(d, worth);
    hide RanksIn;
    hide SecondLine;
    hide Unsorted;
    hide SortBy;
    hide Less;
    hide P2.RowKey;
    hide P2.TieKey;
    SortBySorts(P2.RowKey, Unsorted(d, worth));
    P2.BetterMeans(lines[i], lines[j]);
    if j < i {
      P2.SortedTies(lines, j, i);
    }
  }

  // ----- reading one person first ----------------------------------------------------------------------------

  /** The same read with one participant's row first. */
  ghost function Fronted(d: Read, k: nat): Read
    requires k < |d.everyone|
  {
    d.(everyone := [d.everyone[k]] + (d.everyone[..k] + d.everyone[k + 1..]))
  }

  lemma FrontedIsSame(d: Read, k: nat)
    requires k < |d.everyone|
    ensures SameRows(d, Fronted(d, k))
    ensures forall p :: Runs(p, d.everyone) <==> Runs(p, Fronted(d, k).everyone)
  {
    var a, b := d.everyone[..k], d.everyone[k + 1..];
    assert d.everyone == a + [d.everyone[k]] + b;
    SameBagSameElements(d.everyone, Fronted(d, k).everyone);
  }

  lemma FrontedIsAhead(d: Read, k: nat, q: P1.Person)
    requires Consistent(d) && k < |d.everyone| && Runs(d.everyone[k], d.everyone) && Runs(q, d.everyone)
    requires q != d.everyone[k] && LevelFirst(d, d.everyone[k], q)
    ensures var ranks := RanksIn(Fronted(d, k));
            d.everyone[k].pid in ranks && q.pid in ranks && ranks[d.everyone[k].pid] < ranks[q.pid]
  {
    FrontedIsSame(d, k);
    ConsistentInAnyOrder(d, Fronted(d, k));
    LevelFirstMeans(d, d.everyone[k], q);
    FirstReadFirstRanked(d.everyone[k], d.everyone[..k] + d.everyone[k + 1..], d.answers, d.hacks, q);
  }

  // ----- the whole board -------------------------------------------------------------------------------------

  /** With nobody level in Phase 1, everybody has the same Phase 1 rank in every read. */
  lemma RanksAreOrderFree(d: Read, e: Read, p: P1.Person)
    requires Consistent(d) && SameRows(d, e) && NoneLevelFirst(d) && Runs(p, d.everyone)
    ensures p.pid in RanksIn(d) && p.pid in RanksIn(e) && RanksIn(d)[p.pid] == RanksIn(e)[p.pid]
  {
    ConsistentInAnyOrder(d, e);
    SameBagSameElements(d.everyone, e.everyone);
    var x := PlaceOf(d.everyone, d.answers, d.hacks, p);
    var y := PlaceOf(e.everyone, e.answers, e.hacks, p);
    FirstLineIsOrderFree(p, d.answers, e.answers, d.hacks);
    SameFirstBoard(d, e);
    hide P1.RowOf;
    hide Sort1;
    hide Ranks;
  }

  lemma SameFirstBoard(d: Read, e: Read)
    requires Consistent(d) && SameRows(d, e) && NoneLevelFirst(d)
    ensures Sort1(e.everyone, e.answers, e.hacks) == Sort1(d.everyone, d.answers, d.hacks)
    ensures var sorted := Sort1(d.everyone, d.answers, d.hacks);
            forall i, j :: 0 <= i < j < |sorted| ==> sorted[i] != sorted[j]
  {
    hide P1.RowOf;
    hide P1.RowsOf;
    hide P1.RowKey;
    hide SortBy;
    var rows, others := P1.RowsOf(d.everyone, d.answers, d.hacks, false), P1.RowsOf(e.everyone, e.answers, e.hacks, false);
    RowsOfBag(d.everyone, e.everyone, d.answers, d.hacks, false);
    RowsOfAnswers(e.everyone, d.answers, e.answers, d.hacks, false);
    FirstKeysApart(d);
    DistinctInAnyOrder(P1.RowKey, rows, others);
    AnyOrderSortsAlike(P1.RowKey, rows, others);
    var sorted := Sort1(d.everyone, d.answers, d.hacks);
    DistinctInAnyOrder(P1.RowKey, rows, sorted);
    assert forall i, j :: 0 <= i < j < |sorted| ==> P1.RowKey(sorted[i]) != P1.RowKey(sorted[j]);
  }

  lemma FirstKeysApart(d: Read)
    requires OwnPids(d.everyone) && NoneLevelFirst(d)
    ensures DistinctKeys(P1.RowKey, P1.RowsOf(d.everyone, d.answers, d.hacks, false))
  {
    var rows := P1.RowsOf(d.everyone, d.answers, d.hacks, false);
    LinesApart(d.everyone, d.answers, d.hacks, false);
    hide P1.RowsOf;
    hide P1.RowKey;
    forall i, j | 0 <= i < j < |rows|
      ensures P1.RowKey(rows[i]) != P1.RowKey(rows[j])
    {
      assert WhoKey(rows[i]) != WhoKey(rows[j]);
      var p := RowOwner(d, rows[i]);
      var q := RowOwner(d, rows[j]);
      LevelFirstMeans(d, p, q);
    }
  }

  lemma RowOwner(d: Read, row: P1.Row) returns (p: P1.Person)
    requires row in P1.RowsOf(d.everyone, d.answers, d.hacks, false)
    ensures Runs(p, d.everyone) && row == P1.RowOf(p, d.answers, d.hacks)
  {
    RowIsSomebodys(d.everyone, d.answers, d.hacks, false, row);
    p :| p in d.everyone && !p.disqualified && row == P1.RowOf(p, d.answers, d.hacks);
  }

  lemma SameRanksSameBoard(d: Read, e: Read, worth: Qid -> int)
    requires Consistent(d) && SameRows(d, e) && NoneLevelFirst(d)
    ensures BoardOf(e, worth) == BoardOf(d, worth)
  {
    EverybodyIsRanked(d);
    forall x | x in e.people
      ensures P2.RowOf(x, e.acs, worth, RanksIn(e)) == P2.RowOf(x, e.acs, worth, RanksIn(d))
    {
      SameBagSameElements(d.people, e.people);
      OnTheBoardIff(d, x);
      var p :| Runs(p, d.everyone) && x == AsListed(p);
      RanksAreOrderFree(d, e, p);
    }
    assert P2.RowsOf(e.people, e.acs, worth, RanksIn(e)) == P2.RowsOf(e.people, e.acs, worth, RanksIn(d));
    P2.BoardIsOrderFree(d.people, e.people, d.acs, e.acs, worth, RanksIn(d));
  }

  /** Somebody's line tells their Phase 1 rank, so a board that is the same in two reads tells one rank. */
  lemma SameBoardSameRank(d: Read, e: Read, worth: Qid -> int, p: P1.Person)
    requires Consistent(d) && Consistent(e) && Runs(p, d.everyone)
    requires BoardOf(d, worth) == BoardOf(e, worth)
    ensures p.pid in RanksIn(d) && p.pid in RanksIn(e) && RanksIn(d)[p.pid] == RanksIn(e)[p.pid]
  {
    LinesAreNumbered(d, worth);
    LinesAreNumbered(e, worth);
    var i := EverybodyHasALine(d, worth, p);
    hide Lines;
    hide BoardOf;
    assert BoardOf(d, worth)[i] == BoardOf(e, worth)[i];
    var q := LineIsSomebodys(e, worth, i);
  }

  /** The whole board, with its Phase 1 column, is the same for every read order of every table if and only if no
      two people who are not disqualified are level in Phase 1 on points, finish and name. */
  lemma BoardIsOrderFreeIff(d: Read, worth: Qid -> int)
    requires Consistent(d)
    ensures (forall e :: SameRows(d, e) ==> BoardOf(e, worth) == BoardOf(d, worth)) <==> NoneLevelFirst(d)
  {
    if NoneLevelFirst(d) {
      forall e | SameRows(d, e)
        ensures BoardOf(e, worth) == BoardOf(d, worth)
      {
        SameRanksSameBoard(d, e, worth);
      }
    } else {
      var p, q :| Runs(p, d.everyone) && Runs(q, d.everyone) && p != q && LevelFirst(d, p, q);
      var k, l := PlaceIn(d, p), PlaceIn(d, q);
      BothFronted(d, k, l);
      if BoardOf(Fronted(d, k), worth) == BoardOf(d, worth) == BoardOf(Fronted(d, l), worth) {
        SameBoardSameRank(Fronted(d, k), Fronted(d, l), worth, p);
        SameBoardSameRank(Fronted(d, k), Fronted(d, l), worth, q);
        assert false;
      }
    }
  }

  ghost function PlaceIn(d: Read, p: P1.Person): (k: nat)
    requires p in d.everyone
    ensures k < |d.everyone| && d.everyone[k] == p
  {
    var k :| 0 <= k < |d.everyone| && d.everyone[k] == p;
    k
  }

  /** Two people level in Phase 1: each read first is ahead of the other. */
  lemma BothFronted(d: Read, k: nat, l: nat)
    requires Consistent(d) && k < |d.everyone| && l < |d.everyone|
    requires Runs(d.everyone[k], d.everyone) && Runs(d.everyone[l], d.everyone)
    requires d.everyone[k] != d.everyone[l] && LevelFirst(d, d.everyone[k], d.everyone[l])
    ensures var first, second := Fronted(d, k), Fronted(d, l);
            var p, q := d.everyone[k], d.everyone[l];
            && SameRows(d, first) && SameRows(d, second) && Consistent(first) && Consistent(second)
            && Runs(p, first.everyone) && Runs(q, first.everyone) && Runs(p, second.everyone) && Runs(q, second.everyone)
            && p.pid in RanksIn(first) && q.pid in RanksIn(first) && RanksIn(first)[p.pid] < RanksIn(first)[q.pid]
            && p.pid in RanksIn(second) && q.pid in RanksIn(second) && RanksIn(second)[q.pid] < RanksIn(second)[p.pid]
  {
    FrontedIsSame(d, k);
    FrontedIsSame(d, l);
    ConsistentInAnyOrder(d, Fronted(d, k));
    ConsistentInAnyOrder(d, Fronted(d, l));
    FrontedIsAhead(d, k, d.everyone[l]);
    FrontedIsAhead(d, l, d.everyone[k]);
  }

  // ----- the board with its Phase 1 column covered ---------------------------------------------------------------

  ghost function FirstKeyOf(d: Read, who: Pid): Key {
    if p :| Runs(p, d.everyone) && p.pid == who then P1.RowKey(P1.RowOf(p, d.answers, d.hacks)) else []
  }

  lemma FirstKeyIs(d: Read, p: P1.Person)
    requires OwnPids(d.everyone) && Runs(p, d.everyone)
    ensures FirstKeyOf(d, p.pid) == P1.RowKey(P1.RowOf(p, d.answers, d.hacks))
  {
  }

  /** An order on lines that no read decides: score, time, then points, finish and name in Phase 1. */
  ghost function Order(d: Read): P2.Row -> Key {
    (r: P2.Row) => [0 - r.score, r.time] + FirstKeyOf(d, r.who)
  }

  ghost function CoveredLines(d: Read, worth: Qid -> int): seq<P2.Row> {
    Mapped(Covered, Lines(d, worth))
  }

  /** Level in Phase 2 and ahead in Phase 1: ahead on the board, in every read. */
  lemma FirstDecides(d: Read, e: Read, worth: Qid -> int, p: P1.Person, q: P1.Person, i: nat, j: nat)
    requires Consistent(d) && Consistent(e) && SameRows(d, e) && i < |Lines(e, worth)| && j < |Lines(e, worth)|
    requires Runs(p, d.everyone) && Runs(q, d.everyone)
    requires IsLineOf(e, worth, Lines(e, worth)[i], p) && IsLineOf(e, worth, Lines(e, worth)[j], q)
    requires LevelSecond(e, worth, p, q) && Less(FirstKeyOf(d, p.pid), FirstKeyOf(d, q.pid))
    ensures i < j
  {
    FirstKeyIs(d, p);
    FirstKeyIs(d, q);
    FirstLineIsOrderFree(p, d.answers, e.answers, d.hacks);
    FirstLineIsOrderFree(q, d.answers, e.answers, d.hacks);
    KeysDecideRanks(e.everyone, e.answers, e.hacks, p, q);
    LevelGoesByRank(e, worth, p, q, i, j);
  }

  lemma OrderMeans(d: Read, a: P2.Row, b: P2.Row)
    ensures Less(Order(d)(a), Order(d)(b)) <==>
              || a.score > b.score
              || (a.score == b.score && a.time < b.time)
              || (a.score == b.score && a.time == b.time && Less(FirstKeyOf(d, a.who), FirstKeyOf(d, b.who)))
    ensures Order(d)(a) == Order(d)(b) <==>
              a.score == b.score && a.time == b.time && FirstKeyOf(d, a.who) == FirstKeyOf(d, b.who)
  {
    var s, t := [0 - a.score, a.time], [0 - b.score, b.time];
    var x, y := FirstKeyOf(d, a.who), FirstKeyOf(d, b.who);
    LessByParts(s, t, x, y);
    P2.LessOfPairs(s, t);
    assert (s + x)[..2] == s && (s + x)[2..] == x && (t + y)[..2] == t && (t + y)[2..] == y;
  }

  lemma OneInOrder(d: Read, e: Read, worth: Qid -> int, i: nat, j: nat)
    requires Consistent(d) && Consistent(e) && SameRows(d, e) && i < j < |Lines(e, worth)|
    ensures !Less(Order(d)(CoveredLines(e, worth)[j]), Order(d)(CoveredLines(e, worth)[i]))
  {
    var lines := Lines(e, worth);
    var p := LineIsSomebodys(e, worth, i);
    var q := LineIsSomebodys(e, worth, j);
    SameBagSameElements(d.everyone, e.everyone);
    SortBySorts(P2.RowKey, Unsorted(e, worth));
    P2.SortedTies(lines, i, j);
    P2.BetterMeans(lines[j], lines[i]);
    hide Lines;
    hide SortBy;
    hide P2.Better;
    hide Less;
    hide P2.RowKey;
    hide RanksIn;
    hide SecondLine;
    hide Order;
    hide FirstKeyOf;
    OrderMeans(d, Covered(lines[j]), Covered(lines[i]));
    if Less(Order(d)(Covered(lines[j])), Order(d)(Covered(lines[i]))) {
      FirstDecides(d, e, worth, q, p, j, i);
    }
  }

  /** Whatever order the rows are read in, the lines come out sorted in that order. */
  lemma LinesAreInOrder(d: Read, e: Read, worth: Qid -> int)
    requires Consistent(d) && Consistent(e) && SameRows(d, e)
    ensures Sorted(Order(d), CoveredLines(e, worth))
  {
    hide Order;
    hide Lines;
    forall i, j | 0 <= i < j < |CoveredLines(e, worth)|
      ensures !Less(Order(d)(CoveredLines(e, worth)[j]), Order(d)(CoveredLines(e, worth)[i]))
    {
      OneInOrder(d, e, worth, i, j);
    }
  }

  lemma OrderIsStrict(d: Read, worth: Qid -> int)
    requires Consistent(d) && NoneLevelTwice(d, worth)
    ensures DistinctKeys(Order(d), CoveredLines(d, worth))
  {
    hide Order;
    forall i, j | 0 <= i < j < |CoveredLines(d, worth)|
      ensures Order(d)(CoveredLines(d, worth)[i]) != Order(d)(CoveredLines(d, worth)[j])
    {
      var p := LineIsSomebodys(d, worth, i);
      var q := LineIsSomebodys(d, worth, j);
      LinesApartToo(d, worth, i, j);
      hide Lines;
      hide SecondLine;
      FirstKeyIs(d, p);
      FirstKeyIs(d, q);
      LevelFirstMeans(d, p, q);
      OrderMeans(d, CoveredLines(d, worth)[i], CoveredLines(d, worth)[j]);
    }
  }

  /** Without their Phase 1 ranks, the lines are the same ones in every read. */
  lemma SameCoveredLines(d: Read, e: Read, worth: Qid -> int)
    requires SameRows(d, e)
    ensures multiset(CoveredLines(d, worth)) == multiset(CoveredLines(e, worth))
  {
    MappedBag(Covered, Unsorted(d, worth), Lines(d, worth));
    MappedBag(Covered, Unsorted(e, worth), Lines(e, worth));
    CoverUnsorted(d, worth);
    CoverUnsorted(e, worth);
    P2.RowsOfBag(d.people, e.people, d.acs, worth, map[]);
    forall p
      ensures P2.RowOf(p, d.acs, worth, map[]) == P2.RowOf(p, e.acs, worth, map[])
    {
      P2.LineIsOrderFree(p, d.acs, e.acs, worth, map[]);
    }
    assert P2.RowsOf(e.people, d.acs, worth, map[]) == P2.RowsOf(e.people, e.acs, worth, map[]);
  }

  lemma CoverUnsorted(d: Read, worth: Qid -> int)
    ensures Mapped(Covered, Unsorted(d, worth)) == P2.RowsOf(d.people, d.acs, worth, map[])
  {
    hide RanksIn;
  }

  lemma ShownLine(d: Read, worth: Qid -> int)
    requires Consistent(d)
    ensures |Shown(d, worth)| == |CoveredLines(d, worth)|
    ensures forall i :: 0 <= i < |Shown(d, worth)| ==>
              Shown(d, worth)[i] == CoveredLines(d, worth)[i].(rank := i + 1)
  {
    LinesAreNumbered(d, worth);
    hide BoardOf;
    hide Lines;
  }

  lemma NoneTwiceSameShown(d: Read, e: Read, worth: Qid -> int)
    requires Consistent(d) && SameRows(d, e) && NoneLevelTwice(d, worth)
    ensures Shown(e, worth) == Shown(d, worth)
  {
    ConsistentInAnyOrder(d, e);
    assert SameRows(d, d);
    LinesAreInOrder(d, d, worth);
    LinesAreInOrder(d, e, worth);
    SameCoveredLines(d, e, worth);
    OrderIsStrict(d, worth);
    ShownLine(d, worth);
    ShownLine(e, worth);
    hide CoveredLines;
    hide Shown;
    hide Order;
    DistinctInAnyOrder(Order(d), CoveredLines(d, worth), CoveredLines(e, worth));
    DistinctSameByKey(Order(d), CoveredLines(d, worth), CoveredLines(e, worth));
    SortedIsDetermined(Order(d), CoveredLines(d, worth), CoveredLines(e, worth));
  }

  /** Two people level in Phase 2 stand in the order of their Phase 1 ranks, wherever the covered board puts them. */
  lemma ShownGoesByRank(d: Read, worth: Qid -> int, p: P1.Person, q: P1.Person, i: nat, j: nat)
    requires Consistent(d) && Runs(p, d.everyone) && Runs(q, d.everyone) && LevelSecond(d, worth, p, q)
    requires p.pid in RanksIn(d) && q.pid in RanksIn(d) && RanksIn(d)[p.pid] < RanksIn(d)[q.pid]
    requires i < |Shown(d, worth)| && Shown(d, worth)[i].who == p.pid
    requires j < |Shown(d, worth)| && Shown(d, worth)[j].who == q.pid
    ensures i < j
  {
    ShownLine(d, worth);
    hide Shown;
    var a := LineIsSomebodys(d, worth, i);
    var b := LineIsSomebodys(d, worth, j);
    hide Lines;
    hide RanksIn;
    assert a == p && b == q;
    LevelGoesByRank(d, worth, p, q, i, j);
  }

  /** With its Phase 1 column covered, the board is the same for every read order of every table if and only if no
      two people who are not disqualified are level both in Phase 1, on points, finish and name, and in Phase 2, on
      score and time. */
  lemma ShownIsOrderFreeIff(d: Read, worth: Qid -> int)
    requires Consistent(d)
    ensures (forall e :: SameRows(d, e) ==> Shown(e, worth) == Shown(d, worth)) <==> NoneLevelTwice(d, worth)
  {
    if NoneLevelTwice(d, worth) {
      forall e | SameRows(d, e)
        ensures Shown(e, worth) == Shown(d, worth)
      {
        NoneTwiceSameShown(d, e, worth);
      }
    } else {
      var p, q :| Runs(p, d.everyone) && Runs(q, d.everyone) && p != q
                  && LevelFirst(d, p, q) && LevelSecond(d, worth, p, q);
      var k, l := PlaceIn(d, p), PlaceIn(d, q);
      BothFronted(d, k, l);
      FrontedShowApart(d, worth, k, l);
    }
  }

  lemma FrontedShowApart(d: Read, worth: Qid -> int, k: nat, l: nat)
    requires Consistent(d) && k < |d.everyone| && l < |d.everyone|
    requires Runs(d.everyone[k], d.everyone) && Runs(d.everyone[l], d.everyone)
    requires d.everyone[k] != d.everyone[l] && LevelFirst(d, d.everyone[k], d.everyone[l])
    requires LevelSecond(d, worth, d.everyone[k], d.everyone[l])
    ensures Shown(Fronted(d, k), worth) != Shown(Fronted(d, l), worth)
  {
    var first, second, p, q := Fronted(d, k), Fronted(d, l), d.everyone[k], d.everyone[l];
    BothFronted(d, k, l);
    var i := EverybodyHasALine(first, worth, p);
    var j := EverybodyHasALine(first, worth, q);
    ShownLine(first, worth);
    hide Lines;
    hide RanksIn;
    if Shown(first, worth) == Shown(second, worth) {
      ShownGoesByRank(first, worth, p, q, i, j);
      ShownGoesByRank(second, worth, q, p, j, i);
      assert false;
    }
  }

  /** A participant called x who has done nothing. */
  function Idle(pid: Pid): P1.Person {
    P1.Person(pid, "x", false, None, None)
  }

  function Twins(a: Pid, b: Pid): Read {
    Read([Idle(a), Idle(b)], [], map[], [P2.Person(1, "x"), P2.Person(2, "x")], [])
  }

  lemma TwinsAreConsistent()
    ensures Consistent(Twins(1, 2))
  {
    var one, two := Idle(1), Idle(2);
    RowsOfParts([one], [two], [], map[], false);
    assert [one] + [two] == Twins(1, 2).everyone && [one][..0] == [] && [two][..0] == [];
    assert P1.RowsOf([one, two], [], map[], false) == [P1.RowOf(one, [], map[]), P1.RowOf(two, [], map[])];
    assert Eligible([one, two]) == [P2.Person(1, "x"), P2.Person(2, "x")];
  }

  lemma TwinsAreLevel(worth: Qid -> int)
    ensures LevelFirst(Twins(1, 2), Idle(1), Idle(2)) && LevelSecond(Twins(1, 2), worth, Idle(1), Idle(2))
  {
    assert P2.SolvedBy([], 1) == {} && P2.SolvedBy([], 2) == {};
  }

  lemma FrontedTwins()
    ensures Fronted(Twins(1, 2), 0) == Twins(1, 2) && Fronted(Twins(1, 2), 1) == Twins(2, 1)
  {
    var people := [Idle(1), Idle(2)];
    assert [people[0]] + (people[..0] + people[1..]) == [Idle(1), Idle(2)];
    assert [people[1]] + (people[..1] + people[2..]) == [Idle(2), Idle(1)];
  }

  lemma TwinsRun()
    ensures Twins(1, 2).everyone == [Idle(1), Idle(2)]
    ensures Runs(Idle(1), Twins(1, 2).everyone) && Runs(Idle(2), Twins(1, 2).everyone)
  {
    assert Twins(1, 2).everyone[0] == Idle(1) && Twins(1, 2).everyone[1] == Idle(2);
  }

  /** Two idle participants of one name: whoever is read first is ranked first, on both boards. */
  lemma TwinsSwapPlaces(worth: Qid -> int)
    ensures Consistent(Twins(1, 2)) && SameRows(Twins(1, 2), Twins(2, 1))
    ensures Shown(Twins(1, 2), worth) != Shown(Twins(2, 1), worth)
  {
    TwinsAreConsistent();
    TwinsAreLevel(worth);
    FrontedTwins();
    TwinsRun();
    assert Idle(1) != Idle(2);
    hide Fronted;
    hide Consistent;
    hide LevelFirst;
    hide LevelSecond;
    hide Shown;
    hide SameRows;
    hide Twins;
    hide Idle;
    hide Runs;
    FrontedIsSame(Twins(1, 2), 1);
    FrontedShowApart(Twins(1, 2), worth, 0, 1);
  }
}
