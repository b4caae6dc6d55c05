/** What the lines of the two boards say, told by the rows they are made from. */
module BoardLines {
  import opened Common
  import Sorting
  import Validation
  import P1 = Phase1Board
  import P2 = Phase2Board

  // ----- Phase 1 ---------------------------------------------------------------------------------------------

  function Part(points: Option<int>): int {
    match points
    case None => 0
    case Some(n) => n
  }

  /** Waiting for somebody's mark, for the mark of its explanation, or for a validator that could not run. */
  predicate NotFinal(a: P1.Answered) {
    || (a.grading.Manual? && a.manual == None)
    || (a.explainPoints > 0 && a.explain == None)
    || (a.grading.ByValidator? && a.failed)
  }

  /** Both sections finished at this moment: the later of the presses there were. */
  predicate FinishedOn(p: P1.Person, t: Option<Time>) {
    match (p.puzzlesDone, p.hackingDone)
    case (None, None) => t == None
    case (Some(a), None) => t == Some(a)
    case (None, Some(b)) => t == Some(b)
    case (Some(a), Some(b)) => t.Some? && t.value >= a && t.value >= b && (t.value == a || t.value == b)
  }

  /** A line with no answers has the points of the hacks alone. */
  lemma FirstLineStarts(p: P1.Person, hacks: map<Pid, int>)
    ensures var line := P1.RowOf(p, [], hacks);
            && line.who == p.pid && line.name == p.name && line.disqualified == p.disqualified && line.rank == 0
            && line.points == (if p.pid in hacks then hacks[p.pid] else 0)
            && !line.provisional && FinishedOn(p, line.finished)
  {
  }

  /** One more answer of theirs adds the points of all its parts, and makes the line provisional if some part is not
      final; anybody else's changes nothing. */
  lemma FirstLineGains(p: P1.Person, answers: seq<P1.Answered>, a: P1.Answered, hacks: map<Pid, int>)
    ensures var before, after := P1.RowOf(p, answers, hacks), P1.RowOf(p, answers + [a], hacks);
            if a.who != p.pid then after == before
            else
              && after.points == before.points + Part(a.auto) + Part(a.manual) + Part(a.explain)
              && (after.provisional <==> before.provisional || NotFinal(a))
              && after.finished == before.finished && after.who == before.who && after.name == before.name
              && after.disqualified == before.disqualified && after.rank == before.rank
  {
    var all := answers + [a];
    assert all[..|answers|] == answers && all[|answers|] == a;
    P1.OneMoreAnswer(all, |answers|);
    assert all[..|answers| + 1] == all;
  }

  /** Lines as they are made: of one kind, and not numbered yet. */
  predicate OfKind(rows: seq<P1.Row>, disqualified: bool) {
    forall i :: 0 <= i < |rows| ==> rows[i].disqualified == disqualified && rows[i].rank == 0
  }

  lemma {:induction false} RowsKeepKind(people: seq<P1.Person>, answers: seq<P1.Answered>, hacks: map<Pid, int>, flag: bool)
    ensures OfKind(P1.RowsOf(people, answers, hacks, flag), flag)
  {
    if people != [] {
      RowsKeepKind(people[..|people| - 1], answers, hacks, flag);
    }
  }

  predicate NoneOut(rows: seq<P1.Row>) {
    forall i :: 0 <= i < |rows| ==> !rows[i].disqualified
  }

  lemma RankedAreFree(people: seq<P1.Person>, answers: seq<P1.Answered>, hacks: map<Pid, int>)
    ensures NoneOut(P1.Ranked(people, answers, hacks))
  {
    var rows := P1.RowsOf(people, answers, hacks, false);
    var sorted := Sorting.SortBy(P1.RowKey, rows);
    RowsKeepKind(people, answers, hacks, false);
    Sorting.SameBagSameElements(sorted, rows);
    hide P1.RowsOf;
    forall i | 0 <= i < |sorted|
      ensures !sorted[i].disqualified
    {
      assert sorted[i] in sorted;
    }
  }

  /** Somebody disqualified has no rank on the board, and stands below everybody who has one. */
  lemma DisqualifiedComeLast(people: seq<P1.Person>, answers: seq<P1.Answered>, hacks: map<Pid, int>, i: nat, j: nat)
    requires i < |P1.Board(people, answers, hacks)| && P1.Board(people, answers, hacks)[i].disqualified
    requires j < |P1.Board(people, answers, hacks)| && !P1.Board(people, answers, hacks)[j].disqualified
    ensures j < i && P1.Board(people, answers, hacks)[i].rank == 0 && P1.Board(people, answers, hacks)[j].rank == j + 1
  {
    var ranked, rest := P1.Ranked(people, answers, hacks), P1.RowsOf(people, answers, hacks, true);
    assert P1.Board(people, answers, hacks) == ranked + rest;
    RowsKeepKind(people, answers, hacks, true);
    RankedAreFree(people, answers, hacks);
    P1.RanksFollowTheRule(people, answers, hacks);
    hide P1.Ranked;
    hide P1.RowsOf;
    hide P1.Ahead;
  }

  // ----- names -----------------------------------------------------------------------------------------------

  /** Two names part at this place, where the first ends or has the lower letter. */
  predicate PartsAt(a: string, b: string, k: nat) {
    k <= |a| && k < |b| && a[..k] == b[..k] && (k == |a| || a[k] < b[k])
  }

  /** `a` comes before `b` in the dictionary. */
  ghost predicate Precedes(a: string, b: string) {
    exists k: nat :: PartsAt(a, b, k)
  }

  lemma PrecedesByHead(a: string, b: string)
    requires a != [] && b != []
    ensures Precedes(a, b) <==> a[0] < b[0] || (a[0] == b[0] && Precedes(a[1..], b[1..]))
  {
    if k: nat :| PartsAt(a, b, k) {
      if k > 0 {
        assert a[0] == a[..k][0] == b[..k][0] == b[0];
        assert a[1..][..k - 1] == a[..k][1..] && b[1..][..k - 1] == b[..k][1..];
        assert PartsAt(a[1..], b[1..], k - 1);
      }
    }
    if a[0] < b[0] {
      assert PartsAt(a, b, 0);
    }
    if a[0] == b[0] && Precedes(a[1..], b[1..]) {
      var k: nat :| PartsAt(a[1..], b[1..], k);
      assert a[..k + 1] == [a[0]] + a[1..][..k] && b[..k + 1] == [b[0]] + b[1..][..k];
      assert PartsAt(a, b, k + 1);
    }
  }

  /** The key the boards sort names by is the dictionary order. */
  lemma {:induction false} NameOrder(a: string, b: string)
    ensures P1.NameKey(a) == P1.NameKey(b) <==> a == b
    ensures Sorting.Less(P1.NameKey(a), P1.NameKey(b)) <==> Precedes(a, b)
  {
    var x, y := P1.NameKey(a), P1.NameKey(b);
    assert |x| == |a| && |y| == |b|;
    if a == [] && b != [] {
      assert PartsAt(a, b, 0);
    } else if a != [] && b != [] {
      NameOrder(a[1..], b[1..]);
      assert x[1..] == P1.NameKey(a[1..]) && y[1..] == P1.NameKey(b[1..]);
      assert a == [a[0]] + a[1..] && b == [b[0]] + b[1..];
      assert x == [a[0] as int] + x[1..] && y == [b[0] as int] + y[1..];
      PrecedesByHead(a, b);
      hide Precedes;
    }
  }

  lemma SortedInOrder<T(!new)>(key: T -> Sorting.Key, s: seq<T>, i: nat, j: nat)
    requires Sorting.Sorted(key, s) && i < |s| && j < |s| && Sorting.Less(key(s[i]), key(s[j]))
    ensures i < j
  {
    Sorting.LessIsTotal(key(s[i]), key(s[j]));
  }

  /** Two people level on points and finish are ranked by name. */
  lemma NamesSettleFirst(people: seq<P1.Person>, answers: seq<P1.Answered>, hacks: map<Pid, int>, i: nat, j: nat)
    requires i < |P1.Ranked(people, answers, hacks)| && j < |P1.Ranked(people, answers, hacks)|
    requires var ranked := P1.Ranked(people, answers, hacks);
             && ranked[i].points == ranked[j].points && ranked[i].finished == ranked[j].finished
             && Precedes(ranked[i].name, ranked[j].name)
    ensures P1.Ranked(people, answers, hacks)[i].rank < P1.Ranked(people, answers, hacks)[j].rank
  {
    var rows := P1.RowsOf(people, answers, hacks, false);
    var sorted := Sorting.SortBy(P1.RowKey, rows);
    Sorting.SortBySorts(P1.RowKey, rows);
    hide Sorting.SortBy;
    hide Sorting.Sorted;
    hide Sorting.Less;
    hide P1.RowsOf;
    hide Precedes;
    NameOrder(sorted[i].name, sorted[j].name);
    SameFront(sorted[i], sorted[j]);
    hide P1.RowKey;
    SortedInOrder(P1.RowKey, sorted, i, j);
  }

  lemma SameFront(a: P1.Row, b: P1.Row)
    requires a.points == b.points && a.finished == b.finished
    ensures Sorting.Less(P1.RowKey(a), P1.RowKey(b)) <==> Sorting.Less(P1.NameKey(a.name), P1.NameKey(b.name))
  {
    var front := [0 - a.points] + if a.finished.Some? then [0, a.finished.value] else [1, 0];
    Sorting.LessByParts(front, front, P1.NameKey(a.name), P1.NameKey(b.name));
    Sorting.LessIsTotal(front, front);
  }

  lemma SameTieFront(a: P2.Row, b: P2.Row)
    requires a.score == b.score && a.time == b.time && a.phase1 == b.phase1
    ensures Sorting.Less(P2.RowKey(a), P2.RowKey(b)) <==> Sorting.Less(P1.NameKey(a.name), P1.NameKey(b.name))
  {
    assert P2.TieKey(a) == P2.TieKey(b);
    Sorting.LessByParts(P2.TieKey(a), P2.TieKey(b), P1.NameKey(a.name), P1.NameKey(b.name));
    Sorting.LessIsTotal(P2.TieKey(a), P2.TieKey(b));
  }

  /** And lines level in everything that ranks them on the Phase 2 board stand in the order of their names. */
  lemma NamesSettleSecond(people: seq<P2.Person>, acs: seq<P2.Ac>, worth: Qid -> int, phase1: map<Pid, nat>, i: nat, j: nat)
    requires i < |P2.Board(people, acs, worth, phase1)| && j < |P2.Board(people, acs, worth, phase1)|
    requires var board := P2.Board(people, acs, worth, phase1);
             && board[i].score == board[j].score && board[i].time == board[j].time && board[i].phase1 == board[j].phase1
             && Precedes(board[i].name, board[j].name)
    ensures i < j
  {
    var rows := P2.RowsOf(people, acs, worth, phase1);
    var sorted := Sorting.SortBy(P2.RowKey, rows);
    Sorting.SortBySorts(P2.RowKey, rows);
    hide Sorting.SortBy;
    hide Sorting.Sorted;
    hide Sorting.Less;
    hide P2.RowsOf;
    hide P2.BetterThan;
    hide Precedes;
    NameOrder(sorted[i].name, sorted[j].name);
    SameTieFront(sorted[i], sorted[j]);
    hide P2.RowKey;
    SortedInOrder(P2.RowKey, sorted, i, j);
  }

  // ----- Phase 2 ---------------------------------------------------------------------------------------------

  /** With nothing solved a line has no score and no time. */
  lemma SecondLineStarts(p: P2.Person, worth: Qid -> int, phase1: map<Pid, nat>)
    ensures P2.RowOf(p, [], worth, phase1)
         == P2.Row(p.pid, p.name, 0, 0, 0, if p.pid in phase1 then Some(phase1[p.pid]) else None, 0)
  {
    assert P2.SolvedBy([], p.pid) == {};
  }

  predicate SolvedIn(acs: seq<P2.Ac>, who: Pid, q: Qid) {
    exists i :: 0 <= i < |acs| && acs[i].who == who && acs[i].question == q
  }

  /** The least time in which somebody solved a question: from when it was theirs to when they were accepted. */
  ghost predicate BestTime(acs: seq<P2.Ac>, who: Pid, q: Qid, ms: int) {
    && (forall i :: 0 <= i < |acs| && acs[i].who == who && acs[i].question == q ==> ms <= acs[i].at - acs[i].awarded)
    && exists i :: 0 <= i < |acs| && acs[i].who == who && acs[i].question == q && ms == acs[i].at - acs[i].awarded
  }

  lemma EarliestIsBest(acs: seq<P2.Ac>, who: Pid, q: Qid)
    ensures SolvedIn(acs, who, q) <==> P2.Earliest(acs, who, q).Some?
    ensures SolvedIn(acs, who, q) ==> BestTime(acs, who, q, P2.Earliest(acs, who, q).value)
    ensures q in P2.SolvedBy(acs, who) <==> SolvedIn(acs, who, q)
  {
    if i :| 0 <= i < |acs| && acs[i].who == who && acs[i].question == q {
      assert acs[i] in acs && P2.Solves(acs[i], who, q);
    }
  }

  /** One more acceptance of somebody else's changes nothing of a line. */
  lemma OthersSolveNothing(p: P2.Person, acs: seq<P2.Ac>, ac: P2.Ac, worth: Qid -> int, phase1: map<Pid, nat>)
    requires ac.who != p.pid
    ensures P2.RowOf(p, acs + [ac], worth, phase1) == P2.RowOf(p, acs, worth, phase1)
  {
    var all := acs + [ac];
    assert P2.SolvedBy(all, p.pid) == P2.SolvedBy(acs, p.pid);
    forall q
      ensures P2.Earliest(all, p.pid, q) == P2.Earliest(acs, p.pid, q)
    {
      assert all[..|acs|] == acs;
    }
    P2.SumAgrees(P2.SolvedBy(acs, p.pid), P2.MsOn(all, p.pid), P2.MsOn(acs, p.pid));
  }

  lemma PushedEarliest(acs: seq<P2.Ac>, ac: P2.Ac, who: Pid, q: Qid)
    ensures P2.Earliest(acs + [ac], who, q)
         == if ac.who == who && ac.question == q
               && (P2.Earliest(acs, who, q).None? || ac.at - ac.awarded < P2.Earliest(acs, who, q).value)
            then Some(ac.at - ac.awarded) else P2.Earliest(acs, who, q)
  {
    assert (acs + [ac])[..|acs|] == acs;
  }

  /** A first acceptance of a question adds what it is worth, one to the count, and the time from its being awarded to
      the acceptance. A further one adds nothing, and takes off what it is quicker by. */
  lemma SecondLineGains(p: P2.Person, acs: seq<P2.Ac>, ac: P2.Ac, worth: Qid -> int, phase1: map<Pid, nat>, best: int)
    requires ac.who == p.pid
    requires SolvedIn(acs, p.pid, ac.question) ==> BestTime(acs, p.pid, ac.question, best)
    ensures var before, after := P2.RowOf(p, acs, worth, phase1), P2.RowOf(p, acs + [ac], worth, phase1);
            && after.who == before.who && after.name == before.name && after.phase1 == before.phase1
            && var ms := ac.at - ac.awarded;
               if !SolvedIn(acs, p.pid, ac.question) then
                 && after.score == before.score + worth(ac.question) && after.solved == before.solved + 1
                 && after.time == before.time + ms
               else
                 && after.score == before.score && after.solved == before.solved
                 && after.time == before.time - if ms < best then best - ms else 0
  {
    var q, all, ms := ac.question, acs + [ac], ac.at - ac.awarded;
    var had, has := P2.SolvedBy(acs, p.pid), P2.SolvedBy(all, p.pid);
    EarliestIsBest(acs, p.pid, q);
    forall x
      ensures P2.MsOn(all, p.pid)(x) == if x == q && (q !in had || ms < P2.MsOn(acs, p.pid)(q)) then ms
                                        else P2.MsOn(acs, p.pid)(x)
    {
      PushedEarliest(acs, ac, p.pid, x);
      EarliestIsBest(acs, p.pid, x);
    }
    forall x
      ensures x in has <==> x in had || x == q
    {
      assert x in had ==> exists a :: a in acs && a.who == p.pid && a.question == x;
      assert ac in all;
    }
    assert has == had + {q};
    if q in had {
      assert P2.Earliest(acs, p.pid, q).value == best by { TwoBests(acs, p.pid, q, P2.Earliest(acs, p.pid, q).value, best); }
    }
    SumsGain(had, q, worth, P2.MsOn(acs, p.pid), P2.MsOn(all, p.pid));
    hide P2.SumOver;
    hide P2.MsOn;
    hide P2.SolvedBy;
  }

  lemma TwoBests(acs: seq<P2.Ac>, who: Pid, q: Qid, a: int, b: int)
    requires BestTime(acs, who, q, a) && BestTime(acs, who, q, b)
    ensures a == b
  {
  }

  lemma SumsGain(had: set<Qid>, q: Qid, worth: Qid -> int, f: Qid -> int, g: Qid -> int)
    requires forall x :: x in had && x != q ==> f(x) == g(x)
    ensures P2.SumOver(had + {q}, worth) == P2.SumOver(had, worth) + if q in had then 0 else worth(q)
    ensures P2.SumOver(had + {q}, g) == P2.SumOver(had, f) + if q in had then g(q) - f(q) else g(q)
  {
    P2.SumPick(had + {q}, worth, q);
    P2.SumPick(had + {q}, g, q);
    assert had + {q} - {q} == had - {q};
    if q in had {
      P2.SumPick(had, worth, q);
      P2.SumPick(had, f, q);
    } else {
      assert had - {q} == had;
    }
    P2.SumAgrees(had - {q}, f, g);
  }
}
