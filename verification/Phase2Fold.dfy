/** Computing the Phase 2 leaderboard from the rows as they are read. `coding/scoring.py` */
module Phase2Fold {
  import opened Common
  import opened Sorting
  import opened Phase2Board

  type Pair = (Pid, Qid)

  ghost predicate NoRepeats<T>(s: seq<T>) {
    forall i, j :: 0 <= i < j < |s| ==> s[i] != s[j]
  }

  // ----- the fold --------------------------------------------------------------------------------------

  /** The dictionary holds the earliest solve of every (participant, question) in the rows read. */
  ghost predicate HoldsEarliest(acs: seq<Ac>, worth: Qid -> int, best: map<Pair, Solve>) {
    forall who: Pid, q: Qid {:trigger Earliest(acs, who, q)} {:trigger (who, q) in best} ::
      && ((who, q) in best <==> Earliest(acs, who, q).Some?)
      && ((who, q) in best ==> best[(who, q)] == Solve(worth(q), Earliest(acs, who, q).value))
  }

  /** The dictionary's keys, in the order they were added. */
  ghost predicate KeysOf(keys: seq<Pair>, best: map<Pair, Solve>) {
    NoRepeats(keys) && forall key :: key in keys <==> key in best
  }

  lemma OneMoreAc(acs: seq<Ac>, i: nat, worth: Qid -> int, best: map<Pair, Solve>)
    requires i < |acs| && HoldsEarliest(acs[..i], worth, best)
    ensures var ac := acs[i];
            var key, solve := (ac.who, ac.question), Solve(worth(ac.question), SolveMs(ac));
            HoldsEarliest(acs[..i + 1], worth,
                          if key !in best || solve.ms < best[key].ms then best[key := solve] else best)
  {
    var ac := acs[i];
    var key, solve := (ac.who, ac.question), Solve(worth(ac.question), SolveMs(ac));
    var after := if key !in best || solve.ms < best[key].ms then best[key := solve] else best;
    forall who: Pid, q: Qid
      ensures (who, q) in after <==> Earliest(acs[..i + 1], who, q).Some?
      ensures (who, q) in after ==> after[(who, q)] == Solve(worth(q), Earliest(acs[..i + 1], who, q).value)
    {
      EarliestPush(acs, i, who, q);
      hide Earliest;
      assert (who, q) in best <==> Earliest(acs[..i], who, q).Some?;
    }
  }

  lemma EarliestPush(acs: seq<Ac>, i: nat, who: Pid, q: Qid)
    requires i < |acs|
    ensures var before, ac := Earliest(acs[..i], who, q), acs[i];
            Earliest(acs[..i + 1], who, q)
            == if Solves(ac, who, q) && (before.None? || SolveMs(ac) < before.value) then Some(SolveMs(ac)) else before
  {
    assert acs[..i + 1][..i] == acs[..i];
  }

  method EarliestSolves(acs: seq<Ac>, worth: Qid -> int) returns (keys: seq<Pair>, best: map<Pair, Solve>)
    ensures HoldsEarliest(acs, worth, best) && KeysOf(keys, best)
  {
    hide Earliest;
    keys, best := [], map[];
    NothingRead(worth);
    var i := 0;
    while i < |acs|
      invariant 0 <= i <= |acs|
      invariant HoldsEarliest(acs[..i], worth, best) && KeysOf(keys, best)
    {
      OneMoreAc(acs, i, worth, best);
      hide HoldsEarliest;
      var ac := acs[i];
      var key, solveMs := (ac.who, ac.question), SolveMs(ac);
      if key !in best || solveMs < best[key].ms {
        if key !in best {
          keys := keys + [key];
        }
        best := best[key := Solve(worth(ac.question), solveMs)];
      }
      i := i + 1;
    }
    assert acs[..i] == acs;
  }

  lemma NothingRead(worth: Qid -> int)
    ensures HoldsEarliest([], worth, map[])
  {
  }

  // ----- one list of solves for each participant -------------------------------------------------------

  function QuestionsOf(keys: seq<Pair>, who: Pid): seq<Qid> {
    if keys == [] then []
    else
      var n := |keys| - 1;
      QuestionsOf(keys[..n], who) + if keys[n].0 == who then [keys[n].1] else []
  }

  function SolvesOf(keys: seq<Pair>, best: map<Pair, Solve>, who: Pid): (solves: seq<Solve>)
    requires forall key :: key in keys ==> key in best
    ensures |solves| == |QuestionsOf(keys, who)|
  {
    if keys == [] then []
    else
      var n := |keys| - 1;
      SolvesOf(keys[..n], best, who) + if keys[n].0 == who then [best[keys[n]]] else []
  }

  lemma {:induction false} SolvesOfAre(keys: seq<Pair>, best: map<Pair, Solve>, who: Pid)
    requires NoRepeats(keys) && forall key :: key in keys ==> key in best
    ensures var qs, solves := QuestionsOf(keys, who), SolvesOf(keys, best, who);
            && NoRepeats(qs)
            && (forall q :: q in qs <==> (who, q) in keys)
            && forall i :: 0 <= i < |qs| ==> (who, qs[i]) in best && solves[i] == best[(who, qs[i])]
  {
    if keys != [] {
      var n := |keys| - 1;
      assert keys == keys[..n] + [keys[n]];
      SolvesOfAre(keys[..n], best, who);
      var front := QuestionsOf(keys[..n], who);
      if keys[n].0 == who {
        assert keys[n] !in keys[..n];
        assert keys[n].1 !in front;
      }
    }
  }

  lemma SolvesPush(keys: seq<Pair>, i: nat, best: map<Pair, Solve>)
    requires i < |keys| && forall key :: key in keys ==> key in best
    ensures keys[i] in best
    ensures forall who :: SolvesOf(keys[..i + 1], best, who)
                       == SolvesOf(keys[..i], best, who) + if keys[i].0 == who then [best[keys[i]]] else []
  {
    assert keys[..i + 1][..i] == keys[..i];
    assert keys[i] in keys;
  }

  function SetOf(qs: seq<Qid>): set<Qid> {
    set q | q in qs
  }

  /** The list has one solve for each question the participant solved, worth what it is worth and at its
      earliest time. `qs` says which is which. */
  ghost predicate ListsSolves(acs: seq<Ac>, worth: Qid -> int, who: Pid, list: seq<Solve>, qs: seq<Qid>) {
    && |qs| == |list| && NoRepeats(qs) && SetOf(qs) == SolvedBy(acs, who)
    && forall i :: 0 <= i < |qs| ==> list[i] == Solve(worth(qs[i]), MsOn(acs, who)(qs[i]))
  }

  ghost predicate OneForEach(acs: seq<Ac>, worth: Qid -> int, who: Pid, list: seq<Solve>) {
    exists qs :: ListsSolves(acs, worth, who, list, qs)
  }

  lemma SolvesAreEarliest(acs: seq<Ac>, worth: Qid -> int, keys: seq<Pair>, best: map<Pair, Solve>, who: Pid)
    requires HoldsEarliest(acs, worth, best) && KeysOf(keys, best)
    ensures var qs, solves := QuestionsOf(keys, who), SolvesOf(keys, best, who);
            forall i :: 0 <= i < |qs| ==> solves[i] == Solve(worth(qs[i]), MsOn(acs, who)(qs[i]))
  {
    SolvesOfAre(keys, best, who);
    hide SolvesOf;
    hide QuestionsOf;
    var qs, solves := QuestionsOf(keys, who), SolvesOf(keys, best, who);
    forall i | 0 <= i < |qs|
      ensures solves[i] == Solve(worth(qs[i]), MsOn(acs, who)(qs[i]))
    {
      assert (who, qs[i]) in best;
    }
  }

  lemma SolvedInFold(acs: seq<Ac>, worth: Qid -> int, keys: seq<Pair>, best: map<Pair, Solve>, who: Pid, qs: seq<Qid>)
    requires HoldsEarliest(acs, worth, best) && KeysOf(keys, best)
    requires forall q :: q in qs <==> (who, q) in keys
    ensures SetOf(qs) == SolvedBy(acs, who)
  {
    forall q
      ensures q in qs <==> q in SolvedBy(acs, who)
    {
      assert (who, q) in best <==> Earliest(acs, who, q).Some?;
      if q in SolvedBy(acs, who) {
        var ac :| ac in acs && ac.who == who && ac.question == q;
        assert Solves(ac, who, q);
      }
    }
  }

  lemma FoldListsSolves(acs: seq<Ac>, worth: Qid -> int, keys: seq<Pair>, best: map<Pair, Solve>, who: Pid)
    requires HoldsEarliest(acs, worth, best) && KeysOf(keys, best)
    ensures OneForEach(acs, worth, who, SolvesOf(keys, best, who))
  {
    var qs := QuestionsOf(keys, who);
    SolvesOfAre(keys, best, who);
    SolvesAreEarliest(acs, worth, keys, best, who);
    SolvedInFold(acs, worth, keys, best, who, qs);
    hide HoldsEarliest;
    hide SetOf;
    assert ListsSolves(acs, worth, who, SolvesOf(keys, best, who), qs);
  }

  function ListFor(out: map<Pid, seq<Solve>>, who: Pid): seq<Solve> {
    if who in out then out[who] else []
  }

  /** Per participant, one solve per question: their earliest. */
  method FirstSolves(acs: seq<Ac>, worth: Qid -> int) returns (out: map<Pid, seq<Solve>>)
    ensures forall who :: OneForEach(acs, worth, who, ListFor(out, who))
  {
    hide HoldsEarliest;
    hide QuestionsOf;
    hide OneForEach;
    var order: seq<Pair>, earliest: map<Pair, Solve> := EarliestSolves(acs, worth);
    out := map[];
    var i := 0;
    while i < |order|
      invariant 0 <= i <= |order|
      invariant forall who :: ListFor(out, who) == SolvesOf(order[..i], earliest, who)
    {
      SolvesPush(order, i, earliest);
      hide SolvesOf;
      var who := order[i].0;
      ghost var before := out;
      out := out[who := ListFor(out, who) + [earliest[order[i]]]];
      forall w
        ensures ListFor(out, w) == SolvesOf(order[..i + 1], earliest, w)
      {
        assert ListFor(before, w) == SolvesOf(order[..i], earliest, w);
      }
      i := i + 1;
    }
    assert order[..i] == order;
    forall who
      ensures OneForEach(acs, worth, who, ListFor(out, who))
    {
      FoldListsSolves(acs, worth, order, earliest, who);
    }
  }

  // ----- a line of the board ------------------------------------------------------------------------------

  function Scores(solves: seq<Solve>): int {
    if solves == [] then 0 else Scores(solves[..|solves| - 1]) + solves[|solves| - 1].score
  }

  function Times(solves: seq<Solve>): int {
    if solves == [] then 0 else Times(solves[..|solves| - 1]) + solves[|solves| - 1].ms
  }

  lemma SetOfPush(qs: seq<Qid>)
    requires qs != [] && NoRepeats(qs)
    ensures var q, front := qs[|qs| - 1], qs[..|qs| - 1];
            q in SetOf(qs) && SetOf(front) == SetOf(qs) - {q} && |SetOf(qs)| == |SetOf(front)| + 1 && NoRepeats(front)
  {
    var q, front := qs[|qs| - 1], qs[..|qs| - 1];
    assert qs == front + [q] && q !in front;
    assert SetOf(qs) == SetOf(front) + {q};
  }

  lemma {:induction false} SumsAgree(solves: seq<Solve>, qs: seq<Qid>, f: Qid -> int, g: Qid -> int)
    requires |qs| == |solves| && NoRepeats(qs)
    requires forall i :: 0 <= i < |qs| ==> solves[i] == Solve(f(qs[i]), g(qs[i]))
    ensures SumOver(SetOf(qs), f) == Scores(solves)
    ensures SumOver(SetOf(qs), g) == Times(solves)
    ensures |SetOf(qs)| == |qs|
  {
    if qs == [] {
      assert SetOf(qs) == {};
    } else {
      var n := |qs| - 1;
      SetOfPush(qs);
      SumsAgree(solves[..n], qs[..n], f, g);
      hide SetOf;
      SumPick(SetOf(qs), f, qs[n]);
      SumPick(SetOf(qs), g, qs[n]);
      hide SumOver;
    }
  }

  /** The line such a list gives is the line the rules ask for. */
  lemma LineAgrees(p: Person, acs: seq<Ac>, worth: Qid -> int, phase1: map<Pid, nat>, solves: seq<Solve>)
    requires OneForEach(acs, worth, p.pid, solves)
    ensures RowOf(p, acs, worth, phase1)
         == Row(p.pid, p.name, Scores(solves), |solves|, Times(solves),
                if p.pid in phase1 then Some(phase1[p.pid]) else None, 0)
  {
    var qs :| ListsSolves(acs, worth, p.pid, solves, qs);
    hide SetOf;
    SumsAgree(solves, qs, worth, MsOn(acs, p.pid));
  }

  method Standing(p: Person, solves: seq<Solve>, phase1: Option<nat>) returns (row: Row)
    ensures row == Row(p.pid, p.name, Scores(solves), |solves|, Times(solves), phase1, 0)
  {
    var score, time, i := 0, 0, 0;
    while i < |solves|
      invariant 0 <= i <= |solves| && score == Scores(solves[..i]) && time == Times(solves[..i])
    {
      assert solves[..i + 1][..i] == solves[..i];
      score, time := score + solves[i].score, time + solves[i].ms;
      i := i + 1;
    }
    assert solves[..i] == solves;
    row := Row(p.pid, p.name, score, |solves|, time, phase1, 0);
  }

  method Lines(people: seq<Person>, acs: seq<Ac>, worth: Qid -> int, phase1: map<Pid, nat>) returns (rows: seq<Row>)
    ensures rows == RowsOf(people, acs, worth, phase1)
  {
    hide RowOf;
    hide OneForEach;
    hide Scores;
    hide Times;
    var firstSolves := FirstSolves(acs, worth);
    rows := [];
    var i := 0;
    while i < |people|
      invariant 0 <= i <= |people| && |rows| == i
      invariant forall k :: 0 <= k < i ==> rows[k] == RowOf(people[k], acs, worth, phase1)
    {
      var p := people[i];
      var solves := ListFor(firstSolves, p.pid);
      LineAgrees(p, acs, worth, phase1, solves);
      var row := Standing(p, solves, if p.pid in phase1 then Some(phase1[p.pid]) else None);
      rows := rows + [row];
      i := i + 1;
    }
  }

  /** The whole board, from rows read in any order. */
  method Standings(people: seq<Person>, acs: seq<Ac>, worth: Qid -> int, phase1: map<Pid, nat>) returns (board: seq<Row>)
    ensures board == Board(people, acs, worth, phase1)
  {
    hide RowsOf;
    hide RowKey;
    hide SortBy;
    hide WithRanks;
    var rows := Lines(people, acs, worth, phase1);
    SortBySorts(RowKey, rows);
    var sorted := SortBy(RowKey, rows);
    var table := new Row[|sorted|](k requires 0 <= k < |sorted| => sorted[k]);
    assert table[..] == sorted;
    AssignRanks(table);
    board := table[..];
  }
}
