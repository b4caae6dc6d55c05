/** The two leaderboards together: Phase 1 ranks break Phase 2's last ties. */
module BothBoards {
  import opened Common
  import opened Sorting
  import P1 = Phase1Board
  import P2 = Phase2Board

  /** Each participant's rank on the Phase 1 board; 0 for the disqualified. */
  function RankMap(board: seq<P1.Row>): map<Pid, nat> {
    if board == [] then map[]
    else
      var n := |board| - 1;
      RankMap(board[..n])[board[n].who := board[n].rank]
  }

  ghost predicate NamesEachOnce(board: seq<P1.Row>) {
    forall i, j :: 0 <= i < j < |board| ==> board[i].who != board[j].who
  }

  lemma {:induction false} RankMapAt(board: seq<P1.Row>, i: nat)
    requires i < |board| && NamesEachOnce(board)
    ensures board[i].who in RankMap(board) && RankMap(board)[board[i].who] == board[i].rank
  {
    var n := |board| - 1;
    if i < n {
      RankMapAt(board[..n], i);
    }
  }

  function WhoKey(r: P1.Row): Key {
    [r.who]
  }

  ghost predicate Among(people: seq<P1.Person>, who: Pid, disqualified: bool) {
    exists i :: 0 <= i < |people| && people[i].pid == who && people[i].disqualified == disqualified
  }

  ghost predicate Listed(rows: seq<P1.Row>, who: Pid) {
    exists i :: 0 <= i < |rows| && rows[i].who == who
  }

  ghost predicate OwnPids(people: seq<P1.Person>) {
    forall i, j :: 0 <= i < j < |people| ==> people[i].pid != people[j].pid
  }

  lemma {:induction false} ListedIff(people: seq<P1.Person>, answers: seq<P1.Answered>, hacks: map<Pid, int>,
                                     flag: bool, who: Pid)
    ensures Listed(P1.RowsOf(people, answers, hacks, flag), who) <==> Among(people, who, flag)
  {
    if people != [] {
      hide P1.RowOf;
      var n := |people| - 1;
      ListedIff(people[..n], answers, hacks, flag, who);
      var before, rows := P1.RowsOf(people[..n], answers, hacks, flag), P1.RowsOf(people, answers, hacks, flag);
      LineIsTheirs(people[n], answers, hacks);
      if people[n].pid == who && people[n].disqualified == flag {
        assert rows[|before|].who == who;
        assert people[n].pid == who;
      }
      if Among(people[..n], who, flag) {
        var i :| 0 <= i < n && people[..n][i].pid == who && people[..n][i].disqualified == flag;
        assert people[i].pid == who;
        var k :| 0 <= k < |before| && before[k].who == who;
        assert rows[k].who == who;
      }
    }
  }

  lemma LineIsTheirs(p: P1.Person, answers: seq<P1.Answered>, hacks: map<Pid, int>)
    ensures P1.RowOf(p, answers, hacks).who == p.pid
  {
  }

  lemma {:induction false} LinesApart(people: seq<P1.Person>, answers: seq<P1.Answered>, hacks: map<Pid, int>, flag: bool)
    requires OwnPids(people)
    ensures DistinctKeys(WhoKey, P1.RowsOf(people, answers, hacks, flag))
  {
    if people != [] {
      hide P1.RowOf;
      var n := |people| - 1;
      LinesApart(people[..n], answers, hacks, flag);
      LineIsTheirs(people[n], answers, hacks);
      var before := P1.RowsOf(people[..n], answers, hacks, flag);
      forall i | 0 <= i < |before|
        ensures before[i].who != people[n].pid
      {
        assert Listed(before, before[i].who);
        ListedIff(people[..n], answers, hacks, flag, before[i].who);
      }
    }
  }

  /** Sorting and numbering lose nobody and repeat nobody. */
  lemma RankedNamesEachOnce(people: seq<P1.Person>, answers: seq<P1.Answered>, hacks: map<Pid, int>)
    requires OwnPids(people)
    ensures var ranked := P1.Ranked(people, answers, hacks);
            && DistinctKeys(WhoKey, ranked)
            && forall who :: Listed(ranked, who) <==> Among(people, who, false)
  {
    var rows := P1.RowsOf(people, answers, hacks, false);
    var sorted := SortBy(P1.RowKey, rows);
    var ranked := P1.Ranked(people, answers, hacks);
    hide SortBy;
    hide P1.RowsOf;
    LinesApart(people, answers, hacks, false);
    DistinctInAnyOrder(WhoKey, rows, sorted);
    SameBagSameElements(sorted, rows);
    forall i, j | 0 <= i < j < |ranked|
      ensures WhoKey(ranked[i]) != WhoKey(ranked[j])
    {
      assert WhoKey(sorted[i]) != WhoKey(sorted[j]);
    }
    forall who
      ensures Listed(ranked, who) <==> Among(people, who, false)
    {
      ListedIff(people, answers, hacks, false, who);
      ListedInAnyOrder(sorted, rows, who);
      assert Listed(ranked, who) <==> Listed(sorted, who) by {
        assert forall i :: 0 <= i < |ranked| ==> ranked[i].who == sorted[i].who;
      }
    }
  }

  lemma ListedInAnyOrder(s: seq<P1.Row>, t: seq<P1.Row>, who: Pid)
    requires forall r :: r in s <==> r in t
    ensures Listed(s, who) <==> Listed(t, who)
  {
    if i :| 0 <= i < |s| && s[i].who == who {
      assert s[i] in t;
    }
    if i :| 0 <= i < |t| && t[i].who == who {
      assert t[i] in s;
    }
  }

  lemma BoardNamesEachOnce(people: seq<P1.Person>, answers: seq<P1.Answered>, hacks: map<Pid, int>)
    requires OwnPids(people)
    ensures NamesEachOnce(P1.Board(people, answers, hacks))
  {
    var ranked, rest := P1.Ranked(people, answers, hacks), P1.RowsOf(people, answers, hacks, true);
    var board := P1.Board(people, answers, hacks);
    assert board == ranked + rest;
    hide P1.Ranked;
    hide P1.RowsOf;
    RankedNamesEachOnce(people, answers, hacks);
    LinesApart(people, answers, hacks, true);
    forall i, j | 0 <= i < j < |board|
      ensures board[i].who != board[j].who
    {
      if j < |ranked| {
        assert WhoKey(ranked[i]) != WhoKey(ranked[j]);
      } else if i >= |ranked| {
        assert WhoKey(rest[i - |ranked|]) != WhoKey(rest[j - |ranked|]);
      } else if board[i].who == board[j].who {
        var who := board[i].who;
        assert Listed(ranked, who) && rest[j - |ranked|].who == who;
        ListedIff(people, answers, hacks, true, who);
        assert Among(people, who, false) && Among(people, who, true);
        NotBoth(people, who);
      }
    }
  }

  lemma NotBoth(people: seq<P1.Person>, who: Pid)
    requires OwnPids(people)
    ensures !(Among(people, who, false) && Among(people, who, true))
  {
  }

  /** The participant's rank is their place on the board. */
  ghost predicate OwnPlace(board: seq<P1.Row>, phase1: map<Pid, nat>, who: Pid) {
    who in phase1 && 1 <= phase1[who] <= |board| && board[phase1[who] - 1].who == who
  }

  lemma PlaceIsRank(ranked: seq<P1.Row>, rest: seq<P1.Row>, who: Pid)
    requires Listed(ranked, who)
    requires NamesEachOnce(ranked + rest)
    requires forall i :: 0 <= i < |ranked| ==> ranked[i].rank == i + 1
    ensures OwnPlace(ranked + rest, RankMap(ranked + rest), who)
  {
    var i :| 0 <= i < |ranked| && ranked[i].who == who;
    assert (ranked + rest)[i] == ranked[i];
    RankMapAt(ranked + rest, i);
  }

  lemma RanksCount(people: seq<P1.Person>, answers: seq<P1.Answered>, hacks: map<Pid, int>)
    ensures var ranked := P1.Ranked(people, answers, hacks);
            forall i :: 0 <= i < |ranked| ==> ranked[i].rank == i + 1
  {
    P1.RanksFollowTheRule(people, answers, hacks);
  }

  lemma RankedAreListed(people: seq<P1.Person>, answers: seq<P1.Answered>, hacks: map<Pid, int>, who: Pid)
    requires OwnPids(people) && Among(people, who, false)
    ensures Listed(P1.Ranked(people, answers, hacks), who)
  {
    RankedNamesEachOnce(people, answers, hacks);
  }

  lemma HasOwnPlace(people: seq<P1.Person>, answers: seq<P1.Answered>, hacks: map<Pid, int>, who: Pid)
    requires OwnPids(people) && Among(people, who, false)
    ensures var board := P1.Board(people, answers, hacks);
            OwnPlace(board, RankMap(board), who)
  {
    hide P1.Ranked;
    hide P1.RowsOf;
    hide OwnPids;
    hide Among;
    hide Listed;
    hide OwnPlace;
    hide RankMap;
    hide NamesEachOnce;
    BoardNamesEachOnce(people, answers, hacks);
    RankedAreListed(people, answers, hacks, who);
    RanksCount(people, answers, hacks);
    PlaceIsRank(P1.Ranked(people, answers, hacks), P1.RowsOf(people, answers, hacks, true), who);
  }

  /** Everybody not disqualified has a Phase 1 rank of their own. */
  lemma RanksAreApart(everyone: seq<P1.Person>, answers: seq<P1.Answered>, hacks: map<Pid, int>, people: seq<P2.Person>)
    requires OwnPids(everyone)
    requires forall i, j :: 0 <= i < j < |people| ==> people[i].pid != people[j].pid
    requires forall p :: p in people ==> Among(everyone, p.pid, false)
    ensures P2.RankedApart(people, RankMap(P1.Board(everyone, answers, hacks)))
  {
    var first := P1.Board(everyone, answers, hacks);
    var phase1 := RankMap(first);
    hide P1.Board;
    hide RankMap;
    forall p | p in people
      ensures OwnPlace(first, phase1, p.pid)
    {
      HasOwnPlace(everyone, answers, hacks, p.pid);
    }
    forall i, j | 0 <= i < j < |people|
      ensures phase1[people[i].pid] != phase1[people[j].pid]
    {
      assert people[i] in people && people[j] in people;
      assert OwnPlace(first, phase1, people[i].pid) && OwnPlace(first, phase1, people[j].pid);
    }
  }

  /** Whatever the scores, Phase 2 ranks are exactly 1 to n. */
  lemma Phase2RanksAreOneToN(everyone: seq<P1.Person>, answers: seq<P1.Answered>, hacks: map<Pid, int>,
                             people: seq<P2.Person>, acs: seq<P2.Ac>, worth: Qid -> int)
    requires OwnPids(everyone)
    requires forall i, j :: 0 <= i < j < |people| ==> people[i].pid != people[j].pid
    requires forall p :: p in people ==> Among(everyone, p.pid, false)
    ensures var board := P2.Board(people, acs, worth, RankMap(P1.Board(everyone, answers, hacks)));
            |board| == |people| && forall i :: 0 <= i < |board| ==> board[i].rank == i + 1
  {
    RanksAreApart(everyone, answers, hacks, people);
    P2.RanksAreOneToN(people, acs, worth, RankMap(P1.Board(everyone, answers, hacks)));
  }

  // ----- people disqualified between the two queries ----------------------------------------------------------

  predicate NoneRanked(rows: seq<P1.Row>) {
    forall i :: 0 <= i < |rows| ==> rows[i].rank == 0
  }

  lemma {:induction false} UnrankedRowsHaveNone(people: seq<P1.Person>, answers: seq<P1.Answered>, hacks: map<Pid, int>)
    ensures NoneRanked(P1.RowsOf(people, answers, hacks, true))
  {
    if people != [] {
      UnrankedRowsHaveNone(people[..|people| - 1], answers, hacks);
    }
  }

  /** The disqualified are all given rank 0, ahead of every rank there is. */
  lemma DisqualifiedRankIsZero(everyone: seq<P1.Person>, answers: seq<P1.Answered>, hacks: map<Pid, int>, who: Pid)
    requires OwnPids(everyone) && Among(everyone, who, true)
    ensures var phase1 := RankMap(P1.Board(everyone, answers, hacks));
            who in phase1 && phase1[who] == 0
  {
    var ranked, rest := P1.Ranked(everyone, answers, hacks), P1.RowsOf(everyone, answers, hacks, true);
    hide P1.RowsOf;
    hide OwnPids;
    UnrankedRowsHaveNone(everyone, answers, hacks);
    ListedIff(everyone, answers, hacks, true, who);
    BoardNamesEachOnce(everyone, answers, hacks);
    hide Among;
    hide P1.Ranked;
    ZeroPlace(ranked, rest, who);
  }

  lemma ZeroPlace(ranked: seq<P1.Row>, rest: seq<P1.Row>, who: Pid)
    requires Listed(rest, who) && NoneRanked(rest) && NamesEachOnce(ranked + rest)
    ensures who in RankMap(ranked + rest) && RankMap(ranked + rest)[who] == 0
  {
    hide RankMap;
    var i :| 0 <= i < |rest| && rest[i].who == who;
    assert (ranked + rest)[|ranked| + i] == rest[i];
    RankMapAt(ranked + rest, |ranked| + i);
  }

  /** Somebody's score and time are another's. */
  ghost predicate LevelOnPoints(p: P2.Person, q: P2.Person, acs: seq<P2.Ac>, worth: Qid -> int) {
    var a, b := P2.RowOf(p, acs, worth, map[]), P2.RowOf(q, acs, worth, map[]);
    a.score == b.score && a.time == b.time
  }

  /** Two people of the board, both disqualified by the time the Phase 1 board was read, level on score and time. */
  ghost predicate OutAndLevel(everyone: seq<P1.Person>, people: seq<P2.Person>, acs: seq<P2.Ac>, worth: Qid -> int,
                              i: nat, j: nat) {
    && i < j < |people|
    && Among(everyone, people[i].pid, true) && Among(everyone, people[j].pid, true)
    && LevelOnPoints(people[i], people[j], acs, worth)
  }

  lemma SameTieIff(everyone: seq<P1.Person>, answers: seq<P1.Answered>, hacks: map<Pid, int>,
                   people: seq<P2.Person>, acs: seq<P2.Ac>, worth: Qid -> int, i: nat, j: nat)
    requires OwnPids(everyone) && i < j < |people| && people[i].pid != people[j].pid
    requires Among(everyone, people[i].pid, false) || Among(everyone, people[i].pid, true)
    requires Among(everyone, people[j].pid, false) || Among(everyone, people[j].pid, true)
    ensures var rows := P2.RowsOf(people, acs, worth, RankMap(P1.Board(everyone, answers, hacks)));
            P2.TieKey(rows[i]) == P2.TieKey(rows[j]) <==> OutAndLevel(everyone, people, acs, worth, i, j)
  {
    var phase1 := RankMap(P1.Board(everyone, answers, hacks));
    var rows := P2.RowsOf(people, acs, worth, phase1);
    RankTells(everyone, answers, hacks, people[i].pid);
    RankTells(everyone, answers, hacks, people[j].pid);
    hide P1.Board;
    hide RankMap;
    hide Among;
    hide OwnPids;
    RankAside(people[i], acs, worth, phase1);
    RankAside(people[j], acs, worth, phase1);
    P2.BetterMeans(rows[i], rows[j]);
    hide P2.TieKey;
    hide P2.Better;
    hide P2.RowOf;
    hide OwnPlace;
    assert phase1[people[i].pid] > 0 ==> OwnPlace(P1.Board(everyone, answers, hacks), phase1, people[i].pid);
    if phase1[people[i].pid] == phase1[people[j].pid] > 0 {
      SamePlaceSamePerson(P1.Board(everyone, answers, hacks), phase1, people[i].pid, people[j].pid);
    }
  }

  lemma SamePlaceSamePerson(board: seq<P1.Row>, phase1: map<Pid, nat>, a: Pid, b: Pid)
    requires OwnPlace(board, phase1, a) && OwnPlace(board, phase1, b) && phase1[a] == phase1[b]
    ensures a == b
  {
  }

  /** The Phase 1 rank is a column of its own: the rest of a line does without it. */
  lemma RankAside(p: P2.Person, acs: seq<P2.Ac>, worth: Qid -> int, phase1: map<Pid, nat>)
    requires p.pid in phase1
    ensures P2.RowOf(p, acs, worth, phase1) == P2.RowOf(p, acs, worth, map[]).(phase1 := Some(phase1[p.pid]))
  {
  }

  /** A rank of 0 tells the disqualified from the rest; any other tells whose it is. */
  lemma RankTells(everyone: seq<P1.Person>, answers: seq<P1.Answered>, hacks: map<Pid, int>, who: Pid)
    requires OwnPids(everyone) && (Among(everyone, who, false) || Among(everyone, who, true))
    ensures var board := P1.Board(everyone, answers, hacks);
            var phase1 := RankMap(board);
            && who in phase1 && (phase1[who] == 0 <==> Among(everyone, who, true))
            && (phase1[who] > 0 ==> OwnPlace(board, phase1, who))
  {
    if Among(everyone, who, true) {
      DisqualifiedRankIsZero(everyone, answers, hacks, who);
    } else {
      HasOwnPlace(everyone, answers, hacks, who);
    }
    hide P1.Board;
    hide RankMap;
    hide Among;
  }

  /** The people of the Phase 2 board are read before the Phase 1 board, which may find some of them disqualified
      meanwhile: Phase 2 ranks are exactly 1 to n if and only if no two of those are level on score and time. */
  lemma Phase2RanksAreOneToNIff(everyone: seq<P1.Person>, answers: seq<P1.Answered>, hacks: map<Pid, int>,
                                people: seq<P2.Person>, acs: seq<P2.Ac>, worth: Qid -> int)
    requires OwnPids(everyone)
    requires forall i, j :: 0 <= i < j < |people| ==> people[i].pid != people[j].pid
    requires forall p :: p in people ==> Among(everyone, p.pid, false) || Among(everyone, p.pid, true)
    ensures var board := P2.Board(people, acs, worth, RankMap(P1.Board(everyone, answers, hacks)));
            |board| == |people|
            && ((forall i :: 0 <= i < |board| ==> board[i].rank == i + 1) <==>
                  forall i, j :: !OutAndLevel(everyone, people, acs, worth, i, j))
  {
    var phase1 := RankMap(P1.Board(everyone, answers, hacks));
    var rows := P2.RowsOf(people, acs, worth, phase1);
    P2.RanksAreOneToNIff(people, acs, worth, phase1);
    hide P1.Board;
    hide P2.Board;
    hide RankMap;
    hide P2.TieKey;
    forall i, j | 0 <= i < j < |people|
      ensures P2.TieKey(rows[i]) == P2.TieKey(rows[j]) <==> OutAndLevel(everyone, people, acs, worth, i, j)
    {
      assert people[i] in people && people[j] in people;
      SameTieIff(everyone, answers, hacks, people, acs, worth, i, j);
    }
    hide Among;
    hide OwnPids;
  }
}
