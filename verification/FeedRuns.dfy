/** Delivery: every change a page may hear of is in the state it read or in an event it got, once, in order. */
module FeedRuns {
  import opened Common
  import opened Feed

  // ----- what a viewer should have been sent ---------------------------------------------------

  /** Every event ever committed after `lo` and up to `hi` that a viewer may see, in id order. */
  function Due(log: seq<Event>, lo: nat, hi: nat, viewer: Pid): seq<Event> {
    Rows(log, {}, lo, hi, viewer)
  }

  lemma {:induction false} RowsIff(log: seq<Event>, gone: set<nat>, lo: nat, hi: nat, viewer: Pid, e: Event)
    ensures e in Rows(log, gone, lo, hi, viewer) <==> e in log && lo < e.id <= hi && e.id !in gone && VisibleTo(e, viewer)
  {
    if log != [] {
      var n := |log| - 1;
      assert log == log[..n] + [log[n]];
      RowsIff(log[..n], gone, lo, hi, viewer, e);
    }
  }

  lemma DueIff(log: seq<Event>, lo: nat, hi: nat, viewer: Pid, e: Event)
    ensures e in Due(log, lo, hi, viewer) <==> e in log && lo < e.id <= hi && VisibleTo(e, viewer)
  {
    RowsIff(log, {}, lo, hi, viewer, e);
  }

  /** Each once, in id order. */
  lemma {:induction false} DueIncreases(log: seq<Event>, lo: nat, hi: nat, viewer: Pid)
    requires IdsIncrease(log)
    ensures IdsIncrease(Due(log, lo, hi, viewer))
  {
    if log != [] {
      var n := |log| - 1;
      DueIncreases(log[..n], lo, hi, viewer);
      var due := Due(log[..n], lo, hi, viewer);
      forall i | 0 <= i < |due|
        ensures due[i].id < log[n].id
      {
        DueIff(log[..n], lo, hi, viewer, due[i]);
        assert due[i] in due;
      }
    }
  }

  lemma {:induction false} NoneDue(log: seq<Event>, lo: nat, hi: nat, viewer: Pid)
    requires forall e :: e in log ==> e.id <= lo || hi < e.id
    ensures Due(log, lo, hi, viewer) == []
  {
    if log != [] {
      var n := |log| - 1;
      assert log == log[..n] + [log[n]];
      NoneDue(log[..n], lo, hi, viewer);
    }
  }

  /** Two stretches one after the other are one stretch. */
  lemma {:induction false} DueJoins(log: seq<Event>, lo: nat, mid: nat, hi: nat, viewer: Pid)
    requires IdsIncrease(log) && lo <= mid <= hi
    ensures Due(log, lo, mid, viewer) + Due(log, mid, hi, viewer) == Due(log, lo, hi, viewer)
  {
    if log != [] {
      var n := |log| - 1;
      assert log == log[..n] + [log[n]];
      DueJoins(log[..n], lo, mid, hi, viewer);
      if log[n].id <= mid {
        NoneDue(log[..n], mid, hi, viewer);
      }
    }
  }

  lemma DueAppend(log: seq<Event>, e: Event, lo: nat, hi: nat, viewer: Pid)
    requires hi < e.id
    ensures Due(log + [e], lo, hi, viewer) == Due(log, lo, hi, viewer)
  {
    assert (log + [e])[..|log|] == log;
  }

  /** A read of the table is complete when nothing it should return has been pruned. */
  lemma {:induction false} NothingPrunedNothingMissed(log: seq<Event>, gone: set<nat>, lo: nat, hi: nat, viewer: Pid)
    requires forall e :: e in log && lo < e.id <= hi && VisibleTo(e, viewer) ==> e.id !in gone
    ensures Rows(log, gone, lo, hi, viewer) == Due(log, lo, hi, viewer)
  {
    if log != [] {
      var n := |log| - 1;
      assert log == log[..n] + [log[n]];
      NothingPrunedNothingMissed(log[..n], gone, lo, hi, viewer);
    }
  }

  /** Nothing a viewer may see in a stretch has been pruned. */
  ghost predicate AllKept(log: seq<Event>, gone: set<nat>, lo: nat, hi: nat, viewer: Pid) {
    forall e :: e in log && lo < e.id <= hi && VisibleTo(e, viewer) ==> e.id !in gone
  }

  /** And complete only then. */
  lemma RowsAreDueIff(log: seq<Event>, gone: set<nat>, lo: nat, hi: nat, viewer: Pid)
    ensures Rows(log, gone, lo, hi, viewer) == Due(log, lo, hi, viewer) <==> AllKept(log, gone, lo, hi, viewer)
  {
    if AllKept(log, gone, lo, hi, viewer) {
      NothingPrunedNothingMissed(log, gone, lo, hi, viewer);
    } else {
      var e :| e in log && lo < e.id <= hi && VisibleTo(e, viewer) && e.id in gone;
      DueIff(log, lo, hi, viewer, e);
      RowsIff(log, gone, lo, hi, viewer, e);
    }
  }

  // ----- the invariant ------------------------------------------------------------------------------

  /** Ids below this are settled: committed, pruned, or never to be. */
  function Horizon(w: World): nat {
    if w.writer.Some? then w.writer.value.id else w.nextId
  }

  ghost predicate FeedOk(w: World) {
    && IdsIncrease(w.log)
    && (forall e :: e in w.log ==> 1 <= e.id < Horizon(w) && e.change in w.changes)
    && (w.writer.Some? ==> 1 <= w.writer.value.id < w.nextId && w.writer.value.change in w.changes)
    && w.nextId >= 1
    && (forall id :: id in w.gone ==> id < Horizon(w))
  }

  /** Pruning so far took the oldest part, and still will. */
  ghost predicate PruneOk(w: World) {
    && OldestGone(w.log, w.gone)
    && CreatedInOrder(w.log)
    && (w.writer.Some? ==> forall e :: e in w.log ==> e.created <= w.writer.value.created)
  }

  /** What was published up to where the page began is in the state it read. */
  ghost predicate SnapshotOk(w: World, p: Page) {
    && p.snapshot <= w.changes
    && forall e :: e in w.log && e.id <= p.start && VisibleTo(e, p.viewer) ==> e.change in p.snapshot
  }

  /** The page got exactly what was due since then: every visible event once, in order. */
  ghost predicate GotOk(w: World, p: Page) {
    p.start <= p.cursor < Horizon(w) && p.got == Due(w.log, p.start, p.cursor, p.viewer)
  }

  ghost predicate AnswerOk(w: World, p: Page, answer: Answer) {
    && p.cursor <= answer.cursor < Horizon(w)
    && (!answer.reset ==> answer.events == Due(w.log, p.cursor, answer.cursor, p.viewer))
  }

  ghost predicate BoundsOk(w: World, p: Page, bounds: Bounds) {
    && (bounds.newest.Some? ==> bounds.newest.value < Horizon(w))
    && (bounds.oldest.None? <==> bounds.newest.None?)
    && (bounds.newest.Some? && bounds.oldest.value - 1 <= p.cursor ==>
          forall e :: e in w.log && p.cursor < e.id <= bounds.newest.value ==> e.id !in w.gone)
  }

  ghost predicate PageOk(w: World, p: Page) {
    && GotOk(w, p)
    && (!p.phase.Loading? ==> SnapshotOk(w, p))
    && match p.phase
       case Loading => p.start == p.cursor
       case Idle => true
       case Polling(bounds) => BoundsOk(w, p, bounds)
       case Answered(answer) => AnswerOk(w, p, answer)
  }

  ghost predicate Inv(w: World) {
    && FeedOk(w)
    && PruneOk(w)
    && forall page {:trigger PageOk(w, w.pages[page])} :: page in w.pages ==> PageOk(w, w.pages[page])
  }

  // ----- steps of the table ---------------------------------------------------------------------

  lemma FirstReadKnows(log: seq<Event>, gone: set<nat>, after: nat)
    requires IdsIncrease(log) && OldestGone(log, gone)
    ensures var b := ReadBounds(log, gone);
            && (b.oldest.None? <==> b.newest.None?)
            && (b.newest.Some? && b.oldest.value - 1 <= after ==>
                  forall e :: e in log && after < e.id <= b.newest.value ==> e.id !in gone)
  {
    var b := ReadBounds(log, gone);
    if b.newest.Some? && b.oldest.value - 1 <= after {
      forall e | e in log && after < e.id <= b.newest.value
        ensures e.id !in gone
      {
        var o :| o in log && o.id == b.oldest.value && o.id !in gone;
        var i :| 0 <= i < |log| && log[i] == o;
        var j :| 0 <= j < |log| && log[j] == e;
      }
    }
  }

  lemma PageAfterAppend(w: World, w': World, p: Page)
    requires FeedOk(w) && PageOk(w, p) && w.writer.Some?
    requires w' == Next(w, CommitInsert)
    ensures PageOk(w', p)
  {
    var e := w.writer.value;
    DueAppend(w.log, e, p.start, p.cursor, p.viewer);
    if p.phase.Answered? {
      DueAppend(w.log, e, p.cursor, p.phase.answer.cursor, p.viewer);
    }
  }

  /** The pages other than the one a step is about see only the table change. */
  lemma TableStepKeepsPage(w: World, step: Step, p: Page)
    requires FeedOk(w) && PruneOk(w) && Enabled(w, step) && PageOk(w, p)
    requires step.Commit? || step.Insert? || step.CommitInsert? || step.AbortInsert? || step.Prune?
    requires step.Prune? ==> !p.phase.Polling?
    ensures PageOk(Next(w, step), p)
  {
    if step.CommitInsert? {
      PageAfterAppend(w, Next(w, step), p);
    }
  }

  lemma TableStepKeepsFeed(w: World, step: Step)
    requires FeedOk(w) && PruneOk(w) && Enabled(w, step) && Polite(w, step)
    ensures FeedOk(Next(w, step)) && PruneOk(Next(w, step))
  {
    StepKeepsIds(w, step);
    StepKeepsPruneOk(w, step);
  }

  lemma StepKeepsIds(w: World, step: Step)
    requires FeedOk(w) && Enabled(w, step)
    ensures FeedOk(Next(w, step))
  {
  }

  lemma StepKeepsPruneOk(w: World, step: Step)
    requires FeedOk(w) && PruneOk(w) && Enabled(w, step) && Polite(w, step)
    ensures PruneOk(Next(w, step))
  {
    if step.Prune? {
      PruneKeepsOldest(w, step.cutoff);
      hide Expired;
    }
  }

  lemma PruneKeepsOldest(w: World, cutoff: Time)
    requires FeedOk(w) && PruneOk(w)
    ensures OldestGone(w.log, w.gone + Expired(w.log, cutoff))
  {
    PruneTakesOldestIff(w.log);
    var expired := Expired(w.log, cutoff);
    assert OldestGone(w.log, expired);
    hide Expired;
    hide CreatedInOrder;
  }

  // ----- steps of a page --------------------------------------------------------------------------

  /** A poll without a reset answers exactly what was due. */
  lemma PollAnswersWhatIsDue(w: World, p: Page)
    requires FeedOk(w) && PageOk(w, p) && p.phase.Polling?
    ensures AnswerOk(w, p, Since(p.phase.bounds, w.log, w.gone, p.viewer, p.cursor))
  {
    var bounds := p.phase.bounds;
    var answer := Since(bounds, w.log, w.gone, p.viewer, p.cursor);
    if !answer.reset {
      if answer.cursor > p.cursor {
        NothingPrunedNothingMissed(w.log, w.gone, p.cursor, answer.cursor, p.viewer);
      } else {
        NoneDue(w.log, p.cursor, p.cursor, p.viewer);
      }
    }
  }

  lemma ReceivedPageOk(w: World, p: Page)
    requires FeedOk(w) && PageOk(w, p) && p.phase.Answered?
    ensures PageOk(w, Received(p, p.phase.answer, w.changes))
  {
    var answer := p.phase.answer;
    if answer.reset {
      NoneDue(w.log, answer.cursor, answer.cursor, p.viewer);
    } else {
      DueJoins(w.log, p.start, p.cursor, answer.cursor, p.viewer);
    }
  }

  lemma PageStepKeepsPage(w: World, step: Step, page: nat)
    requires Inv(w) && Enabled(w, step)
    requires step.LoadCursor? || step.LoadState? || step.PollBounds? || step.PollRows? || step.Receive? || step.FailPoll?
    requires page == step.page
    ensures PageOk(w, Next(w, step).pages[page])
  {
    if page in w.pages {
      assert PageOk(w, w.pages[page]);
    }
    match step
    case LoadCursor(_, viewer) =>
      var from := Cursor(w.log, w.gone);
      NoneDue(w.log, from, from, viewer);
    case LoadState(_) =>
    case PollBounds(_) => FirstReadKnows(w.log, w.gone, w.pages[page].cursor);
    case PollRows(_) => PollAnswersWhatIsDue(w, w.pages[page]);
    case Receive(_) => ReceivedPageOk(w, w.pages[page]);
    case FailPoll(_) =>
  }

  /** A page reads nothing of the other pages. */
  lemma PagesAreApart(w: World, pages: map<nat, Page>, p: Page)
    ensures PageOk(w.(pages := pages), p) == PageOk(w, p)
    ensures FeedOk(w.(pages := pages)) == FeedOk(w) && PruneOk(w.(pages := pages)) == PruneOk(w)
  {
  }

  lemma TableStepKeepsInv(w: World, step: Step)
    requires Inv(w) && Enabled(w, step) && Polite(w, step)
    requires step.Commit? || step.Insert? || step.CommitInsert? || step.AbortInsert? || step.Prune?
    ensures Inv(Next(w, step))
  {
    hide PageOk;
    TableStepKeepsFeed(w, step);
    var w' := Next(w, step);
    forall page | page in w'.pages
      ensures PageOk(w', w'.pages[page])
    {
      assert PageOk(w, w.pages[page]);
      TableStepKeepsPage(w, step, w.pages[page]);
    }
  }

  lemma PageStepKeepsInv(w: World, step: Step)
    requires Inv(w) && Enabled(w, step)
    requires step.LoadCursor? || step.LoadState? || step.PollBounds? || step.PollRows? || step.Receive? || step.FailPoll?
    ensures Inv(Next(w, step))
  {
    hide PageOk;
    hide FeedOk;
    hide PruneOk;
    var w' := Next(w, step);
    assert w' == w.(pages := w'.pages);
    PageStepKeepsPage(w, step, step.page);
    PagesAreApart(w, w'.pages, w'.pages[step.page]);
    forall page | page in w'.pages
      ensures PageOk(w', w'.pages[page])
    {
      if page != step.page {
        assert PageOk(w, w.pages[page]);
        PagesAreApart(w, w'.pages, w.pages[page]);
      }
    }
  }

  lemma StepKeepsInv(w: World, step: Step)
    requires Inv(w) && Enabled(w, step) && Polite(w, step)
    ensures Inv(Next(w, step))
  {
    if step.Commit? || step.Insert? || step.CommitInsert? || step.AbortInsert? || step.Prune? {
      TableStepKeepsInv(w, step);
    } else {
      PageStepKeepsInv(w, step);
    }
  }

  // ----- runs -----------------------------------------------------------------------------------------

  ghost predicate IsRun(states: seq<World>, steps: seq<Step>) {
    && |states| == |steps| + 1
    && states[0] == World([], {}, 1, None, {}, map[])
    && forall k :: 0 <= k < |steps| ==>
         Enabled(states[k], steps[k]) && Polite(states[k], steps[k]) && Next(states[k], steps[k]) == states[k + 1]
  }

  lemma {:induction false} EveryStateIsOk(states: seq<World>, steps: seq<Step>, k: nat)
    requires IsRun(states, steps) && k < |states|
    ensures Inv(states[k])
  {
    if k > 0 {
      EveryStateIsOk(states, steps, k - 1);
      StepKeepsInv(states[k - 1], steps[k - 1]);
    }
  }

  /** In every interleaving of publishers, pruning and polls: whatever a loaded page may see, up to its
      cursor, is in the state it read or among the events it got; it got each of those once, in order; and it knows
      of everything published that it may see exactly when what is past its cursor was in the state it read. */
  lemma EveryChangeReachesThePage(states: seq<World>, steps: seq<Step>, k: nat, page: nat)
    requires IsRun(states, steps) && k < |states|
    requires page in states[k].pages && !states[k].pages[page].phase.Loading?
    ensures var w, p := states[k], states[k].pages[page];
            && (forall e :: e in w.log && e.id <= p.cursor && VisibleTo(e, p.viewer) ==>
                  e.change in p.snapshot || e in p.got)
            && (forall e :: e in p.got <==> e in w.log && p.start < e.id <= p.cursor && VisibleTo(e, p.viewer))
            && IdsIncrease(p.got)
            && ((forall e :: e in w.log && VisibleTo(e, p.viewer) ==> e.change in p.snapshot || e in p.got) <==>
                  forall e :: e in w.log && VisibleTo(e, p.viewer) && p.cursor < e.id ==> e.change in p.snapshot)
  {
    EveryStateIsOk(states, steps, k);
    var w, p := states[k], states[k].pages[page];
    assert PageOk(w, p);
    DueIncreases(w.log, p.start, p.cursor, p.viewer);
    forall e
      ensures e in p.got <==> e in w.log && p.start < e.id <= p.cursor && VisibleTo(e, p.viewer)
    {
      DueIff(w.log, p.start, p.cursor, p.viewer, e);
    }
    hide IsRun;
    hide Inv;
    hide Due;
  }

  /** A poll takes its page past every row that was still in the table when it began. */
  lemma PollCatchesUp(w: World, later: World, p: Page, e: Event)
    requires e in w.log && e.id !in w.gone
    ensures Since(ReadBounds(w.log, w.gone), later.log, later.gone, p.viewer, p.cursor).cursor >= e.id
  {
  }

  // ----- exactly when a poll loses something ------------------------------------------------------------

  /** A poll skipped nothing: it told its page to start again, or sent everything due up to the cursor it moves to.
      What lies past that cursor is another matter. */
  ghost predicate Served(answer: Answer, log: seq<Event>, viewer: Pid, after: nat) {
    answer.reset || answer.events == Due(log, after, answer.cursor, viewer)
  }

  /** Every event a viewer may see in a stretch is younger than the cutoff. */
  ghost predicate AllYoung(log: seq<Event>, cutoff: Time, lo: nat, hi: nat, viewer: Pid) {
    forall e :: e in log && lo < e.id <= hi && VisibleTo(e, viewer) ==> e.created >= cutoff
  }

  /** Whatever was pruned and whenever: a poll that does not reset serves its page if and only if nothing the
      viewer may see, past their cursor and up to the newest id of its first read, is gone by its second. */
  lemma ServedIff(bounds: Bounds, log: seq<Event>, gone: set<nat>, viewer: Pid, after: nat)
    ensures var answer := Since(bounds, log, gone, viewer, after);
            Served(answer, log, viewer, after) <==> answer.reset || AllKept(log, gone, after, answer.cursor, viewer)
  {
    var answer := Since(bounds, log, gone, viewer, after);
    if answer.cursor > after {
      RowsAreDueIff(log, gone, after, answer.cursor, viewer);
    } else {
      NoneDue(log, after, after, viewer);
    }
  }

  lemma ExpiredIff(log: seq<Event>, cutoff: Time, e: Event)
    requires IdsIncrease(log) && e in log
    ensures e.id in Expired(log, cutoff) <==> e.created < cutoff
  {
    if f :| f in log && f.created < cutoff && f.id == e.id {
      var i :| 0 <= i < |log| && log[i] == e;
      var j :| 0 <= j < |log| && log[j] == f;
    }
  }

  lemma KeptIfYoung(log: seq<Event>, gone: set<nat>, cutoff: Time, lo: nat, hi: nat, viewer: Pid)
    requires IdsIncrease(log)
    ensures AllKept(log, gone + Expired(log, cutoff), lo, hi, viewer)
       <==> AllKept(log, gone, lo, hi, viewer) && AllYoung(log, cutoff, lo, hi, viewer)
  {
    forall e | e in log
      ensures e.id in gone + Expired(log, cutoff) <==> e.id in gone || e.created < cutoff
    {
      ExpiredIff(log, cutoff, e);
    }
    hide Expired;
  }

  /** Pruning between a poll's two reads, of a table pruned so far from its oldest end, with more rows committed
      in between: the poll serves its page if and only if it resets, or every event the viewer may see, past
      their cursor and up to the newest id of the first read, is younger than the cutoff. */
  lemma PruneBetweenReadsIff(log: seq<Event>, gone: set<nat>, later: seq<Event>, cutoff: Time, viewer: Pid, after: nat)
    requires IdsIncrease(later) && |log| <= |later| && later[..|log|] == log && OldestGone(log, gone)
    ensures var answer := Since(ReadBounds(log, gone), later, gone + Expired(later, cutoff), viewer, after);
            Served(answer, later, viewer, after) <==>
              answer.reset || AllYoung(later, cutoff, after, answer.cursor, viewer)
  {
    var bounds := ReadBounds(log, gone);
    var answer := Since(bounds, later, gone + Expired(later, cutoff), viewer, after);
    ServedIff(bounds, later, gone + Expired(later, cutoff), viewer, after);
    KeptIfYoung(later, gone, cutoff, after, answer.cursor, viewer);
    if !answer.reset {
      KeptBefore(log, gone, later, viewer, after, answer.cursor);
    }
    hide Since;
    hide Served;
    hide AllKept;
    hide AllYoung;
    hide ReadBounds;
  }

  /** Nothing past the cursor was gone at a first read that calls for no reset. */
  lemma KeptBefore(log: seq<Event>, gone: set<nat>, later: seq<Event>, viewer: Pid, after: nat, hi: nat)
    requires IdsIncrease(later) && |log| <= |later| && later[..|log|] == log && OldestGone(log, gone)
    requires var b := ReadBounds(log, gone);
             && (b.oldest.Some? ==> b.oldest.value - 1 <= after)
             && hi == if b.newest.Some? && after < b.newest.value then b.newest.value else after
    ensures AllKept(later, gone, after, hi, viewer)
  {
    var b := ReadBounds(log, gone);
    assert forall i, j :: 0 <= i < j < |log| ==> log[i] == later[i] && log[j] == later[j];
    FirstReadKnows(log, gone, after);
    if hi > after {
      forall e | e in later && after < e.id <= hi
        ensures e in log
      {
        var o :| o in log && o.id == b.newest.value;
        var i :| 0 <= i < |log| && log[i] == o;
        var j :| 0 <= j < |later| && later[j] == e;
        assert later[i] == o;
        assert log[..] == later[..|log|];
      }
    }
  }

  /** A table pruned by age before the poll, though publishers may have overtaken each other: the poll serves its
      page if and only if it resets, or every event the viewer may see, past their cursor and up to the newest
      retained id, is younger than the cutoff. */
  lemma PrunedByAgeIff(log: seq<Event>, cutoff: Time, viewer: Pid, after: nat)
    requires IdsIncrease(log)
    ensures var gone := Expired(log, cutoff);
            var answer := Since(ReadBounds(log, gone), log, gone, viewer, after);
            Served(answer, log, viewer, after) <==>
              answer.reset || AllYoung(log, cutoff, after, answer.cursor, viewer)
  {
    var gone := Expired(log, cutoff);
    var answer := Since(ReadBounds(log, gone), log, gone, viewer, after);
    ServedIff(ReadBounds(log, gone), log, gone, viewer, after);
    KeptIfYoung(log, {}, cutoff, after, answer.cursor, viewer);
    assert {} + Expired(log, cutoff) == gone;
  }

  // ----- what pruning impolitely costs ------------------------------------------------------------------

  /** Pruned between its two reads, an event is skipped: no reset, and the cursor moves past it. */
  lemma PruneBetweenReadsLosesAnEvent()
    ensures var log := [Event(1, None, 1, 0), Event(2, None, 2, 50)];
            var answer := Since(ReadBounds(log, {}), log, {} + Expired(log, 10), 7, 0);
            answer.cursor == 2 && !answer.reset && !Served(answer, log, 7, 0)
  {
    var a, b := Event(1, None, 1, 0), Event(2, None, 2, 50);
    var log := [a, b];
    assert log[..1] == [a] && [a][..0] == [];
    assert Oldest([a], {}) == Some(1) && Newest([a], {}) == Some(1);
    assert ReadBounds(log, {}) == Bounds(Some(1), Some(2));
    hide ReadBounds;
    hide Rows;
    hide Expired;
    PruneBetweenReadsIff(log, {}, log, 10, 7, 0);
    assert a in log;
  }

  const OVERTAKEN := [Event(1, None, 1, 20), Event(2, None, 2, 0), Event(3, None, 3, 30)]

  lemma OvertakenTable()
    ensures Expired(OVERTAKEN, 10) == {2}
    ensures ReadBounds(OVERTAKEN, {2}) == Bounds(Some(1), Some(3))
  {
    var a, b, c := Event(1, None, 1, 20), Event(2, None, 2, 0), Event(3, None, 3, 30);
    assert OVERTAKEN[..2] == [a, b] && [a, b][..1] == [a] && [a][..0] == [];
    assert Expired(OVERTAKEN, 10) == {2} by {
      assert a in OVERTAKEN && b in OVERTAKEN && c in OVERTAKEN;
    }
    assert Oldest([a], {2}) == Some(1) && Newest([a], {2}) == Some(1);
    assert Oldest([a, b], {2}) == Some(1) && Newest([a, b], {2}) == Some(1);
  }

  /** A publisher that began first but got the lock second has the higher id and the earlier age. Pruned
      from above an older row, its event is skipped without a reset. */
  lemma OvertakenPublisherLosesAnEvent()
    ensures var gone := Expired(OVERTAKEN, 10);
            var answer := Since(ReadBounds(OVERTAKEN, gone), OVERTAKEN, gone, 7, 1);
            answer.cursor == 3 && !answer.reset && !Served(answer, OVERTAKEN, 7, 1)
  {
    OvertakenTable();
    hide Rows;
    hide ReadBounds;
    hide Expired;
    PrunedByAgeIff(OVERTAKEN, 10, 7, 1);
    assert Event(2, None, 2, 0) in OVERTAKEN;
  }
}
