/** Freshness: whether a poll brings its page up to everything published before it began, what was pruned included. */
module FeedFreshness {
  import opened Common
  import opened Feed
  import opened FeedRuns
  import opened FeedLosses

  /** The first read of a poll finds no row at all. */
  predicate NothingKept(w: World) {
    ReadBounds(w.log, w.gone).newest.None?
  }

  /** Every event of a log that the page may see is known to it: in the state it read, or applied since. */
  ghost predicate UpToDate(p: Page, log: seq<Event>) {
    forall e :: e in log && VisibleTo(e, p.viewer) ==> e.change in p.snapshot || e in p.got
  }

  /** Nothing the page may see was published past an id. */
  ghost predicate NonePast(log: seq<Event>, after: nat, viewer: Pid) {
    forall e :: e in log && VisibleTo(e, viewer) ==> e.id <= after
  }

  /** What the page may see past an id was already in the state it read. */
  ghost predicate OldNewsPast(log: seq<Event>, after: nat, p: Page) {
    forall e :: e in log && VisibleTo(e, p.viewer) && after < e.id ==> e.change in p.snapshot
  }

  // ----- one poll ---------------------------------------------------------------------------------------

  /** The cursor a poll answers and whether it resets are settled by its first read. */
  function Target(bounds: Bounds, after: nat): nat {
    if bounds.newest.Some? && after < bounds.newest.value then bounds.newest.value else after
  }

  predicate Resets(bounds: Bounds, after: nat) {
    bounds.oldest.Some? && after < bounds.oldest.value - 1
  }

  lemma AnswerGoesBy(bounds: Bounds, log: seq<Event>, gone: set<nat>, viewer: Pid, after: nat)
    ensures var answer := Since(bounds, log, gone, viewer, after);
            answer.cursor == Target(bounds, after) && answer.reset == Resets(bounds, after)
  {
  }

  /** Pruned from its oldest end, a table with any row left holds the newest event ever published. */
  lemma NewestIsKept(log: seq<Event>, gone: set<nat>)
    requires IdsIncrease(log) && OldestGone(log, gone) && ReadBounds(log, gone).newest.Some?
    ensures forall e :: e in log ==> e.id <= ReadBounds(log, gone).newest.value
  {
    var kept :| kept in log && kept.id == ReadBounds(log, gone).newest.value && kept.id !in gone;
    forall e | e in log
      ensures e.id <= kept.id
    {
      var i :| 0 <= i < |log| && log[i] == kept;
      var j :| 0 <= j < |log| && log[j] == e;
    }
  }

  /** A poll resets its page or takes it past everything published before it began, pruned or not, if and only if
      its first read finds a row, or nothing the viewer may see was published past the cursor. */
  lemma PollPassesEverythingIff(w: World, p: Page, log: seq<Event>, gone: set<nat>)
    requires FeedOk(w) && PruneOk(w)
    ensures var answer := Since(ReadBounds(w.log, w.gone), log, gone, p.viewer, p.cursor);
            answer.reset || NonePast(w.log, answer.cursor, p.viewer) <==>
              !NothingKept(w) || NonePast(w.log, p.cursor, p.viewer)
  {
    var bounds := ReadBounds(w.log, w.gone);
    AnswerGoesBy(bounds, log, gone, p.viewer, p.cursor);
    if bounds.newest.Some? {
      NewestIsKept(w.log, w.gone);
    } else {
      assert bounds.oldest.None?;
    }
  }

  // ----- one poll, from its first read to its being applied -----------------------------------------------

  /** The poll begun at step `k` is the one applied at step `m`. */
  ghost predicate Applied(steps: seq<Step>, k: nat, m: nat, page: nat) {
    && k < m < |steps| && steps[k] == PollBounds(page) && steps[m] == Receive(page)
    && forall j {:trigger steps[j]} :: k < j < m ==> steps[j] != Receive(page) && steps[j] != FailPoll(page)
  }

  /** Under way since a first read: nothing of the page has changed but where it is in its poll. */
  ghost predicate UnderWay(p: Page, now: Page, bounds: Bounds) {
    && now == p.(phase := now.phase)
    && match now.phase
       case Polling(b) => b == bounds
       case Answered(answer) => answer.cursor == Target(bounds, p.cursor) && answer.reset == Resets(bounds, p.cursor)
       case _ => false
  }

  lemma UnderWayStep(w: World, step: Step, page: nat, p: Page, bounds: Bounds)
    requires Enabled(w, step) && page in w.pages && UnderWay(p, w.pages[page], bounds)
    requires step != Receive(page) && step != FailPoll(page)
    ensures page in Next(w, step).pages && UnderWay(p, Next(w, step).pages[page], bounds)
  {
    hide Since;
    if step == PollRows(page) {
      AnswerGoesBy(bounds, w.log, w.gone, p.viewer, p.cursor);
    }
  }

  lemma {:induction false} PollIsUnderWay(states: seq<World>, steps: seq<Step>, k: nat, m: nat, page: nat, j: nat)
    requires IsAnyRun(states, steps) && Applied(steps, k, m, page) && k < j <= m
    ensures page in states[k].pages && page in states[j].pages
    ensures UnderWay(states[k].pages[page], states[j].pages[page], ReadBounds(states[k].log, states[k].gone))
  {
    assert Follows(states[j - 1], steps[j - 1], states[j]);
    if j > k + 1 {
      PollIsUnderWay(states, steps, k, m, page, j - 1);
      UnderWayStep(states[j - 1], steps[j - 1], page, states[k].pages[page], ReadBounds(states[k].log, states[k].gone));
    }
  }

  lemma AppliedToAPage(states: seq<World>, steps: seq<Step>, k: nat, m: nat, page: nat)
    requires IsAnyRun(states, steps) && Applied(steps, k, m, page)
    ensures page in states[k].pages && page in states[m + 1].pages
  {
    PollIsUnderWay(states, steps, k, m, page, m);
    assert Follows(states[m], steps[m], states[m + 1]);
  }

  lemma {:induction false} LogOnlyGrows(states: seq<World>, steps: seq<Step>, k: nat, j: nat)
    requires IsAnyRun(states, steps) && k <= j < |states|
    ensures forall e :: e in states[k].log ==> e in states[j].log
  {
    if k < j {
      LogOnlyGrows(states, steps, k, j - 1);
      assert Follows(states[j - 1], steps[j - 1], states[j]);
    }
  }

  /** A page with everything due to it knows what it may see up to its cursor, and past it only old news. */
  lemma UpToDateIff(w: World, p: Page, log: seq<Event>)
    requires Behind(w, p) && !p.phase.Loading? && GotAll(w, p) && forall e :: e in log ==> e in w.log
    ensures UpToDate(p, log) <==> OldNewsPast(log, p.cursor, p)
  {
    forall e | e in log && VisibleTo(e, p.viewer)
      ensures e in p.got <==> p.start < e.id <= p.cursor
    {
      DueIff(w.log, p.start, p.cursor, p.viewer, e);
    }
  }

  /** Reading the state again takes in everything published so far. */
  lemma RereadIsUpToDate(w: World, p: Page, log: seq<Event>)
    requires FeedOk(w) && p.phase.Answered? && (p.phase.answer.reset || p.failures > 0)
    requires forall e :: e in log ==> e in w.log
    ensures UpToDate(Received(p, p.phase.answer, w.changes), log)
  {
  }

  lemma AppliedAs(states: seq<World>, steps: seq<Step>, m: nat, page: nat)
    requires IsAnyRun(states, steps) && m < |steps| && steps[m] == Receive(page)
    ensures page in states[m].pages && states[m].pages[page].phase.Answered? && page in states[m + 1].pages
    ensures states[m + 1].log == states[m].log
    ensures var p := states[m].pages[page];
            states[m + 1].pages[page] == Received(p, p.phase.answer, states[m].changes)
  {
    assert Follows(states[m], steps[m], states[m + 1]);
  }

  /** In every run at all: an applied poll that leaves its page with nothing missing up to the cursor brings it up
      to date with everything published before the poll began, if and only if it resets, follows a failed one, or
      what the page may see past the newest row its first read found, and past its cursor, was already in the
      state the page had read. */
  lemma AppliedPollIff(states: seq<World>, steps: seq<Step>, k: nat, m: nat, page: nat)
    requires IsAnyRun(states, steps) && Applied(steps, k, m, page) && NeverShort(states, steps, m + 1, page)
    ensures page in states[k].pages && page in states[m + 1].pages
    ensures var w, p := states[k], states[k].pages[page];
            var bounds := ReadBounds(w.log, w.gone);
            UpToDate(states[m + 1].pages[page], w.log) <==>
              || Resets(bounds, p.cursor)
              || p.failures > 0
              || OldNewsPast(w.log, Target(bounds, p.cursor), p)
  {
    var w, last, after := states[k], states[m], states[m + 1];
    var bounds := ReadBounds(w.log, w.gone);
    PollIsUnderWay(states, steps, k, m, page, m);
    LogOnlyGrows(states, steps, k, m);
    AnyRunIsKept(states, steps, m);
    AnyRunIsKept(states, steps, m + 1);
    AppliedAs(states, steps, m, page);
    GotAllIffNeverShort(states, steps, m + 1, page);
    assert Behind(after, after.pages[page]);
    hide Next;
    hide Enabled;
    hide Due;
    hide NeverShort;
    var p := last.pages[page];
    if p.phase.answer.reset || p.failures > 0 {
      RereadIsUpToDate(last, p, w.log);
    } else {
      UpToDateIff(after, after.pages[page], w.log);
    }
    hide IsAnyRun;
    hide NeverShort;
    hide Behind;
    hide Kept;
    hide GotAll;
    hide UpToDate;
  }

  // ----- polite runs ------------------------------------------------------------------------------------------

  lemma PoliteIsAnyRun(states: seq<World>, steps: seq<Step>)
    requires IsRun(states, steps)
    ensures IsAnyRun(states, steps)
  {
  }

  lemma PoliteIsNeverShort(states: seq<World>, steps: seq<Step>, k: nat, page: nat)
    requires IsRun(states, steps) && k < |states| && page in states[k].pages
    ensures IsAnyRun(states, steps) && NeverShort(states, steps, k, page)
  {
    PoliteIsAnyRun(states, steps);
    EveryStateIsOk(states, steps, k);
    assert PageOk(states[k], states[k].pages[page]);
    GotAllIffNeverShort(states, steps, k, page);
  }

  /** In every interleaving of publishers, pruning and polls that keeps to what the engine relies on: once a poll is
      applied its page knows everything it may see that was published before the poll began, if and only if the
      poll's first read found a row, a poll had failed before it, or what was past the page's cursor was in the
      state it had read. */
  lemma AppliedPollIsUpToDateIff(states: seq<World>, steps: seq<Step>, k: nat, m: nat, page: nat)
    requires IsRun(states, steps) && Applied(steps, k, m, page)
    ensures page in states[k].pages && page in states[m + 1].pages
    ensures var w, p := states[k], states[k].pages[page];
            UpToDate(states[m + 1].pages[page], w.log) <==>
              !NothingKept(w) || p.failures > 0 || OldNewsPast(w.log, p.cursor, p)
  {
    hide Next;
    hide Enabled;
    hide Polite;
    hide PageOk;
    hide FeedOk;
    hide PruneOk;
    hide UpToDate;
    hide OldNewsPast;
    hide Resets;
    hide Target;
    hide NothingKept;
    EveryStateIsOk(states, steps, k);
    PoliteIsAnyRun(states, steps);
    AppliedToAPage(states, steps, k, m, page);
    PoliteIsNeverShort(states, steps, m + 1, page);
    AppliedPollIff(states, steps, k, m, page);
    FirstReadDecides(states[k], states[k].pages[page]);
  }

  lemma FirstReadDecides(w: World, p: Page)
    requires FeedOk(w) && PruneOk(w)
    ensures var bounds := ReadBounds(w.log, w.gone);
            Resets(bounds, p.cursor) || OldNewsPast(w.log, Target(bounds, p.cursor), p) <==>
              !NothingKept(w) || OldNewsPast(w.log, p.cursor, p)
  {
    var bounds := ReadBounds(w.log, w.gone);
    if bounds.newest.Some? {
      NewestIsKept(w.log, w.gone);
    } else {
      assert bounds.oldest.None?;
    }
  }

  // ----- how long a page stays behind ---------------------------------------------------------------------------

  /** A page idle, or in a poll that found no row. */
  predicate Unmoved(p: Page, now: Page) {
    && now == p.(phase := now.phase)
    && (now.phase == Idle || now.phase == Polling(Bounds(None, None)) || now.phase == Answered(Answer([], p.cursor, false)))
  }

  lemma NothingKeptStep(w: World, step: Step)
    requires NothingKept(w) && Enabled(w, step) && step != CommitInsert
    ensures NothingKept(Next(w, step)) && ReadBounds(w.log, w.gone) == Bounds(None, None)
  {
  }

  lemma UnmovedStep(w: World, step: Step, page: nat, p: Page)
    requires NothingKept(w) && Enabled(w, step) && page in w.pages && step != FailPoll(page)
    requires Unmoved(p, w.pages[page]) && p.failures == 0
    ensures page in Next(w, step).pages && Unmoved(p, Next(w, step).pages[page])
  {
    assert ReadBounds(w.log, w.gone) == Bounds(None, None);
    if step == Receive(page) && w.pages[page].phase == Answered(Answer([], p.cursor, false)) {
      assert p.got + [] == p.got;
    }
  }

  /** Every row pruned: until something is published, or a poll fails, polls tell a page nothing, whatever changes
      are committed and however far behind it is. */
  lemma {:induction false} SilentUntilPublished(states: seq<World>, steps: seq<Step>, k: nat, later: nat, page: nat)
    requires IsAnyRun(states, steps) && k <= later < |states|
    requires NothingKept(states[k]) && page in states[k].pages
    requires states[k].pages[page].phase == Idle && states[k].pages[page].failures == 0
    requires forall j {:trigger steps[j]} :: k <= j < later ==> steps[j] != CommitInsert && steps[j] != FailPoll(page)
    ensures NothingKept(states[later]) && page in states[later].pages
    ensures Unmoved(states[k].pages[page], states[later].pages[page])
  {
    if k < later {
      SilentUntilPublished(states, steps, k, later - 1, page);
      assert Follows(states[later - 1], steps[later - 1], states[later]);
      NothingKeptStep(states[later - 1], steps[later - 1]);
      UnmovedStep(states[later - 1], steps[later - 1], page, states[k].pages[page]);
    }
  }

  // ----- a page left behind ----------------------------------------------------------------------------------------

  const NEWS := Event(1, None, 5, 10)

  /** One open page, which has applied no event. */
  function Tab(snapshot: set<nat>, phase: Phase): map<nat, Page> {
    map[7 := Page(3, 0, 0, snapshot, [], 0, phase)]
  }

  function StaleStates(): seq<World> {
    [World([], {}, 1, None, {}, map[]),
     World([], {}, 1, None, {}, Tab({}, Loading)),
     World([], {}, 1, None, {}, Tab({}, Idle)),
     World([], {}, 1, None, {5}, Tab({}, Idle)),
     World([], {}, 2, Some(NEWS), {5}, Tab({}, Idle)),
     World([NEWS], {}, 2, None, {5}, Tab({}, Idle)),
     World([NEWS], {1}, 2, None, {5}, Tab({}, Idle)),
     World([NEWS], {1}, 2, None, {5}, Tab({}, Polling(Bounds(None, None)))),
     World([NEWS], {1}, 2, None, {5}, Tab({}, Answered(Answer([], 0, false)))),
     World([NEWS], {1}, 2, None, {5}, Tab({}, Idle))]
  }

  function StaleSteps(): seq<Step> {
    [LoadCursor(7, 3), LoadState(7), Commit(5), Insert(None, 5, 10), CommitInsert, Prune(20),
     PollBounds(7), PollRows(7), Receive(7)]
  }

  lemma StaleStart(k: nat)
    requires k < 5
    ensures var w, step := StaleStates()[k], StaleSteps()[k];
            Enabled(w, step) && Polite(w, step) && Next(w, step) == StaleStates()[k + 1]
  {
    OneRowGone();
    assert Tab({}, Idle)[7 := Page(3, 0, 0, {}, [], 0, Idle)] == Tab({}, Idle);
    var w, step := StaleStates()[k], StaleSteps()[k];
    var next := StaleStates()[k + 1];
    match k
    case 0 => assert Next(w, step).pages == next.pages;
    case 1 => assert Next(w, step).pages == next.pages;
    case 2 =>
    case 3 =>
    case 4 => assert Next(w, step).log == next.log;
  }

  lemma StalePoll(k: nat)
    requires 5 <= k < 9
    ensures var w, step := StaleStates()[k], StaleSteps()[k];
            Enabled(w, step) && Polite(w, step) && Next(w, step) == StaleStates()[k + 1]
  {
    OneRowGone();
    assert Tab({}, Idle)[7 := Page(3, 0, 0, {}, [], 0, Idle)] == Tab({}, Idle);
    var w, step := StaleStates()[k], StaleSteps()[k];
    var next := StaleStates()[k + 1];
    match k
    case 5 => assert Next(w, step).gone == next.gone;
    case 6 => assert Next(w, step).pages == next.pages;
    case 7 => assert Next(w, step).pages == next.pages;
    case 8 =>
      assert w.pages[7].got + w.pages[7].phase.answer.events == [];
      assert Next(w, step).pages == next.pages;
  }

  lemma OneRowGone()
    ensures Expired([NEWS], 20) == {1} && Cursor([], {}) == 0
    ensures ReadBounds([NEWS], {1}) == Bounds(None, None)
  {
    assert NEWS in [NEWS];
  }

  /** A page is open while something is published and pruned, as a hidden one is for longer than rows are kept. Its
      next poll is answered with no event, the old cursor and no reset; every step was polite, and the page never
      hears of a change everybody may see. */
  lemma StalePageIsReached()
    ensures IsRun(StaleStates(), StaleSteps()) && Applied(StaleSteps(), 6, 8, 7)
    ensures var w := StaleStates()[9];
            && w.log == [NEWS] && w.pages[7].phase == Idle && w.pages[7].failures == 0
            && !UpToDate(w.pages[7], w.log)
  {
    forall k | 0 <= k < |StaleSteps()|
      ensures Enabled(StaleStates()[k], StaleSteps()[k]) && Polite(StaleStates()[k], StaleSteps()[k])
      ensures Next(StaleStates()[k], StaleSteps()[k]) == StaleStates()[k + 1]
    {
      if k < 5 {
        StaleStart(k);
      } else {
        StalePoll(k);
      }
    }
    assert NEWS in StaleStates()[9].log && VisibleTo(NEWS, 3);
  }

  function EarlyStates(): seq<World> {
    [World([], {}, 1, None, {}, map[]),
     World([], {}, 1, None, {}, Tab({}, Loading)),
     World([], {}, 1, None, {5}, Tab({}, Loading)),
     World([], {}, 2, Some(NEWS), {5}, Tab({}, Loading)),
     World([NEWS], {}, 2, None, {5}, Tab({}, Loading)),
     World([NEWS], {}, 2, None, {5}, Tab({5}, Idle)),
     World([NEWS], {1}, 2, None, {5}, Tab({5}, Idle)),
     World([NEWS], {1}, 2, None, {5}, Tab({5}, Polling(Bounds(None, None)))),
     World([NEWS], {1}, 2, None, {5}, Tab({5}, Answered(Answer([], 0, false)))),
     World([NEWS], {1}, 2, None, {5}, Tab({5}, Idle))]
  }

  function EarlySteps(): seq<Step> {
    [LoadCursor(7, 3), Commit(5), Insert(None, 5, 10), CommitInsert, LoadState(7), Prune(20),
     PollBounds(7), PollRows(7), Receive(7)]
  }

  lemma EarlyStart(k: nat)
    requires k < 5
    ensures var w, step := EarlyStates()[k], EarlySteps()[k];
            Enabled(w, step) && Polite(w, step) && Next(w, step) == EarlyStates()[k + 1]
  {
    OneRowGone();
    var w, step := EarlyStates()[k], EarlySteps()[k];
    var next := EarlyStates()[k + 1];
    match k
    case 0 => assert Next(w, step).pages == next.pages;
    case 1 =>
    case 2 =>
    case 3 => assert Next(w, step).log == next.log;
    case 4 => assert Next(w, step).pages == next.pages;
  }

  lemma EarlyPoll(k: nat)
    requires 5 <= k < 9
    ensures var w, step := EarlyStates()[k], EarlySteps()[k];
            Enabled(w, step) && Polite(w, step) && Next(w, step) == EarlyStates()[k + 1]
  {
    OneRowGone();
    var w, step := EarlyStates()[k], EarlySteps()[k];
    var next := EarlyStates()[k + 1];
    match k
    case 5 => assert Next(w, step).gone == next.gone;
    case 6 => assert Next(w, step).pages == next.pages;
    case 7 => assert Next(w, step).pages == next.pages;
    case 8 =>
      assert w.pages[7].got + w.pages[7].phase.answer.events == [];
      assert Next(w, step).pages == next.pages;
  }

  /** Published between a page's reading its cursor and its reading the state, and then pruned: the poll finds no row
      and an event past the cursor, yet the page is up to date, for the state it read had the change. */
  lemma OldNewsDoesNoHarm()
    ensures IsRun(EarlyStates(), EarlySteps()) && Applied(EarlySteps(), 6, 8, 7)
    ensures NothingKept(EarlyStates()[6]) && !NonePast(EarlyStates()[6].log, 0, 3)
    ensures UpToDate(EarlyStates()[9].pages[7], EarlyStates()[9].log)
  {
    forall k | 0 <= k < |EarlySteps()|
      ensures Enabled(EarlyStates()[k], EarlySteps()[k]) && Polite(EarlyStates()[k], EarlySteps()[k])
      ensures Next(EarlyStates()[k], EarlySteps()[k]) == EarlyStates()[k + 1]
    {
      if k < 5 {
        EarlyStart(k);
      } else {
        EarlyPoll(k);
      }
    }
    OneRowGone();
    assert NEWS in EarlyStates()[6].log && VisibleTo(NEWS, 3);
  }
}
