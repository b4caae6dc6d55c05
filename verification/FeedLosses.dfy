/** Delivery in runs where rows are pruned at any moment and publishers overtake each other: a page has everything
    due to it up to its cursor exactly when no poll it applied came up short. */
module FeedLosses {
  import opened Common
  import opened Feed
  import opened FeedRuns

  /** `a` is `b` with some elements left out, as far as counting tells. */
  predicate Within(a: seq<Event>, b: seq<Event>) {
    |a| <= |b| && (|a| == |b| ==> a == b)
  }

  lemma {:induction false} RowsWithinDue(log: seq<Event>, gone: set<nat>, lo: nat, hi: nat, viewer: Pid)
    ensures Within(Rows(log, gone, lo, hi, viewer), Due(log, lo, hi, viewer))
  {
    if log != [] {
      RowsWithinDue(log[..|log| - 1], gone, lo, hi, viewer);
    }
  }

  /** Left out of either part, left out of the whole. */
  lemma WithinJoins(a: seq<Event>, b: seq<Event>, c: seq<Event>, d: seq<Event>)
    requires Within(a, b) && Within(c, d)
    ensures Within(a + c, b + d)
    ensures a + c == b + d <==> a == b && c == d
  {
    if a + c == b + d {
      assert |a| + |c| == |b| + |d|;
    }
  }

  // ----- what holds whatever is pruned ------------------------------------------------------------------

  ghost predicate Behind(w: World, p: Page) {
    && p.start <= p.cursor < Horizon(w)
    && Within(p.got, Due(w.log, p.start, p.cursor, p.viewer))
    && (!p.phase.Loading? ==> SnapshotOk(w, p))
    && match p.phase
       case Loading => p.start == p.cursor && p.got == []
       case Idle => true
       case Polling(bounds) => bounds.newest.Some? ==> bounds.newest.value < Horizon(w)
       case Answered(answer) =>
         && p.cursor <= answer.cursor < Horizon(w)
         && (!answer.reset ==> Within(answer.events, Due(w.log, p.cursor, answer.cursor, p.viewer)))
  }

  ghost predicate Kept(w: World) {
    && FeedOk(w)
    && forall page {:trigger Behind(w, w.pages[page])} :: page in w.pages ==> Behind(w, w.pages[page])
  }

  /** An answer that resets, or holds everything due. */
  ghost predicate Whole(w: World, p: Page, answer: Answer) {
    Served(answer, w.log, p.viewer, p.cursor)
  }

  predicate IsTableStep(step: Step) {
    step.Commit? || step.Insert? || step.CommitInsert? || step.AbortInsert? || step.Prune?
  }

  /** The table moves on; what was due to a page up to an old id stays the same. */
  lemma TableStepKeepsBehind(w: World, step: Step, p: Page)
    requires FeedOk(w) && Enabled(w, step) && IsTableStep(step) && Behind(w, p)
    ensures FeedOk(Next(w, step)) && Behind(Next(w, step), p)
    ensures Due(Next(w, step).log, p.start, p.cursor, p.viewer) == Due(w.log, p.start, p.cursor, p.viewer)
    ensures p.phase.Answered? ==> (Whole(Next(w, step), p, p.phase.answer) <==> Whole(w, p, p.phase.answer))
  {
    if step.CommitInsert? {
      DueAppend(w.log, w.writer.value, p.start, p.cursor, p.viewer);
      if p.phase.Answered? {
        DueAppend(w.log, w.writer.value, p.cursor, p.phase.answer.cursor, p.viewer);
      }
    }
  }

  lemma TableStepKeepsKept(w: World, step: Step)
    requires Kept(w) && Enabled(w, step) && IsTableStep(step)
    ensures Kept(Next(w, step))
  {
    hide Behind;
    var w' := Next(w, step);
    assert w'.pages == w.pages;
    StepKeepsIds(w, step);
    forall page | page in w'.pages
      ensures Behind(w', w'.pages[page])
    {
      assert Behind(w, w.pages[page]);
      TableStepKeepsBehind(w, step, w.pages[page]);
    }
  }

  lemma PollIsBehind(w: World, p: Page)
    requires FeedOk(w) && Behind(w, p) && p.phase.Polling?
    ensures Behind(w, p.(phase := Answered(Since(p.phase.bounds, w.log, w.gone, p.viewer, p.cursor))))
  {
    var answer := Since(p.phase.bounds, w.log, w.gone, p.viewer, p.cursor);
    RowsWithinDue(w.log, w.gone, p.cursor, answer.cursor, p.viewer);
    NoneDue(w.log, p.cursor, p.cursor, p.viewer);
  }

  /** Applying an answer: the page has everything due after it exactly when the answer is whole, and either starts
      it afresh or finds it with everything due. */
  lemma ReceivedIff(w: World, p: Page)
    requires FeedOk(w) && Behind(w, p) && p.phase.Answered?
    ensures var answer := p.phase.answer;
            var p' := Received(p, answer, w.changes);
            && Behind(w, p')
            && (p'.got == Due(w.log, p'.start, p'.cursor, p.viewer) <==>
                  Whole(w, p, answer) && (answer.reset || p.got == Due(w.log, p.start, p.cursor, p.viewer)))
  {
    var answer := p.phase.answer;
    if answer.reset {
      NoneDue(w.log, answer.cursor, answer.cursor, p.viewer);
    } else {
      DueJoins(w.log, p.start, p.cursor, answer.cursor, p.viewer);
      WithinJoins(p.got, Due(w.log, p.start, p.cursor, p.viewer), answer.events,
                  Due(w.log, p.cursor, answer.cursor, p.viewer));
    }
  }

  lemma PageStepKeepsBehind(w: World, step: Step)
    requires Kept(w) && Enabled(w, step) && !IsTableStep(step)
    ensures step.page in Next(w, step).pages && Behind(w, Next(w, step).pages[step.page])
  {
    if step.page in w.pages {
      assert Behind(w, w.pages[step.page]);
    }
    match step
    case LoadCursor(_, viewer) =>
      var from := Cursor(w.log, w.gone);
      NoneDue(w.log, from, from, viewer);
    case LoadState(_) =>
    case PollBounds(_) =>
    case PollRows(page) => PollIsBehind(w, w.pages[page]);
    case Receive(page) => ReceivedIff(w, w.pages[page]);
    case FailPoll(_) =>
  }

  lemma StepKeepsKept(w: World, step: Step)
    requires Kept(w) && Enabled(w, step)
    ensures Kept(Next(w, step))
  {
    if IsTableStep(step) {
      TableStepKeepsKept(w, step);
    } else {
      PageStepKeepsBehind(w, step);
      var w' := Next(w, step);
      assert w' == w.(pages := w'.pages) && forall page :: page in w'.pages && page != step.page ==>
        page in w.pages && w'.pages[page] == w.pages[page];
      BehindReadsTheTable(w, w'.pages, w'.pages[step.page]);
      hide Next;
      hide FeedOk;
      forall page | page in w'.pages
        ensures Behind(w', w'.pages[page])
      {
        if page != step.page {
          assert Behind(w, w.pages[page]);
          BehindReadsTheTable(w, w'.pages, w.pages[page]);
        }
      }
    }
  }

  lemma BehindReadsTheTable(w: World, pages: map<nat, Page>, p: Page)
    ensures Behind(w.(pages := pages), p) == Behind(w, p)
    ensures FeedOk(w.(pages := pages)) == FeedOk(w)
  {
  }

  // ----- runs ---------------------------------------------------------------------------------------------

  /** Any run at all: rows pruned whenever, publishers in any order. */
  ghost predicate IsAnyRun(states: seq<World>, steps: seq<Step>) {
    && |states| == |steps| + 1
    && states[0] == World([], {}, 1, None, {}, map[])
    && forall k {:trigger steps[k]} :: 0 <= k < |steps| ==> Follows(states[k], steps[k], states[k + 1])
  }

  ghost predicate Follows(w: World, step: Step, w': World) {
    Enabled(w, step) && Next(w, step) == w'
  }

  /** Since the page last started afresh, every answer it applied was whole. */
  ghost predicate NeverShort(states: seq<World>, steps: seq<Step>, k: nat, page: nat)
    requires IsAnyRun(states, steps) && k <= |steps|
  {
    if k == 0 then true
    else
      var w, step := states[k - 1], steps[k - 1];
      assert Follows(w, step, states[k]);
      if step.LoadCursor? && step.page == page then true
      else if step.Receive? && step.page == page then
        var answer := w.pages[page].phase.answer;
        answer.reset || (NeverShort(states, steps, k - 1, page) && Whole(w, w.pages[page], answer))
      else NeverShort(states, steps, k - 1, page)
  }

  ghost predicate GotAll(w: World, p: Page) {
    p.got == Due(w.log, p.start, p.cursor, p.viewer)
  }

  lemma {:induction false} AnyRunIsKept(states: seq<World>, steps: seq<Step>, k: nat)
    requires IsAnyRun(states, steps) && k < |states|
    ensures Kept(states[k])
  {
    if k > 0 {
      AnyRunIsKept(states, steps, k - 1);
      assert Follows(states[k - 1], steps[k - 1], states[k]);
      StepKeepsKept(states[k - 1], steps[k - 1]);
    }
  }

  /** A step leaves a page with everything due exactly when it had that before, unless it loads the page or applies
      an answer to it. */
  lemma OtherStepsKeepGotAll(w: World, step: Step, page: nat)
    requires Kept(w) && Enabled(w, step) && page in w.pages && page in Next(w, step).pages
    requires step.Receive? ==> step.page != page
    ensures GotAll(Next(w, step), Next(w, step).pages[page]) <==> GotAll(w, w.pages[page])
  {
    assert Behind(w, w.pages[page]);
    if IsTableStep(step) {
      TableStepKeepsBehind(w, step, w.pages[page]);
    }
    hide Due;
    hide FeedOk;
    hide Behind;
  }

  lemma LoadedGotAll(w: World, step: Step)
    requires Enabled(w, step) && step.LoadCursor?
    ensures GotAll(Next(w, step), Next(w, step).pages[step.page])
  {
    var from := Cursor(w.log, w.gone);
    NoneDue(w.log, from, from, step.viewer);
  }

  /** In every run, however rows are pruned and publishers overtake each other: a page has got every event due to it
      from where it last started afresh up to its cursor, each once and in order, if and only if no answer it applied
      since was short. `ServedIff` tells which answers are. */
  lemma {:induction false} GotAllIffNeverShort(states: seq<World>, steps: seq<Step>, k: nat, page: nat)
    requires IsAnyRun(states, steps) && k < |states| && page in states[k].pages
    ensures GotAll(states[k], states[k].pages[page]) <==> NeverShort(states, steps, k, page)
  {
    if k > 0 {
      var w, step := states[k - 1], steps[k - 1];
      assert Follows(w, step, states[k]);
      AnyRunIsKept(states, steps, k - 1);
      hide Kept;
      hide GotAll;
      if step.LoadCursor? && step.page == page {
        LoadedGotAll(w, step);
      } else {
        GotAllIffNeverShort(states, steps, k - 1, page);
        if step.Receive? && step.page == page {
          ReceiveStepIff(w, page);
        } else {
          OtherStepsKeepGotAll(w, step, page);
        }
      }
    }
  }

  lemma ReceiveStepIff(w: World, page: nat)
    requires Kept(w) && Enabled(w, Receive(page))
    ensures var p := w.pages[page];
            GotAll(Next(w, Receive(page)), Next(w, Receive(page)).pages[page]) <==>
              p.phase.answer.reset || (GotAll(w, p) && Whole(w, p, p.phase.answer))
  {
    assert Behind(w, w.pages[page]);
    ReceivedIff(w, w.pages[page]);
  }

  /** And then whatever the page may see up to its cursor is in the state it read or among the events it got. */
  lemma WholeAnswersReachThePage(states: seq<World>, steps: seq<Step>, k: nat, page: nat)
    requires IsAnyRun(states, steps) && k < |states|
    requires page in states[k].pages && !states[k].pages[page].phase.Loading? && NeverShort(states, steps, k, page)
    ensures var w, p := states[k], states[k].pages[page];
            forall e :: e in w.log && e.id <= p.cursor && VisibleTo(e, p.viewer) ==> e.change in p.snapshot || e in p.got
  {
    var w, p := states[k], states[k].pages[page];
    GotAllIffNeverShort(states, steps, k, page);
    AnyRunIsKept(states, steps, k);
    assert Behind(w, p);
    forall e | e in w.log && e.id <= p.cursor && VisibleTo(e, p.viewer)
      ensures e.change in p.snapshot || e in p.got
    {
      DueIff(w.log, p.start, p.cursor, p.viewer, e);
    }
  }

  // ----- nothing twice ---------------------------------------------------------------------------------------

  /** Everything the page was sent or is about to be is newer than an id. */
  ghost predicate Beyond(p: Page, id: nat) {
    && id <= p.cursor
    && (forall e :: e in p.got ==> id < e.id)
    && (p.phase.Answered? ==> id <= p.phase.answer.cursor && forall e :: e in p.phase.answer.events ==> id < e.id)
  }

  lemma SentIsBeyond(bounds: Bounds, log: seq<Event>, gone: set<nat>, viewer: Pid, after: nat)
    ensures var answer := Since(bounds, log, gone, viewer, after);
            after <= answer.cursor && forall e :: e in answer.events ==> after < e.id
  {
    var answer := Since(bounds, log, gone, viewer, after);
    forall e | e in answer.events
      ensures after < e.id
    {
      RowsIff(log, gone, after, answer.cursor, viewer, e);
    }
  }

  lemma BeyondStep(w: World, step: Step, page: nat, id: nat)
    requires Enabled(w, step) && page in w.pages && Beyond(w.pages[page], id)
    ensures page in Next(w, step).pages && Beyond(Next(w, step).pages[page], id)
  {
    if step == PollRows(page) {
      var p := w.pages[page];
      SentIsBeyond(p.phase.bounds, w.log, w.gone, p.viewer, p.cursor);
    }
    hide Since;
  }

  lemma {:induction false} StaysBeyond(states: seq<World>, steps: seq<Step>, k: nat, later: nat, page: nat, id: nat)
    requires IsAnyRun(states, steps) && k <= later < |states|
    requires page in states[k].pages && Beyond(states[k].pages[page], id)
    ensures page in states[later].pages && Beyond(states[later].pages[page], id)
  {
    if k < later {
      StaysBeyond(states, steps, k, later - 1, page, id);
      assert Follows(states[later - 1], steps[later - 1], states[later]);
      BeyondStep(states[later - 1], steps[later - 1], page, id);
    }
  }

  /** In every run: a page never gets an event that was in the table when it loaded its cursor, which its first state
      read holds already. */
  lemma NothingOldIsSent(states: seq<World>, steps: seq<Step>, k: nat, later: nat, page: nat, viewer: Pid, e: Event)
    requires IsAnyRun(states, steps) && k < later < |states| && steps[k] == LoadCursor(page, viewer)
    requires e in states[k].log && e.id !in states[k].gone
    ensures page in states[later].pages && e !in states[later].pages[page].got
  {
    assert Follows(states[k], steps[k], states[k + 1]);
    StaysBeyond(states, steps, k + 1, later, page, e.id);
  }

  /** It starts at the id of a row, or at nothing. */
  lemma StartsAtTheNewest(states: seq<World>, steps: seq<Step>, k: nat, page: nat, viewer: Pid)
    requires IsAnyRun(states, steps) && k < |steps| && steps[k] == LoadCursor(page, viewer)
    ensures page in states[k + 1].pages
    ensures var p := states[k + 1].pages[page];
            && p.viewer == viewer && p.got == [] && p.failures == 0 && p.cursor == p.start
            && (p.cursor == 0 || exists e :: e in states[k].log && e.id !in states[k].gone && e.id == p.cursor)
  {
    assert Follows(states[k], steps[k], states[k + 1]);
  }

  // ----- what is published, and to whom -----------------------------------------------------------------------

  /** An event is for everybody, or for this participant. */
  predicate IsFor(e: Event, viewer: Pid) {
    match e.to
    case None => true
    case Some(p) => p == viewer
  }

  lemma VisibleIff(e: Event, viewer: Pid)
    ensures VisibleTo(e, viewer) <==> IsFor(e, viewer)
  {
  }

  /** Everything a page has been sent is for its viewer. */
  ghost predicate OwnMail(p: Page) {
    && (forall e :: e in p.got ==> IsFor(e, p.viewer))
    && (p.phase.Answered? ==> forall e :: e in p.phase.answer.events ==> IsFor(e, p.viewer))
  }

  lemma SinceIsOwnMail(bounds: Bounds, log: seq<Event>, gone: set<nat>, viewer: Pid, after: nat)
    ensures forall e :: e in Since(bounds, log, gone, viewer, after).events ==> IsFor(e, viewer)
  {
    var answer := Since(bounds, log, gone, viewer, after);
    forall e | e in answer.events
      ensures IsFor(e, viewer)
    {
      RowsIff(log, gone, after, answer.cursor, viewer, e);
      VisibleIff(e, viewer);
    }
  }

  lemma StepKeepsOwnMail(w: World, step: Step, page: nat)
    requires Enabled(w, step) && (page in w.pages ==> OwnMail(w.pages[page]))
    ensures page in Next(w, step).pages ==> OwnMail(Next(w, step).pages[page])
  {
    if step == PollRows(page) {
      var p := w.pages[page];
      SinceIsOwnMail(p.phase.bounds, w.log, w.gone, p.viewer, p.cursor);
    }
    hide Since;
    hide IsFor;
  }

  /** In every run: no page is ever sent an event addressed to somebody else. */
  lemma {:induction false} NobodyElsesMail(states: seq<World>, steps: seq<Step>, k: nat, page: nat)
    requires IsAnyRun(states, steps) && k < |states| && page in states[k].pages
    ensures OwnMail(states[k].pages[page])
  {
    if k > 0 {
      assert Follows(states[k - 1], steps[k - 1], states[k]);
      if page in states[k - 1].pages {
        NobodyElsesMail(states, steps, k - 1, page);
      }
      StepKeepsOwnMail(states[k - 1], steps[k - 1], page);
    }
  }

  /** A publisher that commits adds what it was asked to, to whom it was asked to, under an id above every other. */
  lemma PublishedAsAsked(w: World, to: Option<Pid>, change: nat, created: Time)
    requires FeedOk(w) && Enabled(w, Insert(to, change, created))
    ensures var taken := Next(w, Insert(to, change, created));
            && taken.log == w.log && taken.writer.Some? && Enabled(taken, CommitInsert) && Enabled(taken, AbortInsert)
            && var done := Next(taken, CommitInsert);
               && done.writer == None && done.gone == w.gone && done.changes == w.changes && done.pages == w.pages
               && |done.log| == |w.log| + 1 && done.log[..|w.log|] == w.log
               && var e := done.log[|w.log|];
                  && e.to == to && e.change == change && e.created == created
                  && (forall other :: other in w.log ==> other.id < e.id)
    ensures var left := Next(Next(w, Insert(to, change, created)), AbortInsert);
            left.log == w.log && left.writer == None && left.nextId > w.nextId
  {
  }

  /** Pruning takes from the table exactly the rows whose transactions began before the cutoff. */
  lemma PruneTakesTheOld(w: World, cutoff: Time, e: Event)
    requires FeedOk(w) && e in w.log
    ensures var w' := Next(w, Prune(cutoff));
            && w'.log == w.log && w'.pages == w.pages && w'.changes == w.changes
            && (e.id in w'.gone <==> e.id in w.gone || e.created < cutoff)
  {
    ExpiredIff(w.log, cutoff, e);
  }
}
