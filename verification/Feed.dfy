/** The event feed: publishers that take ids under one lock, polls that read the table twice, pages that
    start from a state read. `engine/core/events.py`, `engine/state.py` and the page's polling loop. */
module Feed {
  import opened Common

  /** A row of the event table. `to` is who may see it (everyone when absent), `change` the committed
      contest change it tells of, `created` when its transaction began. */
  datatype Event = Event(id: nat, to: Option<Pid>, change: nat, created: Time)

  predicate VisibleTo(e: Event, viewer: Pid) {
    e.to.None? || e.to.value == viewer
  }

  // ----- reading the table -----------------------------------------------------------------

  /** The rows not pruned, after `lo` and up to `hi`, that a viewer may see, in id order. */
  function Rows(log: seq<Event>, gone: set<nat>, lo: nat, hi: nat, viewer: Pid): seq<Event> {
    if log == [] then []
    else
      var n := |log| - 1;
      Rows(log[..n], gone, lo, hi, viewer)
      + if lo < log[n].id <= hi && log[n].id !in gone && VisibleTo(log[n], viewer) then [log[n]] else []
  }

  function Newest(log: seq<Event>, gone: set<nat>): (id: Option<nat>)
    ensures id.None? ==> forall e :: e in log ==> e.id in gone
    ensures id.Some? ==> (exists e :: e in log && e.id == id.value && e.id !in gone)
    ensures id.Some? ==> forall e :: e in log && e.id !in gone ==> e.id <= id.value
  {
    if log == [] then None
    else
      var n := |log| - 1;
      assert log == log[..n] + [log[n]];
      var before := Newest(log[..n], gone);
      if log[n].id !in gone && (before.None? || before.value < log[n].id) then Some(log[n].id) else before
  }

  function Oldest(log: seq<Event>, gone: set<nat>): (id: Option<nat>)
    ensures id.None? ==> forall e :: e in log ==> e.id in gone
    ensures id.Some? ==> (exists e :: e in log && e.id == id.value && e.id !in gone)
    ensures id.Some? ==> forall e :: e in log && e.id !in gone ==> id.value <= e.id
  {
    if log == [] then None
    else
      var n := |log| - 1;
      assert log == log[..n] + [log[n]];
      var before := Oldest(log[..n], gone);
      if log[n].id !in gone && (before.None? || log[n].id < before.value) then Some(log[n].id) else before
  }

  /** The newest id that has not been pruned; zero if there is none. */
  function Cursor(log: seq<Event>, gone: set<nat>): nat {
    var newest := Newest(log, gone);
    if newest.Some? then newest.value else 0
  }

  datatype Bounds = Bounds(oldest: Option<nat>, newest: Option<nat>)

  /** The first of a poll's two reads. */
  function ReadBounds(log: seq<Event>, gone: set<nat>): Bounds {
    Bounds(Oldest(log, gone), Newest(log, gone))
  }

  datatype Answer = Answer(events: seq<Event>, cursor: nat, reset: bool)

  /** The second read, and what the poll answers: the rows up to the newest id the first read saw. */
  function Since(bounds: Bounds, log: seq<Event>, gone: set<nat>, viewer: Pid, after: nat): Answer {
    var pruned := bounds.oldest.Some? && after < bounds.oldest.value - 1;
    var latest := if bounds.newest.Some? then bounds.newest.value else 0;
    if latest <= after then Answer([], after, pruned)
    else Answer(Rows(log, gone, after, latest, viewer), latest, pruned)
  }

  function Expired(log: seq<Event>, cutoff: Time): set<nat> {
    set e | e in log && e.created < cutoff :: e.id
  }

  // ----- the world --------------------------------------------------------------------------

  /** Where a page is in its loop. */
  datatype Phase = Loading | Idle | Polling(bounds: Bounds) | Answered(answer: Answer)

  /** One open page. `snapshot`: the changes its last state read included. `got`: the events applied since,
      from `start` on. */
  datatype Page = Page(
    viewer: Pid,
    start: nat,
    cursor: nat,
    snapshot: set<nat>,
    got: seq<Event>,
    failures: nat,
    phase: Phase)

  /** `log` is every event ever committed, in commit order; the table holds those not in `gone`.
      `writer` has taken the ordering lock and inserted, but not committed. */
  datatype World = World(
    log: seq<Event>,
    gone: set<nat>,
    nextId: nat,
    writer: Option<Event>,
    changes: set<nat>,
    pages: map<nat, Page>)

  datatype Step =
    | Commit(change: nat)
    | Insert(to: Option<Pid>, change: nat, created: Time)
    | CommitInsert
    | AbortInsert
    | Prune(cutoff: Time)
    | LoadCursor(page: nat, viewer: Pid)
    | LoadState(page: nat)
    | PollBounds(page: nat)
    | PollRows(page: nat)
    | Receive(page: nat)
    | FailPoll(page: nat)

  /** What the locks and the program order allow. A change is published only after it committed, one
      publisher at a time holds the ordering lock, and a page does one thing at a time. */
  predicate Enabled(w: World, step: Step) {
    match step
    case Commit(_) => true
    case Insert(_, change, _) => w.writer.None? && change in w.changes
    case CommitInsert => w.writer.Some?
    case AbortInsert => w.writer.Some?
    case Prune(_) => true
    case LoadCursor(page, _) => page !in w.pages
    case LoadState(page) => page in w.pages && w.pages[page].phase.Loading?
    case PollBounds(page) => page in w.pages && w.pages[page].phase.Idle?
    case PollRows(page) => page in w.pages && w.pages[page].phase.Polling?
    case Receive(page) => page in w.pages && w.pages[page].phase.Answered?
    case FailPoll(page) => page in w.pages && !w.pages[page].phase.Loading?
  }

  /** The page applies an answer. Events pruned away, or a poll that failed before, re-read the state. */
  function Received(p: Page, answer: Answer, changes: set<nat>): Page {
    var read := if answer.reset || p.failures > 0 then p.(snapshot := changes) else p;
    var applied :=
      if answer.reset then read.(start := answer.cursor, got := []) else read.(got := read.got + answer.events);
    applied.(cursor := answer.cursor, failures := 0, phase := Idle)
  }

  function Next(w: World, step: Step): World
    requires Enabled(w, step)
  {
    match step
    case Commit(change) => w.(changes := w.changes + {change})
    case Insert(to, change, created) =>
      w.(writer := Some(Event(w.nextId, to, change, created)), nextId := w.nextId + 1)
    case CommitInsert => w.(log := w.log + [w.writer.value], writer := None)
    case AbortInsert => w.(writer := None)
    case Prune(cutoff) => w.(gone := w.gone + Expired(w.log, cutoff))
    case LoadCursor(page, viewer) =>
      var from := Cursor(w.log, w.gone);
      w.(pages := w.pages[page := Page(viewer, from, from, {}, [], 0, Loading)])
    case LoadState(page) => w.(pages := w.pages[page := w.pages[page].(snapshot := w.changes, phase := Idle)])
    case PollBounds(page) =>
      w.(pages := w.pages[page := w.pages[page].(phase := Polling(ReadBounds(w.log, w.gone)))])
    case PollRows(page) =>
      var p := w.pages[page];
      var answer := Since(p.phase.bounds, w.log, w.gone, p.viewer, p.cursor);
      w.(pages := w.pages[page := p.(phase := Answered(answer))])
    case Receive(page) =>
      w.(pages := w.pages[page := Received(w.pages[page], w.pages[page].phase.answer, w.changes)])
    case FailPoll(page) =>
      var p := w.pages[page];
      w.(pages := w.pages[page := p.(phase := Idle, failures := p.failures + 1)])
  }

  // ----- when pruning is harmless --------------------------------------------------------------

  /** Event ids, taken in commit order, are also in the order their transactions began. */
  ghost predicate CreatedInOrder(log: seq<Event>) {
    forall i, j :: 0 <= i < j < |log| ==> log[i].created <= log[j].created
  }

  /** What is gone is the oldest part of the log. */
  ghost predicate OldestGone(log: seq<Event>, gone: set<nat>) {
    forall i, j :: 0 <= i < j < |log| && log[j].id in gone ==> log[i].id in gone
  }

  ghost predicate IdsIncrease(log: seq<Event>) {
    forall i, j :: 0 <= i < j < |log| ==> log[i].id < log[j].id
  }

  /** Pruning by age takes the oldest part of the log, whatever the cutoff, if and only if ids are in the
      order their transactions began. */
  lemma PruneTakesOldestIff(log: seq<Event>)
    requires IdsIncrease(log)
    ensures (forall cutoff: Time :: OldestGone(log, Expired(log, cutoff))) <==> CreatedInOrder(log)
  {
    if CreatedInOrder(log) {
      forall cutoff: Time
        ensures OldestGone(log, Expired(log, cutoff))
      {
        forall i, j | 0 <= i < j < |log| && log[j].id in Expired(log, cutoff)
          ensures log[i].id in Expired(log, cutoff)
        {
          assert log[i] in log && log[j] in log;
        }
      }
    }
    if forall cutoff: Time :: OldestGone(log, Expired(log, cutoff)) {
      forall i, j | 0 <= i < j < |log|
        ensures log[i].created <= log[j].created
      {
        var cutoff := log[j].created + 1;
        assert OldestGone(log, Expired(log, cutoff));
        assert log[j] in log && log[i] in log;
        assert log[j].id in Expired(log, cutoff);
        var e :| e in log && e.created < cutoff && e.id == log[i].id;
        var k :| 0 <= k < |log| && log[k] == e;
        assert k == i;
      }
    }
  }

  /** A step that keeps to what the engine relies on: publishers begin in the order they get the lock, and
      nothing is pruned between a poll's two reads. */
  ghost predicate Polite(w: World, step: Step) {
    match step
    case Insert(_, _, created) => forall e :: e in w.log ==> e.created <= created
    case Prune(_) => forall page :: page in w.pages ==> !w.pages[page].phase.Polling?
    case _ => true
  }
}
