/** The event table and the page's polling loop, as they are carried out. */
module EventTable {
  import opened Common
  import opened Feed

  /** The rows of a log that pruning has left in the table. */
  function Present(log: seq<Event>, gone: set<nat>): seq<Event> {
    if log == [] then []
    else
      var n := |log| - 1;
      Present(log[..n], gone) + if log[n].id !in gone then [log[n]] else []
  }

  /** The table answers every read as the whole history would with what is gone left out. */
  lemma {:induction false} TableReadsAsHistory(log: seq<Event>, gone: set<nat>, lo: nat, hi: nat, viewer: Pid)
    ensures ReadBounds(Present(log, gone), {}) == ReadBounds(log, gone)
    ensures Rows(Present(log, gone), {}, lo, hi, viewer) == Rows(log, gone, lo, hi, viewer)
  {
    if log != [] {
      var n := |log| - 1;
      TableReadsAsHistory(log[..n], gone, lo, hi, viewer);
      PresentEnds(log, gone);
    }
  }

  lemma PresentEnds(log: seq<Event>, gone: set<nat>)
    requires log != []
    ensures var n := |log| - 1;
            var before, all := Present(log[..n], gone), Present(log, gone);
            if log[n].id in gone then all == before
            else all != [] && all[..|all| - 1] == before && all[|all| - 1] == log[n]
  {
  }

  lemma {:induction false} InPresent(log: seq<Event>, gone: set<nat>, e: Event)
    ensures e in Present(log, gone) <==> e in log && e.id !in gone
  {
    if log != [] {
      var n := |log| - 1;
      assert log == log[..n] + [log[n]];
      InPresent(log[..n], gone, e);
    }
  }

  lemma RowsArePresent(log: seq<Event>, gone: set<nat>)
    ensures forall e :: e in Present(log, gone) <==> e in log && e.id !in gone
  {
    forall e
      ensures e in Present(log, gone) <==> e in log && e.id !in gone
    {
      InPresent(log, gone, e);
    }
  }

  /** Deleting rows from the table is leaving them out of the history. */
  lemma {:induction false} DeleteFromTable(log: seq<Event>, gone: set<nat>, deleted: set<nat>)
    ensures Present(Present(log, gone), deleted) == Present(log, gone + deleted)
  {
    if log != [] {
      var n := |log| - 1;
      DeleteFromTable(log[..n], gone, deleted);
      PresentEnds(log, gone);
    }
  }

  /** Of what is old enough to prune, the table lacks only what had gone before. */
  lemma ExpiredOfTable(log: seq<Event>, gone: set<nat>, cutoff: Time)
    ensures gone + Expired(Present(log, gone), cutoff) == gone + Expired(log, cutoff)
  {
    forall id | id in Expired(log, cutoff) && id !in gone
      ensures id in Expired(Present(log, gone), cutoff)
    {
      var e :| e in log && e.created < cutoff && e.id == id;
      InPresent(log, gone, e);
    }
    forall id | id in Expired(Present(log, gone), cutoff)
      ensures id in Expired(log, cutoff)
    {
      var e :| e in Present(log, gone) && e.created < cutoff && e.id == id;
      InPresent(log, gone, e);
    }
  }

  /** The event table, with the history it is what remains of. */
  class Events {
    var rows: seq<Event>
    var nextId: nat
    ghost var log: seq<Event>
    ghost var gone: set<nat>

    ghost predicate Valid()
      reads this
    {
      && rows == Present(log, gone)
      && IdsIncrease(log)
      && nextId >= 1
      && (forall e :: e in log ==> 1 <= e.id < nextId)
      && forall id :: id in gone ==> id < nextId
    }

    constructor ()
      ensures Valid() && log == [] && gone == {} && nextId == 1
    {
      rows, nextId, log, gone := [], 1, [], {};
    }

    /** Under the ordering lock: take an id, insert, commit. A failed insert still uses its id up. */
    method Publish(to: Option<Pid>, change: nat, created: Time, commits: bool)
      requires Valid()
      modifies this
      ensures Valid() && nextId == old(nextId) + 1 && gone == old(gone)
      ensures log == old(log) + if commits then [Event(old(nextId), to, change, created)] else []
    {
      var e := Event(nextId, to, change, created);
      nextId := nextId + 1;
      if commits {
        assert (log + [e])[..|log|] == log;
        rows := rows + [e];
        log := log + [e];
      }
    }

    /** An id that no row exceeds and some row carries; zero exactly when there is no row. */
    method NewestId() returns (id: nat)
      requires Valid()
      ensures id == Cursor(log, gone)
      ensures forall e :: e in rows ==> e.id <= id
      ensures id == 0 <==> rows == []
      ensures rows != [] ==> exists e :: e in rows && e.id == id
    {
      TableReadsAsHistory(log, gone, 0, 0, 0);
      RowsArePresent(log, gone);
      var newest := Newest(rows, {});
      assert rows != [] ==> rows[0] in rows;
      id := if newest.Some? then newest.value else 0;
    }

    /** The first of a poll's two reads. */
    method FirstRead() returns (bounds: Bounds)
      requires Valid()
      ensures bounds == ReadBounds(log, gone)
    {
      TableReadsAsHistory(log, gone, 0, 0, 0);
      bounds := ReadBounds(rows, {});
    }

    /** The second, whatever has happened to the table since the first. */
    method SecondRead(bounds: Bounds, viewer: Pid, after: nat) returns (answer: Answer)
      requires Valid()
      ensures answer == Since(bounds, log, gone, viewer, after)
    {
      var pruned := bounds.oldest.Some? && after < bounds.oldest.value - 1;
      var latest := if bounds.newest.Some? then bounds.newest.value else 0;
      if latest <= after {
        return Answer([], after, pruned);
      }
      TableReadsAsHistory(log, gone, after, latest, viewer);
      answer := Answer(Rows(rows, {}, after, latest, viewer), latest, pruned);
    }

    method Prune(cutoff: Time)
      requires Valid()
      modifies this
      ensures Valid() && nextId == old(nextId) && log == old(log)
      ensures gone == old(gone) + Expired(old(log), cutoff)
    {
      var expired := Expired(rows, cutoff);
      DeleteFromTable(log, gone, expired);
      ExpiredOfTable(log, gone, cutoff);
      rows := Present(rows, expired);
      gone := gone + Expired(log, cutoff);
    }
  }

  /** One open page's polling loop. `snapshot` is the state it last read, `applied` every event it handled,
      and `got` those since `start`, where that state stands. */
  class PollingClient {
    const viewer: Pid
    var cursor: nat
    var failures: nat
    var snapshot: set<nat>
    var applied: seq<Event>
    ghost var start: nat
    ghost var got: seq<Event>

    ghost function View(phase: Phase): Page
      reads this
    {
      Page(viewer, start, cursor, snapshot, got, failures, phase)
    }

    constructor (viewer: Pid, cursor: nat, snapshot: set<nat>)
      ensures View(Idle) == Page(viewer, cursor, cursor, snapshot, [], 0, Idle) && applied == []
    {
      this.viewer, this.cursor, this.snapshot := viewer, cursor, snapshot;
      failures, applied, start, got := 0, [], cursor, [];
    }

    /** One tick of the loop. `poll` is what the engine answered and `state` what re-reading the state would
        bring, absent when the request fails. */
    method Tick(hidden: bool, poll: Option<Answer>, state: Option<set<nat>>)
      modifies this
      ensures hidden ==> View(Idle) == old(View(Idle)) && applied == old(applied)
      ensures !hidden && (poll.None? || ((poll.value.reset || old(failures) > 0) && state.None?)) ==>
                View(Idle) == old(View(Idle)).(failures := old(failures) + 1) && applied == old(applied)
      ensures !hidden && poll.Some? && (poll.value.reset || old(failures) > 0 ==> state.Some?) ==>
                && View(Idle) == Received(old(View(Idle)), poll.value, if state.Some? then state.value else {})
                && applied == old(applied) + poll.value.events
                && cursor == poll.value.cursor && failures == 0
                && snapshot == (if poll.value.reset || old(failures) > 0 then state.value else old(snapshot))
    {
      if hidden {
        return;
      }
      if poll.None? {
        failures := failures + 1;
        return;
      }
      var answer := poll.value;
      if answer.reset || failures > 0 {
        if state.None? {
          failures := failures + 1;
          return;
        }
        snapshot := state.value;
      }
      failures := 0;
      var i := 0;
      while i < |answer.events|
        invariant 0 <= i <= |answer.events| && applied == old(applied) + answer.events[..i]
        invariant failures == 0 && cursor == old(cursor) && start == old(start) && got == old(got)
        invariant snapshot == if answer.reset || old(failures) > 0 then state.value else old(snapshot)
      {
        applied := applied + [answer.events[i]];
        i := i + 1;
      }
      cursor := answer.cursor;
      if answer.reset {
        // The state just read holds everything up to the new cursor.
        start, got := answer.cursor, [];
      } else {
        got := got + answer.events;
      }
    }
  }
}
