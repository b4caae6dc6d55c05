/** A round's queue of lots: filling it, and reordering the part of it still to come. */
module RunningOrder {
  import opened Common
  import Sales
  import opened Auction
  import opened AuctionRuns
  import Sorting

  // ----- a round's lots -------------------------------------------------------------------

  /** One pending lot for each of the first `n` questions that has none in this round yet. */
  function WithLots(lots: seq<Lot>, ids: seq<Qid>, n: nat): seq<Lot>
    requires n <= |ids|
  {
    if n == 0 then lots
    else
      var before := WithLots(lots, ids, n - 1);
      if LotOf(before, ids[n - 1]).Some? then before
      else before + [Lot(ids[n - 1], Pending, n, None, None, None, [])]
  }

  /** One pending lot for each of the first `n` questions, in the order given. */
  function Listing(ids: seq<Qid>, n: nat): (lots: seq<Lot>)
    requires n <= |ids|
    ensures |lots| == n
    ensures forall i :: 0 <= i < n ==> lots[i] == Lot(ids[i], Pending, i + 1, None, None, None, [])
  {
    seq(n, i requires 0 <= i < n => Lot(ids[i], Pending, i + 1, None, None, None, []))
  }

  ghost predicate AllDifferent(ids: seq<Qid>) {
    forall i, j :: 0 <= i < j < |ids| ==> ids[i] != ids[j]
  }

  lemma NotListedYet(ids: seq<Qid>, n: nat)
    requires AllDifferent(ids) && n < |ids|
    ensures LotOf(Listing(ids, n), ids[n]).None?
  {
  }

  /** A round's first lots are every question, once, in the published order. */
  lemma {:induction false} NewRoundListsEveryQuestion(ids: seq<Qid>, n: nat)
    requires n <= |ids| && AllDifferent(ids)
    ensures WithLots([], ids, n) == Listing(ids, n)
  {
    if n > 0 {
      NewRoundListsEveryQuestion(ids, n - 1);
      NotListedYet(ids, n - 1);
      ListingPush(ids, n - 1);
    }
    hide AllDifferent;
    hide LotOf;
    hide Listing;
  }

  /** A lot added for a listed question no lot before it offers, at the question's place in the list. */
  ghost predicate NewlyListed(lots: seq<Lot>, ids: seq<Qid>, n: nat, i: nat)
    requires n <= |ids|
  {
    && i < |lots|
    && (exists k :: 0 <= k < n && lots[i] == Lot(ids[k], Pending, k + 1, None, None, None, []))
    && forall j :: 0 <= j < i ==> lots[j].question != lots[i].question
  }

  predicate Offers(lots: seq<Lot>, q: Qid) {
    exists i :: 0 <= i < |lots| && lots[i].question == q
  }

  lemma StaysListed(lots: seq<Lot>, more: seq<Lot>, ids: seq<Qid>, n: nat, i: nat)
    requires n < |ids| && NewlyListed(lots, ids, n, i)
    ensures NewlyListed(lots + more, ids, n + 1, i)
  {
    var all := lots + more;
    assert all[i] == lots[i] && forall j :: 0 <= j < i ==> all[j] == lots[j];
    var k :| 0 <= k < n && lots[i] == Lot(ids[k], Pending, k + 1, None, None, None, []);
    assert all[i] == Lot(ids[k], Pending, k + 1, None, None, None, []);
  }

  lemma StaysOffered(lots: seq<Lot>, more: seq<Lot>, q: Qid)
    requires Offers(lots, q)
    ensures Offers(lots + more, q)
  {
    var i :| 0 <= i < |lots| && lots[i].question == q;
    assert (lots + more)[i].question == q;
  }

  lemma AddedIsListed(lots: seq<Lot>, ids: seq<Qid>, n: nat)
    requires n < |ids| && forall j :: 0 <= j < |lots| ==> lots[j].question != ids[n]
    ensures var after := lots + [Lot(ids[n], Pending, n + 1, None, None, None, [])];
            NewlyListed(after, ids, n + 1, |lots|) && Offers(after, ids[n])
  {
    var after := lots + [Lot(ids[n], Pending, n + 1, None, None, None, [])];
    assert after[|lots|].question == ids[n];
    assert forall j :: 0 <= j < |lots| ==> after[j] == lots[j];
  }

  /** Everything there was, and behind it one pending lot for each of the first `n` questions that had none. */
  ghost predicate Filled(lots: seq<Lot>, after: seq<Lot>, ids: seq<Qid>, n: nat)
    requires n <= |ids|
  {
    && |lots| <= |after| && after[..|lots|] == lots
    && (forall i :: |lots| <= i < |after| ==> NewlyListed(after, ids, n, i))
    && (forall k :: 0 <= k < n ==> Offers(after, ids[k]))
  }

  lemma FilledOneMore(lots: seq<Lot>, before: seq<Lot>, more: seq<Lot>, ids: seq<Qid>, n: nat)
    requires n < |ids| && Filled(lots, before, ids, n) && |more| <= 1
    requires |more| == 1 ==> NewlyListed(before + more, ids, n + 1, |before|)
    requires Offers(before + more, ids[n])
    ensures Filled(lots, before + more, ids, n + 1)
  {
    var after, m := before + more, n + 1;
    assert after[..|lots|] == before[..|lots|];
    forall i | |lots| <= i < |after|
      ensures NewlyListed(after, ids, m, i)
    {
      if i < |before| {
        StaysListed(before, more, ids, n, i);
      }
    }
    forall k | 0 <= k < n + 1
      ensures Offers(after, ids[k])
    {
      if k < n {
        StaysOffered(before, more, ids[k]);
      }
    }
  }

  /** Filling a round that has lots already leaves those as they are and adds, behind them, one pending lot without bids
      for each listed question that has none, and for no other. */
  lemma {:induction false} MissingQuestionsAreAdded(lots: seq<Lot>, ids: seq<Qid>, n: nat)
    requires n <= |ids|
    ensures Filled(lots, WithLots(lots, ids, n), ids, n)
  {
    if n > 0 {
      MissingQuestionsAreAdded(lots, ids, n - 1);
      OneMoreListed(lots, WithLots(lots, ids, n - 1), ids, n - 1);
      hide Filled;
      hide LotOf;
    }
  }

  lemma OneMoreListed(lots: seq<Lot>, before: seq<Lot>, ids: seq<Qid>, n: nat)
    requires n < |ids| && Filled(lots, before, ids, n)
    ensures LotOf(before, ids[n]).Some? ==> Filled(lots, before, ids, n + 1)
    ensures LotOf(before, ids[n]).None? ==>
              Filled(lots, before + [Lot(ids[n], Pending, n + 1, None, None, None, [])], ids, n + 1)
  {
    hide NewlyListed;
    var at, lot := LotOf(before, ids[n]), Lot(ids[n], Pending, n + 1, None, None, None, []);
    if at.Some? {
      assert before + [] == before && Offers(before, ids[n]);
      FilledOneMore(lots, before, [], ids, n);
    } else {
      AddedIsListed(before, ids, n);
      FilledOneMore(lots, before, [lot], ids, n);
    }
    hide Filled;
    hide LotOf;
    hide Offers;
  }

  lemma ListingPush(ids: seq<Qid>, n: nat)
    requires n < |ids|
    ensures Listing(ids, n + 1) == Listing(ids, n) + [Lot(ids[n], Pending, n + 1, None, None, None, [])]
  {
  }

  // ----- reordering -----------------------------------------------------------------------

  function PendingIds(lots: seq<Lot>): (ids: seq<nat>)
    ensures forall k :: 0 <= k < |ids| ==> ids[k] < |lots| && lots[ids[k]].state == Pending
    ensures forall j, k :: 0 <= j < k < |ids| ==> ids[j] < ids[k]
    ensures forall i: nat :: i < |lots| && lots[i].state == Pending ==> i in ids
  {
    if lots == [] then []
    else
      var n := |lots| - 1;
      PendingIds(lots[..n]) + if lots[n].state == Pending then [n] else []
  }

  function OrdersOf(lots: seq<Lot>, ids: seq<nat>): (s: seq<int>)
    requires forall k :: 0 <= k < |ids| ==> ids[k] < |lots|
    ensures |s| == |ids| && forall k :: 0 <= k < |ids| ==> s[k] == lots[ids[k]].order
  {
    seq(|ids|, k requires 0 <= k < |ids| => lots[ids[k]].order)
  }

  function AsKey(order: int): Sorting.Key {
    [order]
  }

  /** Each lot of `wanted` takes the next of the slots, for the first `n` of them. */
  function Reassigned(lots: seq<Lot>, wanted: seq<nat>, slots: seq<int>, n: nat): (r: seq<Lot>)
    requires n <= |wanted| == |slots|
    requires forall k :: 0 <= k < |wanted| ==> wanted[k] < |lots|
    ensures |r| == |lots|
  {
    if n == 0 then lots
    else
      var before := Reassigned(lots, wanted, slots, n - 1);
      before[wanted[n - 1] := before[wanted[n - 1]].(order := slots[n - 1])]
  }

  /** `wanted` is a permutation of the ids of the pending lots. */
  predicate ListsThePending(lots: seq<Lot>, wanted: seq<nat>) {
    multiset(wanted) == multiset(PendingIds(lots))
  }

  lemma SameBagDistinct(s: seq<nat>, t: seq<nat>)
    requires multiset(s) == multiset(t)
    requires forall i, j :: 0 <= i < j < |s| ==> s[i] != s[j]
    ensures forall i, j :: 0 <= i < j < |t| ==> t[i] != t[j]
    ensures |s| == |t| && (forall x :: x in t <==> x in s)
  {
    assert |multiset(s)| == |s| && |multiset(t)| == |t|;
    forall x
      ensures x in t <==> x in s
    {
      assert x in t <==> x in multiset(t);
      assert x in s <==> x in multiset(s);
    }
    forall i, j | 0 <= i < j < |t|
      ensures t[i] != t[j]
    {
      if t[i] == t[j] {
        Sorting.CountedOnce(s, t[i]);
        Sorting.CountedTwice(t, i, j);
        assert false;
      }
    }
  }

  lemma {:induction false} ReassignedAt(lots: seq<Lot>, wanted: seq<nat>, slots: seq<int>, n: nat, i: nat)
    requires n <= |wanted| == |slots|
    requires forall k :: 0 <= k < |wanted| ==> wanted[k] < |lots|
    requires forall j, k :: 0 <= j < k < |wanted| ==> wanted[j] != wanted[k]
    requires i < |lots|
    ensures i !in wanted[..n] ==> Reassigned(lots, wanted, slots, n)[i] == lots[i]
    ensures forall k :: 0 <= k < n && wanted[k] == i ==>
              Reassigned(lots, wanted, slots, n)[i] == lots[i].(order := slots[k])
  {
    if n > 0 {
      ReassignedAt(lots, wanted, slots, n - 1, i);
      assert wanted[..n] == wanted[..n - 1] + [wanted[n - 1]];
      if wanted[n - 1] == i {
        assert i !in wanted[..n - 1];
      }
    }
  }

  function Slots(lots: seq<Lot>): seq<int> {
    Sorting.SortBy(AsKey, OrdersOf(lots, PendingIds(lots)))
  }

  lemma SlotsClimb(lots: seq<Lot>)
    ensures var slots, orders := Slots(lots), OrdersOf(lots, PendingIds(lots));
            && |slots| == |orders| && multiset(slots) == multiset(orders)
            && forall i, j :: 0 <= i < j < |slots| ==> slots[i] <= slots[j]
  {
    Sorting.SortBySorts(AsKey, OrdersOf(lots, PendingIds(lots)));
  }

  /** A reorder gives the pending lots the requested order, in the slots they already occupied between
      them. No other lot moves, and nothing but the order changes. */
  lemma ReorderFollowsTheRequest(lots: seq<Lot>, wanted: seq<nat>)
    requires ListsThePending(lots, wanted)
    ensures |wanted| == |Slots(lots)| && forall k :: 0 <= k < |wanted| ==> wanted[k] < |lots|
    ensures var r, slots := Reassigned(lots, wanted, Slots(lots), |wanted|), Slots(lots);
            && (forall i :: 0 <= i < |lots| && lots[i].state != Pending ==> r[i] == lots[i])
            && (forall k :: 0 <= k < |wanted| ==> r[wanted[k]] == lots[wanted[k]].(order := slots[k]))
            && (forall j, k :: 0 <= j < k < |wanted| ==> r[wanted[j]].order <= r[wanted[k]].order)
            && multiset(OrdersOf(r, wanted)) == multiset(OrdersOf(lots, PendingIds(lots)))
  {
    hide Slots;
    hide Reassigned;
    hide PendingIds;
    var ids, slots := PendingIds(lots), Slots(lots);
    SlotsClimb(lots);
    SameBagDistinct(ids, wanted);
    assert forall k :: 0 <= k < |wanted| ==> wanted[k] in wanted;
    var r := Reassigned(lots, wanted, slots, |wanted|);
    assert wanted[..|wanted|] == wanted;
    forall i | 0 <= i < |lots| && lots[i].state != Pending
      ensures r[i] == lots[i]
    {
      ReassignedAt(lots, wanted, slots, |wanted|, i);
    }
    forall k | 0 <= k < |wanted|
      ensures r[wanted[k]] == lots[wanted[k]].(order := slots[k])
    {
      ReassignedAt(lots, wanted, slots, |wanted|, wanted[k]);
    }
    assert OrdersOf(r, wanted) == slots;
  }

  // ----- the scheduler's second -----------------------------------------------------------

  lemma RunOfTwo(r: Rules, hints: Sales.HintPrices, t: Trace, first: Event, second: Event)
    requires Inv(r, t)
    ensures Run(r, hints, t, [first]) == Next(r, hints, t, first.step, first.at)
    ensures Inv(r, Next(r, hints, t, first.step, first.at))
    ensures Run(r, hints, t, [first, second])
         == Next(r, hints, Next(r, hints, t, first.step, first.at), second.step, second.at)
  {
    assert [first][..0] == [] && [first, second][..1] == [first];
    assert Run(r, hints, t, []) == t;
    StepKeepsInv(r, hints, t, first.step, first.at);
  }

  /** A tick is a run of at most two ordinary steps, so every promise about runs covers it. */
  lemma TickIsARun(r: Rules, hints: Sales.HintPrices, t: Trace, now: Time) returns (events: seq<Event>)
    requires Inv(r, t)
    ensures |events| <= 2
    ensures forall e :: e in events ==> e.at == now && (e.step.Opening? || e.step.Ticking?)
    ensures Run(r, hints, t, events).floor == Ticked(r, t.floor, now)
  {
    hide Inv;
    hide ObserveAll;
    var on := OpenLot(t.floor.lots);
    var open := Event(Opening, now);
    if t.floor.paused.Some? || (on.Some? && (r.offline || !DeadlinePassed(t.floor.lots[on.value], now))) {
      return [];
    }
    if on.None? {
      RunOfTwo(r, hints, t, open, open);
      return [open];
    }
    var settle := Event(Ticking(on.value), now);
    RunOfTwo(r, hints, t, settle, open);
    events := if SettleIfDue(r, t.floor, on.value, now).Ok? then [settle, open] else [settle];
  }
}
