/** The lot and bid tables, and the transactions on them, as the engine carries them out. */
module AuctionFloor {
  import opened Common
  import opened Ledger
  import opened Sales
  import opened Auction
  import opened RunningOrder

  datatype LotRow = LotRow(
    question: Qid,
    state: LotState,
    order: int,
    noBid: Option<Time>,
    ends: Option<Time>,
    currentBid: Option<int>,
    currentBidder: Option<Pid>)

  datatype BidRow = BidRow(id: nat, lot: nat, who: Pid, amount: int)

  /** The bids on one lot, oldest first. */
  function StackOf(bids: seq<BidRow>, lot: nat): seq<Bid> {
    if bids == [] then []
    else
      var last := bids[|bids| - 1];
      StackOf(bids[..|bids| - 1], lot) + if last.lot == lot then [Bid(last.who, last.amount)] else []
  }

  /** Where the newest bid on a lot, counting back from `upTo`, is in the table. */
  function Newest(bids: seq<BidRow>, lot: nat, upTo: nat): (k: Option<nat>)
    requires upTo <= |bids|
    ensures k.Some? ==> k.value < upTo && bids[k.value].lot == lot
    ensures k.Some? ==> forall j :: k.value < j < upTo ==> bids[j].lot != lot
    ensures k.None? ==> forall j :: 0 <= j < upTo ==> bids[j].lot != lot
  {
    if upTo == 0 then None
    else if bids[upTo - 1].lot == lot then Some(upTo - 1)
    else Newest(bids, lot, upTo - 1)
  }

  function LotView(row: LotRow, bids: seq<BidRow>, i: nat): Lot {
    var top := if row.currentBid.Some? && row.currentBidder.Some?
               then Some(Bid(row.currentBidder.value, row.currentBid.value)) else None;
    Lot(row.question, row.state, row.order, row.noBid, row.ends, top, StackOf(bids, i))
  }

  function LotsView(rows: seq<LotRow>, bids: seq<BidRow>): (lots: seq<Lot>)
    ensures |lots| == |rows|
    ensures forall i :: 0 <= i < |rows| ==> lots[i] == LotView(rows[i], bids, i)
  {
    seq(|rows|, i requires 0 <= i < |rows| => LotView(rows[i], bids, i))
  }

  lemma StackAppend(bids: seq<BidRow>, row: BidRow, lot: nat)
    ensures StackOf(bids + [row], lot)
         == StackOf(bids, lot) + if row.lot == lot then [Bid(row.who, row.amount)] else []
  {
    assert (bids + [row])[..|bids|] == bids;
  }

  /** Rows of other lots do not show in this lot's stack. */
  lemma {:induction false} StackUpTo(bids: seq<BidRow>, lot: nat, k: nat)
    requires k <= |bids|
    requires forall j :: k <= j < |bids| ==> bids[j].lot != lot
    ensures StackOf(bids, lot) == StackOf(bids[..k], lot)
    decreases |bids|
  {
    if k < |bids| {
      var front := bids[..|bids| - 1];
      assert front[..k] == bids[..k];
      StackUpTo(front, lot, k);
    } else {
      assert bids[..k] == bids;
    }
  }

  /** The newest row is the top of its lot's stack; the row before it is what lies below. */
  lemma NewestIsTop(bids: seq<BidRow>, lot: nat, upTo: nat)
    requires upTo <= |bids|
    ensures var k, stack := Newest(bids, lot, upTo), StackOf(bids[..upTo], lot);
            && (k.None? <==> stack == [])
            && (k.Some? ==>
                  && stack == StackOf(bids[..k.value], lot) + [Bid(bids[k.value].who, bids[k.value].amount)])
  {
    var k := Newest(bids, lot, upTo);
    if k.None? {
      StackUpTo(bids[..upTo], lot, 0);
    } else {
      StackUpTo(bids[..upTo], lot, k.value + 1);
      assert bids[..upTo][..k.value + 1] == bids[..k.value] + [bids[k.value]];
      StackAppend(bids[..k.value], bids[k.value], lot);
    }
  }

  /** Deleting the newest row of a lot pops its stack and leaves every other stack alone. */
  lemma {:induction false} StackDelete(bids: seq<BidRow>, k: nat, lot: nat)
    requires k < |bids|
    requires forall j :: k < j < |bids| ==> bids[j].lot != bids[k].lot
    ensures StackOf(bids[..k] + bids[k + 1..], lot)
         == if lot == bids[k].lot then StackOf(bids[..k], lot) else StackOf(bids, lot)
    decreases |bids|
  {
    var n := |bids| - 1;
    var front := bids[..n];
    assert bids == front + [bids[n]];
    StackAppend(front, bids[n], lot);
    hide StackOf;
    if k == n {
      assert bids[..k] + bids[k + 1..] == bids[..k];
    } else {
      StackDelete(front, k, lot);
      assert front[..k] == bids[..k];
      assert bids[k + 1..] == front[k + 1..] + [bids[n]];
      assert bids[..k] + bids[k + 1..] == (front[..k] + front[k + 1..]) + [bids[n]];
      StackAppend(front[..k] + front[k + 1..], bids[n], lot);
    }
  }

  /** Adding a bid row and rewriting its lot's row changes that lot alone. */
  lemma ViewAfterBid(rows: seq<LotRow>, bids: seq<BidRow>, row: BidRow, changed: LotRow)
    requires row.lot < |rows|
    ensures LotsView(rows[row.lot := changed], bids + [row])
         == LotsView(rows, bids)[row.lot := LotView(changed, bids, row.lot).(
              stack := StackOf(bids, row.lot) + [Bid(row.who, row.amount)])]
  {
    var after := LotsView(rows, bids)[row.lot := LotView(changed, bids, row.lot).(
      stack := StackOf(bids, row.lot) + [Bid(row.who, row.amount)])];
    forall j | 0 <= j < |rows|
      ensures LotsView(rows[row.lot := changed], bids + [row])[j] == after[j]
    {
      StackAppend(bids, row, j);
    }
  }

  /** Deleting a lot's newest bid row and rewriting its lot's row changes that lot alone. */
  lemma ViewAfterDelete(rows: seq<LotRow>, bids: seq<BidRow>, k: nat, changed: LotRow)
    requires k < |bids| && bids[k].lot < |rows|
    requires forall j :: k < j < |bids| ==> bids[j].lot != bids[k].lot
    ensures LotsView(rows[bids[k].lot := changed], bids[..k] + bids[k + 1..])
         == LotsView(rows, bids)[bids[k].lot := LotView(changed, bids, bids[k].lot).(
              stack := StackOf(bids[..k], bids[k].lot))]
  {
    var lot := bids[k].lot;
    var after := LotsView(rows, bids)[lot := LotView(changed, bids, lot).(stack := StackOf(bids[..k], lot))];
    forall j | 0 <= j < |rows|
      ensures LotsView(rows[lot := changed], bids[..k] + bids[k + 1..])[j] == after[j]
    {
      StackDelete(bids, k, j);
    }
  }

  predicate BidsOk(bids: seq<BidRow>, nextId: nat, lots: nat) {
    && (forall k :: 0 <= k < |bids| ==> bids[k].id < nextId && bids[k].lot < lots)
    && (forall j, k :: 0 <= j < k < |bids| ==> bids[j].id < bids[k].id)
  }

  lemma DeleteKeepsBidsOk(bids: seq<BidRow>, nextId: nat, lots: nat, k: nat)
    requires BidsOk(bids, nextId, lots) && k < |bids|
    ensures BidsOk(bids[..k] + bids[k + 1..], nextId, lots)
  {
  }

  predicate RowOk(row: LotRow, base: map<Qid, int>) {
    (row.currentBid.Some? <==> row.currentBidder.Some?) && row.question in base
  }

  /** What a transaction leaves: the floor the rules say, or the old one and why not. */
  predicate Lands(before: Floor, after: Floor, refused: Option<Refusal>, wanted: Result<Floor, Refusal>) {
    match wanted
    case Ok(f) => refused == None && after == f
    case Err(e) => refused == Some(e) && after == before
  }

  class FloorTables {
    const rules: Rules
    const desk: SalesDesk
    var lots: seq<LotRow>
    var bids: seq<BidRow>
    /** The id sequence of the bid table. */
    var nextId: nat
    var paused: Option<Time>
    var disqualified: set<Pid>

    predicate Valid()
      reads this
    {
      && (forall i :: 0 <= i < |lots| ==> RowOk(lots[i], rules.base))
      && BidsOk(bids, nextId, |lots|)
    }

    function View(): Floor
      reads this, desk, desk.wallet
    {
      Floor(LotsView(lots, bids), paused, desk.View(), disqualified)
    }

    constructor (rules: Rules, desk: SalesDesk)
      ensures this.rules == rules && this.desk == desk
      ensures Valid() && View() == Floor([], None, desk.View(), {})
    {
      this.rules, this.desk := rules, desk;
      lots, bids, nextId := [], [], 0;
      paused, disqualified := None, {};
    }

    method UpdateLot(i: nat, row: LotRow)
      requires Valid() && i < |lots| && RowOk(row, rules.base)
      modifies this`lots
      ensures Valid()
      ensures View() == old(View()).(lots := old(View()).lots[i := LotView(row, bids, i)])
    {
      ghost var before := View();
      lots := lots[i := row];
      assert LotsView(lots, bids) == before.lots[i := LotView(row, bids, i)];
    }

    /** Which lot is open, read from the rows. */
    method FindOpen() returns (on: Option<nat>)
      ensures on == OpenLot(LotsView(lots, bids))
    {
      hide StackOf;
      var i := |lots|;
      assert LotsView(lots, bids)[..i] == LotsView(lots, bids);
      while i > 0 && lots[i - 1].state != Open
        invariant 0 <= i <= |lots|
        invariant OpenLot(LotsView(lots, bids)) == OpenLot(LotsView(lots, bids)[..i])
      {
        assert LotsView(lots, bids)[..i][..i - 1] == LotsView(lots, bids)[..i - 1];
        i := i - 1;
      }
      assert i > 0 ==> LotsView(lots, bids)[..i][i - 1].state == Open;
      on := if i == 0 then None else Some(i - 1);
    }

    // ----- bidding ------------------------------------------------------------------------

    method PlaceBid(i: nat, p: Pid, amount: int, blackedOut: bool, now: Time) returns (refused: Option<Refusal>)
      requires Valid()
      modifies this`lots, this`bids, this`nextId
      ensures Valid()
      ensures Lands(old(View()), View(), refused, Auction.PlaceBid(rules, old(View()), i, p, amount, blackedOut, now))
    {
      if blackedOut {
        return Some(BlackedOut);
      }
      if i >= |lots| {
        return Some(NoSuchLot);
      }
      if p !in desk.wallet.balance {
        return Some(NotAParticipant);
      }
      refused := CheckBid(lots[i], p, amount, now);
      if refused.None? {
        RecordBid(i, p, amount, now);
      }
    }

    method CheckBid(target: LotRow, p: Pid, amount: int, now: Time) returns (refused: Option<Refusal>)
      requires p in desk.wallet.balance && RowOk(target, rules.base)
      ensures forall i: nat :: refused == Auction.CheckBid(rules, View(), LotView(target, bids, i), p, amount, now)
    {
      if p in disqualified {
        return Some(Disqualified);
      }
      if rules.offline {
        return Some(BidInTheRoom);
      }
      if paused.Some? {
        return Some(AuctionPaused);
      }
      var live := if target.currentBidder.None? then target.noBid else target.ends;
      if target.state != Open || (live.Some? && live.value <= now) {
        return Some(BiddingClosed);
      }
      if target.currentBidder == Some(p) {
        return Some(AlreadyHighest);
      }
      var expected :=
        if target.currentBid.None? then rules.base[target.question] else target.currentBid.value + rules.increment;
      if amount != expected {
        return Some(WrongIncrement(expected));
      }
      if amount > desk.wallet.balance[p] {
        return Some(TooPoor);
      }
      if rules.cap.Some? && |Owned(desk.View(), p)| >= rules.cap.value {
        return Some(CapReached);
      }
      refused := None;
    }

    method RecordBid(i: nat, p: Pid, amount: int, now: Time)
      requires Valid() && i < |lots|
      modifies this`lots, this`bids, this`nextId
      ensures Valid()
      ensures var lot := old(View()).lots[i];
              View() == old(View()).(lots := old(View()).lots[i := lot.(
                top := Some(Bid(p, amount)), stack := lot.stack + [Bid(p, amount)],
                noBid := None, ends := Countdown(rules, now))])
    {
      hide StackOf;
      var row := BidRow(nextId, i, p, amount);
      var ends := if rules.countdown > 0 then Some(now + rules.countdown * SECOND) else None;
      var changed := lots[i].(currentBid := Some(amount), currentBidder := Some(p), noBid := None, ends := ends);
      ViewAfterBid(lots, bids, row, changed);
      bids, nextId, lots := bids + [row], nextId + 1, lots[i := changed];
      assert BidsOk(bids, nextId, |lots|);
    }

    // ----- the organiser's hands ------------------------------------------------------------

    method RetractTopBid(now: Time) returns (refused: Option<Refusal>)
      requires Valid()
      modifies this`lots, this`bids, this`nextId
      ensures Valid()
      ensures Lands(old(View()), View(), refused, Auction.RetractTopBid(rules, old(View()), now))
    {
      hide StackOf;
      hide Newest;
      var on := FindOpen();
      if on.None? {
        return Some(NoOpenLot);
      }
      var i := on.value;
      var top := Newest(bids, i, |bids|);
      NewestIsTop(bids, i, |bids|);
      assert bids[..|bids|] == bids;
      if top.None? {
        return Some(NoBids);
      }
      var k := top.value;
      var prev := Newest(bids, i, k);
      NewestIsTop(bids, i, k);
      var countdown := if rules.countdown > 0 then Some(now + rules.countdown * SECOND) else None;
      var changed := lots[i];
      if prev.Some? {
        var held := bids[prev.value];
        changed := changed.(
          currentBid := Some(held.amount), currentBidder := Some(held.who), noBid := None, ends := countdown);
      } else {
        changed := changed.(
          currentBid := None, currentBidder := None, noBid := Some(now + rules.window * SECOND), ends := None);
      }
      DeleteBid(k, changed);
      refused := None;
    }

    /** Delete a lot's newest bid row and rewrite the lot's own row. */
    method DeleteBid(k: nat, changed: LotRow)
      requires Valid() && k < |bids| && RowOk(changed, rules.base)
      requires forall j :: k < j < |bids| ==> bids[j].lot != bids[k].lot
      modifies this`lots, this`bids
      ensures Valid()
      ensures View() == old(View()).(lots := old(View()).lots[old(bids)[k].lot :=
                LotView(changed, old(bids), old(bids)[k].lot).(stack := StackOf(old(bids)[..k], old(bids)[k].lot))])
    {
      ViewAfterDelete(lots, bids, k, changed);
      DeleteKeepsBidsOk(bids, nextId, |lots|, k);
      bids, lots := bids[..k] + bids[k + 1..], lots[bids[k].lot := changed];
    }

    method Pause(now: Time) returns (refused: Option<Refusal>)
      requires Valid()
      modifies this`paused
      ensures Valid() && Lands(old(View()), View(), refused, Auction.Pause(old(View()), now))
    {
      if paused.Some? {
        return Some(AlreadyPaused);
      }
      paused := Some(now);
      refused := None;
    }

    /** The open lot's deadlines are later by as long as the pause lasted, and by nothing else. */
    method Resume(now: Time) returns (refused: Option<Refusal>, held: int)
      requires Valid()
      modifies this`paused, this`lots
      ensures Valid() && Lands(old(View()), View(), refused, Auction.Resume(old(View()), now))
      ensures refused.None? ==> old(paused).Some? && held == now - old(paused).value
    {
      if paused.None? {
        return Some(NotPaused), 0;
      }
      held := now - paused.value;
      ghost var before := View();
      var rows := lots;
      lots := seq(|rows|, i requires 0 <= i < |rows| =>
        if rows[i].state == Open
        then rows[i].(noBid := Later(rows[i].noBid, held), ends := Later(rows[i].ends, held))
        else rows[i]);
      paused := None;
      assert View().lots == Shifted(before.lots, held);
      refused := None;
    }

    method SetLotTimer(mode: TimerMode, now: Time) returns (refused: Option<Refusal>)
      requires Valid()
      modifies this`lots
      ensures Valid() && Lands(old(View()), View(), refused, Auction.SetLotTimer(rules, old(View()), mode, now))
    {
      var on := FindOpen();
      if on.None? {
        return Some(NoOpenLot);
      }
      var row := lots[on.value];
      var clocks := NewClock(rules, LotView(row, bids, on.value), mode, now);
      if clocks.Err? {
        return Some(clocks.error);
      }
      UpdateLot(on.value, row.(noBid := clocks.value.0, ends := clocks.value.1));
      refused := None;
    }

    // ----- a lot's life -----------------------------------------------------------------------

    method OpenNextLot(now: Time) returns (refused: Option<Refusal>)
      requires Valid()
      modifies this`lots
      ensures Valid() && Lands(old(View()), View(), refused, Auction.OpenNextLot(rules, old(View()), now))
    {
      if paused.Some? {
        return Some(AuctionPaused);
      }
      var on := FindOpen();
      if on.Some? {
        return Some(AlreadyOpen);
      }
      var next := FirstPending(LotsView(lots, bids));
      if next.None? {
        return Some(NothingPending);
      }
      var window := if rules.offline then None else Some(now + rules.window * SECOND);
      UpdateLot(next.value, lots[next.value].(state := Open, noBid := window, ends := None));
      refused := None;
    }

    method Settle(i: nat) returns (refused: Option<Refusal>)
      requires Valid() && i < |lots|
      modifies this`lots, desk, desk.wallet
      ensures Valid() && Lands(old(View()), View(), refused, Auction.Settle(old(View()), i))
    {
      var target := lots[i];
      if target.currentBidder.None? || target.currentBid.None? {
        UpdateLot(i, target.(state := Unsellable));
        return None;
      }
      var charge := desk.Award(target.question, target.currentBidder.value, target.currentBid.value);
      if charge.Some? {
        return Some(SaleRefused(charge.value));
      }
      UpdateLot(i, target.(state := Closed));
      refused := None;
    }

    method CloseLot(i: nat) returns (refused: Option<Refusal>)
      requires Valid()
      modifies this`lots, desk, desk.wallet
      ensures Valid() && Lands(old(View()), View(), refused, Auction.CloseLot(old(View()), i))
    {
      if i >= |lots| || lots[i].state != Open {
        return Some(NotOpen);
      }
      refused := Settle(i);
    }

    method SettleIfDue(i: nat, now: Time) returns (refused: Option<Refusal>)
      requires Valid()
      modifies this`lots, desk, desk.wallet
      ensures Valid() && Lands(old(View()), View(), refused, Auction.SettleIfDue(rules, old(View()), i, now))
    {
      if paused.Some? {
        return Some(AuctionPaused);
      }
      if rules.offline {
        return Some(BidInTheRoom);
      }
      if i >= |lots| || lots[i].state != Open {
        return Some(NotOpen);
      }
      if !DeadlinePassed(LotView(lots[i], bids, i), now) {
        return Some(NotDue);
      }
      refused := Settle(i);
    }

    method Tick(now: Time)
      requires Valid()
      modifies this`lots, desk, desk.wallet
      ensures Valid() && View() == Ticked(rules, old(View()), now)
    {
      if paused.Some? {
        return;
      }
      var on := FindOpen();
      if on.None? {
        var _ := OpenNextLot(now);
      } else if !rules.offline && DeadlinePassed(LotView(lots[on.value], bids, on.value), now) {
        var refused := SettleIfDue(on.value, now);
        if refused.None? {
          var _ := OpenNextLot(now);
        }
      }
    }

    // ----- the running order --------------------------------------------------------------------

    method WithdrawLot(i: nat) returns (refused: Option<Refusal>)
      requires Valid()
      modifies this`lots
      ensures Valid() && Lands(old(View()), View(), refused, Auction.WithdrawLot(old(View()), i))
    {
      if i >= |lots| {
        return Some(NoSuchLot);
      }
      if lots[i].state == Withdrawn {
        return Some(AlreadyWithdrawn);
      }
      if lots[i].state == Closed || lots[i].state == Unsellable {
        return Some(AlreadySettled);
      }
      UpdateLot(i, lots[i].(state := Withdrawn, noBid := None, ends := None));
      refused := None;
    }

    method RestoreLot(i: nat) returns (refused: Option<Refusal>)
      requires Valid()
      modifies this`lots
      ensures Valid() && Lands(old(View()), View(), refused, Auction.RestoreLot(old(View()), i))
    {
      if i >= |lots| {
        return Some(NoSuchLot);
      }
      if lots[i].state != Withdrawn {
        return Some(NotWithdrawn);
      }
      var order := LastOrder(LotsView(lots, bids)) + 1;
      UpdateLot(i, lots[i].(state := Pending, order := order, currentBid := None, currentBidder := None));
      refused := None;
    }

    method RelistQuestion(q: Qid)
      requires Valid() && q in rules.base
      modifies this`lots
      ensures Valid() && View() == old(View()).(lots := Relisted(old(View()).lots, q))
    {
      ghost var before := View();
      var order := LastOrder(LotsView(lots, bids)) + 1;
      var relisted := LotRow(q, Pending, order, None, None, None, None);
      var at := LotOf(LotsView(lots, bids), q);
      if at.Some? {
        UpdateLot(at.value, relisted);
      } else {
        AppendLot(relisted);
      }
    }

    method TakeBackAndRelist(q: Qid, refundPrice: bool, refundHints: bool) returns (refused: Option<Refusal>)
      requires Valid() && q in rules.base
      modifies this`lots, desk, desk.wallet
      ensures Valid() && Lands(old(View()), View(), refused, Auction.TakeBackAndRelist(old(View()), q, refundPrice, refundHints))
    {
      var refusal := desk.TakeBackQuestion(q, refundPrice, refundHints);
      if refusal.Some? {
        return Some(SaleRefused(refusal.value));
      }
      RelistQuestion(q);
      refused := None;
    }

    /** A round's lots, in the order given. A question that already has a lot in the round keeps it. */
    method CreateLotsForRound(ids: seq<Qid>)
      requires Valid() && forall k :: 0 <= k < |ids| ==> ids[k] in rules.base
      modifies this`lots
      ensures Valid() && View() == old(View()).(lots := WithLots(old(View()).lots, ids, |ids|))
    {
      hide StackOf;
      hide LotView;
      hide LotsView;
      hide LotOf;
      ghost var before := View();
      var n := 0;
      while n < |ids|
        invariant 0 <= n <= |ids|
        invariant Valid() && View() == before.(lots := WithLots(before.lots, ids, n))
      {
        AddLotFor(ids[n], n + 1);
        n := n + 1;
      }
    }

    /** One question's pending lot, unless it has a lot already. */
    method AddLotFor(q: Qid, order: int)
      requires Valid() && q in rules.base
      modifies this`lots
      ensures Valid()
      ensures View() == if LotOf(old(View()).lots, q).Some? then old(View())
                        else old(View()).(lots := old(View()).lots + [Lot(q, Pending, order, None, None, None, [])])
    {
      hide LotOf;
      hide StackOf;
      hide LotView;
      if LotOf(LotsView(lots, bids), q).None? {
        AppendLot(LotRow(q, Pending, order, None, None, None, None));
      }
    }

    method AppendLot(row: LotRow)
      requires Valid() && RowOk(row, rules.base) && row.currentBid.None?
      modifies this`lots
      ensures Valid()
      ensures View() == old(View()).(lots := old(View()).lots
                + [Lot(row.question, row.state, row.order, row.noBid, row.ends, None, [])])
    {
      ghost var before := View();
      lots := lots + [row];
      StackUpTo(bids, |before.lots|, 0);
      assert View().lots == before.lots + [LotView(row, bids, |before.lots|)];
    }

    method SetOrder(i: nat, order: int)
      requires Valid() && i < |lots|
      modifies this`lots
      ensures Valid() && |lots| == |old(lots)|
      ensures View() == old(View()).(lots := old(View()).lots[i := old(View()).lots[i].(order := order)])
    {
      UpdateLot(i, lots[i].(order := order));
    }

    method ReorderLots(wanted: seq<nat>) returns (done: bool)
      requires Valid()
      modifies this`lots
      ensures Valid() && done == ListsThePending(old(View()).lots, wanted)
      ensures done ==> |wanted| == |Slots(old(View()).lots)| && forall k :: 0 <= k < |wanted| ==> wanted[k] < |old(lots)|
      ensures View() == if !done then old(View()) else
                old(View()).(lots := Reassigned(old(View()).lots, wanted, Slots(old(View()).lots), |wanted|))
    {
      var before := LotsView(lots, bids);
      if multiset(wanted) != multiset(PendingIds(before)) {
        return false;
      }
      ReorderFollowsTheRequest(before, wanted);
      AssignSlots(wanted, Slots(before));
      done := true;
    }

    /** Each wanted lot takes the next slot. */
    method AssignSlots(wanted: seq<nat>, slots: seq<int>)
      requires Valid() && |wanted| == |slots|
      requires forall k :: 0 <= k < |wanted| ==> wanted[k] < |lots|
      modifies this`lots
      ensures Valid()
      ensures View() == old(View()).(lots := Reassigned(old(View()).lots, wanted, slots, |wanted|))
    {
      ghost var floor := View();
      var k := 0;
      while k < |wanted|
        invariant 0 <= k <= |wanted| && |lots| == |floor.lots|
        invariant Valid() && View() == floor.(lots := Reassigned(floor.lots, wanted, slots, k))
      {
        SetOrder(wanted[k], slots[k]);
        k := k + 1;
      }
    }
  }
}
