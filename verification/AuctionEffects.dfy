/** What each step of the auction does, told by the rows of the tables alone. */
module AuctionEffects {
  import opened Common
  import opened Ledger
  import opened Sales
  import opened SaleEffects
  import opened Auction

  /** Of the lots only this one changes, and it keeps its question. */
  ghost predicate OnlyLot(f: Floor, f': Floor, i: nat) {
    && i < |f.lots| && |f'.lots| == |f.lots| && f'.disqualified == f.disqualified
    && f'.lots[i].question == f.lots[i].question
    && forall j :: 0 <= j < |f.lots| && j != i ==> f'.lots[j] == f.lots[j]
  }

  /** The deadline that counts for a lot: one before its first bid, another after. */
  predicate TimeUp(lot: Lot, now: Time) {
    if lot.top.Some? then lot.ends.Some? && lot.ends.value <= now
    else lot.noBid.Some? && lot.noBid.value <= now
  }

  lemma TimeUpIff(lot: Lot, now: Time)
    ensures DeadlinePassed(lot, now) <==> TimeUp(lot, now)
  {
  }

  // ----- bidding --------------------------------------------------------------------------------------------

  /** The one amount a bid may be: the base price first, then an increment more each time. */
  function Asked(r: Rules, lot: Lot): int
    requires lot.question in r.base
  {
    if lot.top.Some? then lot.top.value.amount + r.increment else r.base[lot.question]
  }

  /** The questions a participant holds. */
  function Holdings(b: Book, p: Pid): set<Qid> {
    set q | q in b.owner && SomebodyOwns(b, q) && b.owner[q].who == p
  }

  predicate UnderCap(r: Rules, b: Book, p: Pid) {
    r.cap.Some? ==> |Holdings(b, p)| < r.cap.value
  }

  lemma CapIff(r: Rules, b: Book, p: Pid)
    ensures AtCap(r, b, p) <==> !UnderCap(r, b, p)
  {
    assert Owned(b, p) == Holdings(b, p);
  }

  /** Somebody may bid: every condition there is. */
  predicate MayBid(r: Rules, f: Floor, i: nat, p: Pid, amount: int, blackedOut: bool, now: Time)
    requires PricesKnown(r, f)
  {
    && !blackedOut && i < |f.lots| && p in f.book.money.balance && p !in f.disqualified
    && !r.offline && f.paused.None? && f.lots[i].state == Open && !TimeUp(f.lots[i], now)
    && (f.lots[i].top.Some? ==> f.lots[i].top.value.who != p)
    && amount == Asked(r, f.lots[i]) && amount <= f.book.money.balance[p] && UnderCap(r, f.book, p)
  }

  /** What each refusal of a bid tells. */
  predicate BidRefusedFor(r: Rules, f: Floor, i: nat, p: Pid, amount: int, blackedOut: bool, now: Time, e: Refusal)
    requires PricesKnown(r, f)
  {
    match e
    case BlackedOut => blackedOut
    case NoSuchLot => i >= |f.lots|
    case NotAParticipant => p !in f.book.money.balance
    case Disqualified => p in f.disqualified
    case BidInTheRoom => r.offline
    case AuctionPaused => f.paused.Some?
    case BiddingClosed => i < |f.lots| && (f.lots[i].state != Open || TimeUp(f.lots[i], now))
    case AlreadyHighest => i < |f.lots| && f.lots[i].top.Some? && f.lots[i].top.value.who == p
    case WrongIncrement(expected) => i < |f.lots| && expected == Asked(r, f.lots[i]) && amount != expected
    case TooPoor => p in f.book.money.balance && amount > f.book.money.balance[p]
    case CapReached => !UnderCap(r, f.book, p)
    case _ => false
  }

  /** The bid stands on top of the lot's, no money has moved, and the countdown starts afresh. */
  ghost predicate BidStands(r: Rules, f: Floor, f': Floor, i: nat, p: Pid, amount: int, now: Time) {
    && OnlyLot(f, f', i) && f'.paused == f.paused && f'.book == f.book
    && f'.lots[i] == Lot(f.lots[i].question, f.lots[i].state, f.lots[i].order, None,
                         if r.countdown > 0 then Some(now + 1000 * r.countdown) else None,
                         Some(Bid(p, amount)), f.lots[i].stack + [Bid(p, amount)])
  }

  lemma BidDoes(r: Rules, f: Floor, i: nat, p: Pid, amount: int, blackedOut: bool, now: Time)
    requires PricesKnown(r, f)
    ensures var bid := PlaceBid(r, f, i, p, amount, blackedOut, now);
            && (bid.Ok? <==> MayBid(r, f, i, p, amount, blackedOut, now))
            && (bid.Ok? ==> BidStands(r, f, bid.value, i, p, amount, now))
            && (bid.Err? ==> BidRefusedFor(r, f, i, p, amount, blackedOut, now, bid.error))
  {
    if i < |f.lots| {
      TimeUpIff(f.lots[i], now);
    }
    CapIff(r, f.book, p);
    hide DeadlinePassed;
    hide TimeUp;
    hide AtCap;
    hide UnderCap;
  }

  /** The newest bid on the open lot is gone. The one below it stands with a fresh countdown, or, with none below, the
      lot is back to its base price with a fresh window. */
  lemma RetractionDoes(r: Rules, f: Floor, i: nat, now: Time)
    requires OnlyOpen(f.lots, i)
    ensures var back := RetractTopBid(r, f, now);
            && (back.Ok? <==> f.lots[i].stack != [])
            && (back.Err? ==> back.error == NoBids)
            && (back.Ok? ==>
                  && OnlyLot(f, back.value, i) && back.value.paused == f.paused && back.value.book == f.book
                  && var lot, n := f.lots[i], |f.lots[i].stack| - 1;
                     back.value.lots[i] ==
                       if n == 0
                       then Lot(lot.question, Open, lot.order, Some(now + 1000 * r.window), None, None, [])
                       else Lot(lot.question, Open, lot.order, None,
                                if r.countdown > 0 then Some(now + 1000 * r.countdown) else None,
                                Some(lot.stack[n - 1]), lot.stack[..n]))
  {
  }

  // ----- opening and settling ----------------------------------------------------------------------------------

  ghost predicate NoneOpen(lots: seq<Lot>) {
    forall j :: 0 <= j < |lots| ==> lots[j].state != Open
  }

  ghost predicate OnlyOpen(lots: seq<Lot>, i: nat) {
    i < |lots| && lots[i].state == Open && forall j :: 0 <= j < |lots| && lots[j].state == Open ==> j == i
  }

  ghost predicate NonePending(lots: seq<Lot>) {
    forall j :: 0 <= j < |lots| ==> lots[j].state != Pending
  }

  /** The pending lot that comes first in the order is on offer, with a whole window unless bids are taken in the
      room. */
  ghost predicate NextOffered(r: Rules, f: Floor, f': Floor, now: Time) {
    exists i: nat ::
      && OnlyLot(f, f', i) && f'.paused == f.paused && f'.book == f.book
      && f.lots[i].state == Pending
      && (forall j :: 0 <= j < |f.lots| && f.lots[j].state == Pending ==> f.lots[i].order <= f.lots[j].order)
      && f'.lots[i] == Lot(f.lots[i].question, Open, f.lots[i].order,
                           if r.offline then None else Some(now + 1000 * r.window), None, f.lots[i].top, f.lots[i].stack)
  }

  lemma OpeningDoes(r: Rules, f: Floor, now: Time)
    ensures var next := OpenNextLot(r, f, now);
            && (next.Ok? <==> f.paused.None? && NoneOpen(f.lots) && !NonePending(f.lots))
            && (next.Ok? ==> NextOffered(r, f, next.value, now))
            && (next.Err? ==>
                  match next.error
                  case AuctionPaused => f.paused.Some?
                  case AlreadyOpen => !NoneOpen(f.lots)
                  case NothingPending => NonePending(f.lots)
                  case _ => false)
  {
    var next := OpenNextLot(r, f, now);
    if next.Ok? {
      var i := FirstPending(f.lots).value;
      assert OnlyLot(f, next.value, i);
    }
  }

  /** A lot settled. With a bidder: it is closed, the question is theirs at their bid, and they paid exactly that.
      Without: it is recorded unsold, and neither money nor ownership moves. Nothing else of the lot changes, and no
      other lot. */
  ghost predicate LotSettled(f: Floor, f': Floor, i: nat) {
    && OnlyLot(f, f', i) && f'.paused == f.paused
    && var lot, after := f.lots[i], f'.lots[i];
       && lot.state == Open
       && after.order == lot.order && after.noBid == lot.noBid && after.ends == lot.ends
       && after.top == lot.top && after.stack == lot.stack
       && (after.state == Closed <==> lot.top.Some?)
       && (after.state == Unsellable <==> lot.top.None?)
       && (if lot.top.Some? then SoldTo(f.book, f'.book, lot.question, lot.top.value.who, lot.top.value.amount)
           else f'.book == f.book)
  }

  /** The bidder of an open lot can be sold it. */
  ghost predicate CanSettle(f: Floor, i: nat) {
    && i < |f.lots| && f.lots[i].state == Open
    && (f.lots[i].top.Some? ==>
          && f.lots[i].top.value.who in f.book.money.balance
          && f.book.money.balance[f.lots[i].top.value.who] >= f.lots[i].top.value.amount
          && !SomebodyOwns(f.book, f.lots[i].question))
  }

  /** Closed by hand. */
  lemma ClosingDoes(f: Floor, i: nat)
    ensures var closed := CloseLot(f, i);
            && (closed.Ok? <==> CanSettle(f, i))
            && (closed.Ok? ==> LotSettled(f, closed.value, i))
  {
    if i < |f.lots| && f.lots[i].top.Some? {
      AwardDoes(f.book, f.lots[i].question, f.lots[i].top.value.who, f.lots[i].top.value.amount);
    }
    hide Awarded;
    hide SoldTo;
  }

  /** Closed by the clock: never in a pause, never when bids are taken in the room, and only once time is up. */
  lemma ClockDoes(r: Rules, f: Floor, i: nat, now: Time)
    ensures var settled := SettleIfDue(r, f, i, now);
            && (settled.Ok? <==> f.paused.None? && !r.offline && CanSettle(f, i) && TimeUp(f.lots[i], now))
            && (settled.Ok? ==> LotSettled(f, settled.value, i))
  {
    ClosingDoes(f, i);
    if i < |f.lots| {
      TimeUpIff(f.lots[i], now);
    }
    hide Settle;
    hide LotSettled;
    hide CanSettle;
    hide DeadlinePassed;
    hide TimeUp;
  }

  /** One second of the scheduler. Paused, it does nothing. With no lot open it offers the next, if there is one. With
      one open it settles it once its time is up and it can be settled, and offers the next in the same second. */
  lemma TickDoes(r: Rules, f: Floor, now: Time)
    ensures var f' := Ticked(r, f, now);
            && (f.paused.Some? ==> f' == f)
            && (f.paused.None? && NoneOpen(f.lots) ==> Offers(r, f, f', now))
    ensures forall i :: OnlyOpen(f.lots, i) && f.paused.None? ==> TicksOpen(r, f, Ticked(r, f, now), i, now)
  {
    OpeningDoes(r, f, now);
    forall i | OnlyOpen(f.lots, i) && f.paused.None?
      ensures TicksOpen(r, f, Ticked(r, f, now), i, now)
    {
      TickOfOpen(r, f, i, now);
    }
    hide NextOffered;
    hide OpenNextLot;
  }

  ghost predicate Offers(r: Rules, f: Floor, f': Floor, now: Time) {
    if NonePending(f.lots) then f' == f else NextOffered(r, f, f', now)
  }

  ghost predicate TicksOpen(r: Rules, f: Floor, f': Floor, i: nat, now: Time)
    requires i < |f.lots|
  {
    if !r.offline && TimeUp(f.lots[i], now) && CanSettle(f, i)
    then exists middle :: LotSettled(f, middle, i) && Offers(r, middle, f', now)
    else f' == f
  }

  lemma TickOfOpen(r: Rules, f: Floor, i: nat, now: Time)
    requires OnlyOpen(f.lots, i) && f.paused.None?
    ensures TicksOpen(r, f, Ticked(r, f, now), i, now)
  {
    ClockDoes(r, f, i, now);
    TimeUpIff(f.lots[i], now);
    assert OpenLot(f.lots) == Some(i);
    var settled := SettleIfDue(r, f, i, now);
    if settled.Ok? {
      OpeningDoes(r, settled.value, now);
      SettledLeavesNoneOpen(f, settled.value, i);
      hide OpenNextLot;
      hide NextOffered;
      hide LotSettled;
      hide NonePending;
      hide NoneOpen;
      assert Offers(r, settled.value, Ticked(r, f, now), now);
    }
    hide SettleIfDue;
    hide CanSettle;
    hide OpenLot;
  }

  lemma SettledLeavesNoneOpen(f: Floor, f': Floor, i: nat)
    requires LotSettled(f, f', i) && OnlyOpen(f.lots, i)
    ensures NoneOpen(f'.lots) && f'.paused == f.paused
  {
    hide SoldTo;
  }

  // ----- the queue ------------------------------------------------------------------------------------------------

  /** A lot not yet settled leaves the floor, with its clocks off. */
  lemma WithdrawalDoes(f: Floor, i: nat)
    ensures var out := WithdrawLot(f, i);
            && (out.Ok? <==> i < |f.lots| && (f.lots[i].state == Pending || f.lots[i].state == Open))
            && (out.Ok? ==>
                  && OnlyLot(f, out.value, i) && out.value.paused == f.paused && out.value.book == f.book
                  && out.value.lots[i] == Lot(f.lots[i].question, Withdrawn, f.lots[i].order, None, None,
                                              f.lots[i].top, f.lots[i].stack))
            && (out.Err? ==>
                  match out.error
                  case NoSuchLot => i >= |f.lots|
                  case AlreadyWithdrawn => i < |f.lots| && f.lots[i].state == Withdrawn
                  case AlreadySettled => i < |f.lots| && (f.lots[i].state == Closed || f.lots[i].state == Unsellable)
                  case _ => false)
  {
  }

  /** One more than the highest place in the queue, which counts from one. */
  ghost predicate LastPlace(lots: seq<Lot>, order: int) {
    && order >= 1 && (forall j :: 0 <= j < |lots| ==> lots[j].order < order)
    && (order == 1 || exists j :: 0 <= j < |lots| && lots[j].order == order - 1)
  }

  lemma {:induction false} LastOrderIs(lots: seq<Lot>)
    ensures LastPlace(lots, LastOrder(lots) + 1)
  {
    if lots != [] {
      var n := |lots| - 1;
      LastOrderIs(lots[..n]);
      if LastOrder(lots[..n]) != 0 {
        var j :| 0 <= j < n && lots[..n][j].order == LastOrder(lots[..n]);
        assert lots[j].order == LastOrder(lots[..n]);
      }
    }
  }

  /** A withdrawn lot is pending again, last in the queue, with no bid standing and its old bid rows kept. */
  lemma RestorationDoes(f: Floor, i: nat)
    ensures var back := RestoreLot(f, i);
            && (back.Ok? <==> i < |f.lots| && f.lots[i].state == Withdrawn)
            && (back.Ok? ==>
                  && OnlyLot(f, back.value, i) && back.value.paused == f.paused && back.value.book == f.book
                  && LastPlace(f.lots, back.value.lots[i].order)
                  && back.value.lots[i] == Lot(f.lots[i].question, Pending, back.value.lots[i].order,
                                               f.lots[i].noBid, f.lots[i].ends, None, f.lots[i].stack))
            && (back.Err? ==> back.error == if i < |f.lots| then NotWithdrawn else NoSuchLot)
  {
    LastOrderIs(f.lots);
    hide LastPlace;
  }

  /** A question taken back is offered again: its lot, or a new one, is pending, last in the queue, with no bid standing;
      old bid rows stay. The sale itself is undone as any take-back undoes it. */
  lemma RelistingDoes(f: Floor, q: Qid, refundPrice: bool, refundHints: bool)
    ensures var back := TakeBackAndRelist(f, q, refundPrice, refundHints);
            var undone := TakenBack(f.book, q, refundPrice, refundHints);
            && (back.Ok? <==> undone.Ok?)
            && (back.Ok? ==>
                  && back.value.book == undone.value
                  && back.value.paused == f.paused && back.value.disqualified == f.disqualified
                  && OfferedAgain(f.lots, back.value.lots, q))
            && (back.Err? ==> back.error == SaleRefused(undone.error))
  {
    LastOrderIs(f.lots);
    var at := LotOf(f.lots, q);
    if at.Some? {
      assert OfferedAgainAt(f.lots, Relisted(f.lots, q), q, at.value);
    }
    hide TakenBack;
    hide LastPlace;
  }

  ghost predicate OfferedAgainAt(lots: seq<Lot>, lots': seq<Lot>, q: Qid, i: nat) {
    && i < |lots| && |lots'| == |lots| && lots[i].question == q && LastPlace(lots, lots'[i].order)
    && lots'[i] == Lot(q, Pending, lots'[i].order, None, None, None, lots[i].stack)
    && forall j :: 0 <= j < |lots| && j != i ==> lots'[j] == lots[j]
  }

  ghost predicate OfferedAgain(lots: seq<Lot>, lots': seq<Lot>, q: Qid) {
    if forall j :: 0 <= j < |lots| ==> lots[j].question != q
    then |lots'| == |lots| + 1 && lots'[..|lots|] == lots && LastPlace(lots, lots'[|lots|].order)
         && lots'[|lots|] == Lot(q, Pending, lots'[|lots|].order, None, None, None, [])
    else exists i: nat :: OfferedAgainAt(lots, lots', q, i)
  }

  // ----- the organiser's hands ------------------------------------------------------------------------------------

  /** A pause marks its moment and touches nothing else. */
  lemma PauseDoes(f: Floor, now: Time)
    ensures var on := Pause(f, now);
            if f.paused.Some? then on == Err(AlreadyPaused)
            else on == Ok(Floor(f.lots, Some(now), f.book, f.disqualified))
  {
  }

  function PushedBack(deadline: Option<Time>, held: int): Option<Time> {
    match deadline
    case None => None
    case Some(t) => Some(t + held)
  }

  /** A resume lifts the pause and moves the deadlines of open lots, and those alone, by as long as it lasted. */
  lemma ResumeDoes(f: Floor, now: Time)
    ensures var off := Resume(f, now);
            && (off.Ok? <==> f.paused.Some?) && (off.Err? ==> off.error == NotPaused)
            && (off.Ok? ==>
                  && off.value.paused == None && off.value.book == f.book && off.value.disqualified == f.disqualified
                  && |off.value.lots| == |f.lots|
                  && forall i :: 0 <= i < |f.lots| ==>
                       var lot := f.lots[i];
                       off.value.lots[i] ==
                         if lot.state == Open
                         then Lot(lot.question, Open, lot.order, PushedBack(lot.noBid, now - f.paused.value),
                                  PushedBack(lot.ends, now - f.paused.value), lot.top, lot.stack)
                         else lot)
  {
  }

  /** Why an organiser's change to the timer is refused. */
  lemma TimerRefusedIff(r: Rules, f: Floor, mode: TimerMode, now: Time, i: nat)
    requires OnlyOpen(f.lots, i)
    ensures var changed, lot := SetLotTimer(r, f, mode, now), f.lots[i];
            changed.Err? <==>
              match mode
              case Off => false
              case Restart => (if lot.top.Some? then r.countdown else r.window) <= 0
              case Adjust(seconds) => seconds == 0 || (if lot.top.Some? then lot.ends else lot.noBid).None?
  {
    assert OpenLot(f.lots) == Some(i);
  }
}
