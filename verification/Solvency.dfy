/** Why no bid needs a reservation: in a round where winning is the only way to spend, every bid on the
    open lot's stack stays covered and under the cap, so settlement is never refused. */
module Solvency {
  import opened Common
  import opened Ledger
  import opened Sales
  import opened Auction
  import opened AuctionRuns

  /** A bid its bidder could still be charged for. */
  ghost predicate Covered(r: Rules, b: Book, bid: Bid) {
    bid.who in b.money.balance && bid.amount <= b.money.balance[bid.who] && !AtCap(r, b, bid.who)
  }

  predicate OnOffer(lot: Lot) {
    lot.state == Pending || lot.state == Open
  }

  ghost predicate Solvent(r: Rules, f: Floor) {
    && OneOpen(f.lots)
    && (forall i, k :: 0 <= i < |f.lots| && f.lots[i].state == Open && 0 <= k < |f.lots[i].stack| ==>
          Covered(r, f.book, f.lots[i].stack[k]))
    && (forall i :: 0 <= i < |f.lots| && f.lots[i].state == Pending ==> f.lots[i].stack == [] && f.lots[i].top == None)
    && (forall i :: 0 <= i < |f.lots| && f.lots[i].state == Open ==> f.lots[i].top == Top(f.lots[i].stack))
    && (forall i :: 0 <= i < |f.lots| && OnOffer(f.lots[i]) ==> !HasLiveOwner(f.book, f.lots[i].question))
    && (forall i, j :: 0 <= i < j < |f.lots| && OnOffer(f.lots[i]) && OnOffer(f.lots[j]) ==>
          f.lots[i].question != f.lots[j].question)
  }

  ghost predicate UnderCap(r: Rules, b: Book) {
    forall p :: r.cap.Some? ==> |Owned(b, p)| <= r.cap.value
  }

  /** The steps of one online round: no second offering, and money only ever comes in except by winning. */
  predicate RoundStep(step: Step) {
    match step
    case Restoring(_) => false
    case Relisting(_, _, _) => false
    case Selling(Moving(move)) => move.delta >= 0
    case Selling(_) => false
    case _ => true
  }

  lemma OwnedAfterAward(b: Book, q: Qid, who: Pid, price: int, p: Pid)
    requires Awarded(b, q, who, price).Ok? && !HasLiveOwner(b, q)
    ensures Owned(Awarded(b, q, who, price).value, p) == Owned(b, p) + if p == who then {q} else {}
    ensures q !in Owned(b, p)
  {
  }

  /** Settling the open lot goes through, and leaves nobody above the cap. */
  lemma SettlementIsNeverRefused(r: Rules, f: Floor, i: nat)
    requires Solvent(r, f) && UnderCap(r, f.book)
    requires i < |f.lots| && f.lots[i].state == Open
    ensures Settle(f, i).Ok?
    ensures Solvent(r, Settle(f, i).value) && UnderCap(r, Settle(f, i).value.book)
  {
    var lot := f.lots[i];
    if lot.top.Some? {
      var top := lot.top.value;
      assert Covered(r, f.book, lot.stack[|lot.stack| - 1]);
      var b' := Settle(f, i).value.book;
      forall p
        ensures r.cap.Some? ==> |Owned(b', p)| <= r.cap.value
      {
        OwnedAfterAward(f.book, lot.question, top.who, top.amount, p);
      }
    }
  }

  lemma PlaceBidKeepsSolvent(r: Rules, f: Floor, i: nat, p: Pid, amount: int, blackedOut: bool, now: Time)
    requires PricesKnown(r, f) && Solvent(r, f)
    requires PlaceBid(r, f, i, p, amount, blackedOut, now).Ok?
    ensures Solvent(r, PlaceBid(r, f, i, p, amount, blackedOut, now).value)
  {
    var f' := PlaceBid(r, f, i, p, amount, blackedOut, now).value;
    forall j, k | 0 <= j < |f'.lots| && f'.lots[j].state == Open && 0 <= k < |f'.lots[j].stack|
      ensures Covered(r, f'.book, f'.lots[j].stack[k])
    {
      if j != i || k < |f.lots[j].stack| {
        assert Covered(r, f.book, f.lots[j].stack[k]);
      }
    }
  }

  lemma RetractKeepsSolvent(r: Rules, f: Floor, now: Time)
    requires Solvent(r, f) && RetractTopBid(r, f, now).Ok?
    ensures Solvent(r, RetractTopBid(r, f, now).value)
  {
    var f' := RetractTopBid(r, f, now).value;
    forall j, k | 0 <= j < |f'.lots| && f'.lots[j].state == Open && 0 <= k < |f'.lots[j].stack|
      ensures Covered(r, f'.book, f'.lots[j].stack[k])
    {
      assert Covered(r, f.book, f.lots[j].stack[k]);
    }
  }

  lemma MoneyInKeepsSolvent(r: Rules, hints: HintPrices, f: Floor, move: Request)
    requires Solvent(r, f) && UnderCap(r, f.book) && move.delta >= 0
    ensures Solvent(r, f.(book := AfterSale(f.book, hints, Moving(move))))
    ensures UnderCap(r, AfterSale(f.book, hints, Moving(move)))
  {
    var f' := f.(book := AfterSale(f.book, hints, Moving(move)));
    forall p
      ensures Owned(f'.book, p) == Owned(f.book, p)
    {
    }
    forall j, k | 0 <= j < |f'.lots| && f'.lots[j].state == Open && 0 <= k < |f'.lots[j].stack|
      ensures Covered(r, f'.book, f'.lots[j].stack[k])
    {
      assert Covered(r, f.book, f.lots[j].stack[k]);
    }
  }

  /** A lot's bids, holder and question are as they were, and it is no more on offer than it was. */
  predicate NoMoreOffered(lot: Lot, lot': Lot) {
    && lot'.question == lot.question && lot'.stack == lot.stack && lot'.top == lot.top
    && (lot'.state == lot.state || !OnOffer(lot'))
  }

  lemma NoMoreOfferedKeepsSolvent(r: Rules, f: Floor, f': Floor)
    requires Solvent(r, f) && f'.book == f.book && |f'.lots| == |f.lots|
    requires forall j :: 0 <= j < |f.lots| ==> NoMoreOffered(f.lots[j], f'.lots[j])
    ensures Solvent(r, f')
  {
    hide Covered;
    hide HasLiveOwner;
  }

  /** The first pending lot opens, with no bid on it. */
  lemma OpeningKeepsSolvent(r: Rules, f: Floor, now: Time)
    requires PricesKnown(r, f) && Solvent(r, f) && OpenNextLot(r, f, now).Ok?
    ensures Solvent(r, OpenNextLot(r, f, now).value) && OpenNextLot(r, f, now).value.book == f.book
  {
    hide Covered;
    hide HasLiveOwner;
  }

  /** The remaining steps move no money and put no bid on a stack. */
  lemma OtherStepsKeepSolvent(r: Rules, hints: HintPrices, f: Floor, step: Step, now: Time)
    requires PricesKnown(r, f) && Solvent(r, f) && Apply(r, hints, f, step, now).Ok?
    requires step.Opening? || step.Withdrawing? || step.Pausing? || step.Resuming? || step.Timing?
    ensures Solvent(r, Apply(r, hints, f, step, now).value)
    ensures Apply(r, hints, f, step, now).value.book == f.book
  {
    hide Solvent;
    if step.Opening? {
      OpeningKeepsSolvent(r, f, now);
    } else {
      NoMoreOfferedKeepsSolvent(r, f, Apply(r, hints, f, step, now).value);
    }
  }

  lemma StepKeepsSolvent(r: Rules, hints: HintPrices, f: Floor, step: Step, now: Time)
    requires PricesKnown(r, f) && Solvent(r, f) && UnderCap(r, f.book) && RoundStep(step)
    requires Apply(r, hints, f, step, now).Ok?
    ensures Solvent(r, Apply(r, hints, f, step, now).value)
    ensures UnderCap(r, Apply(r, hints, f, step, now).value.book)
  {
    match step
    case Bidding(i, p, amount, blackedOut) => PlaceBidKeepsSolvent(r, f, i, p, amount, blackedOut, now);
    case Retracting => RetractKeepsSolvent(r, f, now);
    case Closing(i) => SettlementIsNeverRefused(r, f, i);
    case Ticking(i) => SettlementIsNeverRefused(r, f, i);
    case Selling(Moving(move)) => MoneyInKeepsSolvent(r, hints, f, move);
    case _ => OtherStepsKeepSolvent(r, hints, f, step, now);
  }

  /** After any bids, retractions, pauses and closes of the round, whatever lot is open can be settled,
      and nobody owns more than the cap allows. */
  lemma {:induction false} EveryRunIsSolvent(r: Rules, hints: HintPrices, t: Trace, events: seq<Event>)
    requires WellFormed(r, t) && Solvent(r, t.floor) && UnderCap(r, t.floor.book)
    requires forall e :: e in events ==> RoundStep(e.step)
    ensures var f' := Run(r, hints, t, events).floor;
            && Solvent(r, f') && UnderCap(r, f'.book)
            && forall i :: 0 <= i < |f'.lots| && f'.lots[i].state == Open ==> Settle(f', i).Ok?
    decreases |events|
  {
    if events != [] {
      var n := |events| - 1;
      EveryRunIsSolvent(r, hints, t, events[..n]);
      var before := Run(r, hints, t, events[..n]);
      if Apply(r, hints, before.floor, events[n].step, events[n].at).Ok? {
        StepKeepsSolvent(r, hints, before.floor, events[n].step, events[n].at);
      }
    }
    var f' := Run(r, hints, t, events).floor;
    forall i | 0 <= i < |f'.lots| && f'.lots[i].state == Open
      ensures Settle(f', i).Ok?
    {
      SettlementIsNeverRefused(r, f', i);
    }
  }

  /** Settlement of an open lot is refused exactly when its top bidder can no longer pay, or the question
      has found an owner some other way. */
  lemma SettlementRefusedIff(f: Floor, i: nat)
    requires i < |f.lots| && f.lots[i].state == Open
    requires f.lots[i].top.Some? ==> f.lots[i].top.value.who in f.book.money.balance
    ensures Settle(f, i).Err?
       <==> f.lots[i].top.Some?
            && (f.lots[i].top.value.amount > f.book.money.balance[f.lots[i].top.value.who]
                || HasLiveOwner(f.book, f.lots[i].question))
  {
    if f.lots[i].top.Some? {
      AwardRefusedIff(f.book, f.lots[i].question, f.lots[i].top.value.who, f.lots[i].top.value.amount);
    }
  }

  /** Other spending does break it: a top bidder who buys a powerup before the lot closes cannot be charged. */
  lemma SpendingBreaksSettlement(r: Rules, hints: HintPrices, f: Floor)
    requires f.book.money.balance == map[7 := 100] && !HasLiveOwner(f.book, 0)
    requires f.lots == [Lot(0, Open, 1, None, None, Some(Bid(7, 100)), [Bid(7, 100)])]
    ensures Settle(f, 0).Ok?
    ensures Settle(f.(book := AfterSale(f.book, hints, Moving(Request(7, -10, PowerupBought)))), 0)
         == Err(SaleRefused(MoveRefused(NegativeBalance)))
  {
    assert AfterSale(f.book, hints, Moving(Request(7, -10, PowerupBought))).money.balance[7] == 90;
  }
}
