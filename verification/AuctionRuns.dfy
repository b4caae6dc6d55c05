/** What every run of the auction keeps: one open lot, the bid ladder, one settlement per opening,
    and the clock through any number of pauses. */
module AuctionRuns {
  import opened Common
  import opened Ledger
  import opened Sales
  import opened Auction

  /** What happened to a lot so far, seen from outside.
      `leftover`: how many of its oldest bid rows belong to an earlier offering.
      `armedAt`, `span`: when its live clock was last set, and for how long. */
  datatype Past = Past(leftover: nat, openings: nat, settlements: nat, armedAt: int, span: int)

  /** A floor with its history. `idle` is all the time spent paused, up to the last resume. */
  datatype Trace = Trace(floor: Floor, past: seq<Past>, idle: int)

  // ----- watching one step ------------------------------------------------------------------

  /** The clock is set by opening the lot, by a bid or a retraction, and by an organiser's hand. */
  predicate Arms(step: Step, before: Lot, after: Lot) {
    after.state == Open && (before.state != Open || before.stack != after.stack || step.Timing?)
  }

  function Observe(step: Step, before: Lot, after: Lot, past: Past, idle: int, now: Time): Past {
    var leftover :=
      if after.state == Pending && (before.state != Pending || before.top != after.top) then |after.stack|
      else if past.leftover <= |after.stack| then past.leftover else |after.stack|;
    var openings := past.openings + if before.state != Open && after.state == Open then 1 else 0;
    var settlements := past.settlements
      + if before.state == Open && (after.state == Closed || after.state == Unsellable) then 1 else 0;
    if Arms(step, before, after) then
      Past(leftover, openings, settlements, now - idle, if LiveClock(after).Some? then LiveClock(after).value - now else 0)
    else Past(leftover, openings, settlements, past.armedAt, past.span)
  }

  const NEW_LOT := Past(0, 0, 0, 0, 0)

  function ObserveAll(step: Step, f: Floor, f': Floor, past: seq<Past>, idle: int, now: Time): (s: seq<Past>)
    requires |past| == |f.lots| <= |f'.lots|
    ensures |s| == |f'.lots|
    ensures forall i :: 0 <= i < |f.lots| ==> s[i] == Observe(step, f.lots[i], f'.lots[i], past[i], idle, now)
    ensures forall i :: |f.lots| <= i < |s| ==> s[i] == NEW_LOT
  {
    seq(|f'.lots|, i requires 0 <= i < |f'.lots| =>
      if i < |f.lots| then Observe(step, f.lots[i], f'.lots[i], past[i], idle, now) else NEW_LOT)
  }

  function Next(r: Rules, hints: HintPrices, t: Trace, step: Step, now: Time): Trace
    requires WellFormed(r, t)
  {
    var result := Apply(r, hints, t.floor, step, now);
    if result.Err? then t
    else
      LotsOnlyGrow(r, hints, t.floor, step, now);
      var f' := result.value;
      var idle := if step.Resuming? then t.idle + (now - t.floor.paused.value) else t.idle;
      Trace(f', ObserveAll(step, t.floor, f', t.past, t.idle, now), idle)
  }

  predicate WellFormed(r: Rules, t: Trace) {
    PricesKnown(r, t.floor) && |t.past| == |t.floor.lots|
  }

  lemma LotsOnlyGrow(r: Rules, hints: HintPrices, f: Floor, step: Step, now: Time)
    requires PricesKnown(r, f)
    requires Apply(r, hints, f, step, now).Ok?
    ensures |f.lots| <= |Apply(r, hints, f, step, now).value.lots|
    ensures PricesKnown(r, Apply(r, hints, f, step, now).value)
    ensures step.Resuming? ==> f.paused.Some?
  {
  }

  // ----- the invariant -----------------------------------------------------------------------

  function Top(stack: seq<Bid>): Option<Bid> {
    if stack == [] then None else Some(stack[|stack| - 1])
  }

  /** Base price first, then exactly one increment more each time, never twice the same bidder. */
  ghost predicate Ladder(stack: seq<Bid>, base: int, increment: int) {
    && (stack != [] ==> stack[0].amount == base)
    && (forall k :: 0 < k < |stack| ==> stack[k].amount == stack[k - 1].amount + increment)
    && (forall k :: 0 < k < |stack| ==> stack[k].who != stack[k - 1].who)
  }

  /** One bid on top of another: an increment more, from somebody else. */
  predicate Rung(lower: Bid, upper: Bid, increment: int) {
    upper.amount == lower.amount + increment && upper.who != lower.who
  }

  /** Above its `from` oldest rows a stack climbs rung by rung. The lowest of those bids is the base price, or a
      rung above the row below it, when a retraction had brought that one back. */
  ghost predicate LadderAbove(stack: seq<Bid>, from: nat, base: int, increment: int) {
    && (forall k, l :: from <= k < l < |stack| && l == k + 1 ==> Rung(stack[k], stack[l], increment))
    && (from < |stack| ==>
          stack[from].amount == base || (from > 0 && Rung(stack[from - 1], stack[from], increment)))
  }

  ghost predicate LotOk(r: Rules, lot: Lot, past: Past, idle: int)
    requires lot.question in r.base
  {
    && (lot.top.Some? ==> lot.top == Top(lot.stack))
    && past.leftover <= |lot.stack|
    && LadderAbove(lot.stack, past.leftover, r.base[lot.question], r.increment)
    && (past.leftover < |lot.stack| ==> lot.top == Top(lot.stack))
    && (past.leftover == 0 ==> lot.top == Top(lot.stack) && Ladder(lot.stack, r.base[lot.question], r.increment))
    && past.settlements + (if lot.state == Open then 1 else 0) <= past.openings
    && (lot.state == Open && LiveClock(lot).Some? ==> LiveClock(lot).value - idle == past.armedAt + past.span)
  }

  ghost predicate OneOpen(lots: seq<Lot>) {
    forall i, j :: 0 <= i < j < |lots| ==> !(lots[i].state == Open && lots[j].state == Open)
  }

  ghost predicate Inv(r: Rules, t: Trace) {
    && WellFormed(r, t)
    && OneOpen(t.floor.lots)
    && (forall i :: 0 <= i < |t.floor.lots| ==> LotOk(r, t.floor.lots[i], t.past[i], t.idle))
  }

  // ----- one lot at a time ---------------------------------------------------------------------

  lemma KeptLot(r: Rules, step: Step, lot: Lot, past: Past, idle: int, now: Time)
    requires lot.question in r.base && LotOk(r, lot, past, idle)
    ensures LotOk(r, lot, Observe(step, lot, lot, past, idle, now), idle)
  {
  }

  /** A bid extends the ladder by one rung. */
  lemma BidLot(r: Rules, step: Step, lot: Lot, bid: Bid, past: Past, idle: int, now: Time)
    requires lot.question in r.base && LotOk(r, lot, past, idle) && lot.state == Open
    requires lot.top.Some? ==> lot.top.value.who != bid.who
    requires bid.amount == NextBidAmount(lot.top, r.base[lot.question], r.increment)
    ensures var lot' := lot.(top := Some(bid), stack := lot.stack + [bid], noBid := None, ends := Countdown(r, now));
            LotOk(r, lot', Observe(step, lot, lot', past, idle, now), idle)
  {
    assert |lot.stack + [bid]| != |lot.stack|;
    assert lot.stack != [] && lot.top.Some? ==> Rung(lot.stack[|lot.stack| - 1], bid, r.increment);
  }

  /** Popping the newest bid leaves the ladder below it. */
  lemma PoppedLot(r: Rules, step: Step, lot: Lot, past: Past, idle: int, now: Time)
    requires lot.question in r.base && LotOk(r, lot, past, idle) && lot.state == Open && lot.stack != []
    ensures LotOk(r, PopBid(r, lot, now), Observe(step, lot, PopBid(r, lot, now), past, idle, now), idle)
  {
    assert |lot.stack[..|lot.stack| - 1]| != |lot.stack|;
  }

  lemma NothingAbove(stack: seq<Bid>, base: int, increment: int)
    ensures LadderAbove(stack, |stack|, base, increment)
    ensures stack == [] ==> Ladder(stack, base, increment)
  {
  }

  /** What a step that goes through owes lot `i`. */
  ghost predicate KeepsLot(r: Rules, hints: HintPrices, t: Trace, step: Step, now: Time, i: nat)
    requires WellFormed(r, t) && Apply(r, hints, t.floor, step, now).Ok?
    requires i < |t.floor.lots| <= |Apply(r, hints, t.floor, step, now).value.lots|
    requires Apply(r, hints, t.floor, step, now).value.lots[i].question in r.base
  {
    var lot, lot' := t.floor.lots[i], Apply(r, hints, t.floor, step, now).value.lots[i];
    var past' := Observe(step, lot, lot', t.past[i], t.idle, now);
    && (!step.Resuming? ==> LotOk(r, lot', past', t.idle))
    && (step.Resuming? ==>
          (t.floor.paused.Some? && LotOk(r, lot', past', t.idle + (now - t.floor.paused.value))))
  }

  lemma BidKeepsLot(r: Rules, hints: HintPrices, t: Trace, step: Step, now: Time, i: nat)
    requires Inv(r, t) && Apply(r, hints, t.floor, step, now).Ok? && (step.Bidding? || step.Retracting?)
    requires i < |t.floor.lots| <= |Apply(r, hints, t.floor, step, now).value.lots|
    requires Apply(r, hints, t.floor, step, now).value.lots[i].question in r.base
    ensures KeepsLot(r, hints, t, step, now, i)
  {
    var lot, past := t.floor.lots[i], t.past[i];
    hide Ladder;
    hide LadderAbove;
    assert LotOk(r, lot, past, t.idle);
    KeptLot(r, step, lot, past, t.idle, now);
    if step.Bidding? && i == step.lot {
      BidLot(r, step, lot, Bid(step.who, step.amount), past, t.idle, now);
    }
    if step.Retracting? && OpenLot(t.floor.lots) == Some(i) {
      PoppedLot(r, step, lot, past, t.idle, now);
    }
    hide LotOk;
    hide Observe;
  }

  lemma FloorStepKeepsLot(r: Rules, hints: HintPrices, t: Trace, step: Step, now: Time, i: nat)
    requires Inv(r, t) && Apply(r, hints, t.floor, step, now).Ok?
    requires step.Opening? || step.Closing? || step.Ticking? || step.Withdrawing?
    requires i < |t.floor.lots| <= |Apply(r, hints, t.floor, step, now).value.lots|
    requires Apply(r, hints, t.floor, step, now).value.lots[i].question in r.base
    ensures KeepsLot(r, hints, t, step, now, i)
  {
    hide Ladder;
    hide LadderAbove;
    hide Awarded;
    assert LotOk(r, t.floor.lots[i], t.past[i], t.idle);
  }

  lemma QueueStepKeepsLot(r: Rules, hints: HintPrices, t: Trace, step: Step, now: Time, i: nat)
    requires Inv(r, t) && Apply(r, hints, t.floor, step, now).Ok? && (step.Restoring? || step.Relisting?)
    requires i < |t.floor.lots| <= |Apply(r, hints, t.floor, step, now).value.lots|
    requires Apply(r, hints, t.floor, step, now).value.lots[i].question in r.base
    ensures KeepsLot(r, hints, t, step, now, i)
  {
    hide Ladder;
    hide LadderAbove;
    hide TakenBack;
    NothingAbove(t.floor.lots[i].stack, r.base[t.floor.lots[i].question], r.increment);
    assert LotOk(r, t.floor.lots[i], t.past[i], t.idle);
  }

  lemma ClockStepKeepsLot(r: Rules, hints: HintPrices, t: Trace, step: Step, now: Time, i: nat)
    requires Inv(r, t) && Apply(r, hints, t.floor, step, now).Ok?
    requires step.Pausing? || step.Resuming? || step.Timing? || step.Selling?
    requires i < |t.floor.lots| <= |Apply(r, hints, t.floor, step, now).value.lots|
    requires Apply(r, hints, t.floor, step, now).value.lots[i].question in r.base
    ensures KeepsLot(r, hints, t, step, now, i)
  {
    hide Ladder;
    hide LadderAbove;
    hide AfterSale;
    assert LotOk(r, t.floor.lots[i], t.past[i], t.idle);
  }

  lemma StepKeepsLot(r: Rules, hints: HintPrices, t: Trace, step: Step, now: Time, i: nat)
    requires Inv(r, t) && Apply(r, hints, t.floor, step, now).Ok?
    requires i < |t.floor.lots| <= |Apply(r, hints, t.floor, step, now).value.lots|
    requires Apply(r, hints, t.floor, step, now).value.lots[i].question in r.base
    ensures KeepsLot(r, hints, t, step, now, i)
  {
    hide Inv;
    hide KeepsLot;
    if step.Bidding? || step.Retracting? {
      BidKeepsLot(r, hints, t, step, now, i);
    } else if step.Opening? || step.Closing? || step.Ticking? || step.Withdrawing? {
      FloorStepKeepsLot(r, hints, t, step, now, i);
    } else if step.Restoring? || step.Relisting? {
      QueueStepKeepsLot(r, hints, t, step, now, i);
    } else {
      ClockStepKeepsLot(r, hints, t, step, now, i);
    }
  }

  lemma StepKeepsOneOpen(r: Rules, hints: HintPrices, f: Floor, step: Step, now: Time)
    requires PricesKnown(r, f) && OneOpen(f.lots) && Apply(r, hints, f, step, now).Ok?
    ensures OneOpen(Apply(r, hints, f, step, now).value.lots)
  {
  }

  lemma StepKeepsInv(r: Rules, hints: HintPrices, t: Trace, step: Step, now: Time)
    requires Inv(r, t)
    ensures Inv(r, Next(r, hints, t, step, now))
  {
    var result := Apply(r, hints, t.floor, step, now);
    if result.Ok? {
      LotsOnlyGrow(r, hints, t.floor, step, now);
      StepKeepsOneOpen(r, hints, t.floor, step, now);
      var t' := Next(r, hints, t, step, now);
      forall i | 0 <= i < |t'.floor.lots|
        ensures LotOk(r, t'.floor.lots[i], t'.past[i], t'.idle)
      {
        if i < |t.floor.lots| {
          StepKeepsLot(r, hints, t, step, now, i);
        } else {
          NewLotIsEmpty(r, hints, t.floor, step, now, i);
        }
      }
    }
  }

  lemma NewLotIsEmpty(r: Rules, hints: HintPrices, f: Floor, step: Step, now: Time, i: nat)
    requires PricesKnown(r, f) && Apply(r, hints, f, step, now).Ok?
    requires |f.lots| <= i < |Apply(r, hints, f, step, now).value.lots|
    ensures var lot := Apply(r, hints, f, step, now).value.lots[i];
            lot.state == Pending && lot.top == None && lot.stack == []
  {
  }

  // ----- any run -------------------------------------------------------------------------------

  /** One transaction and the instant it ran at. */
  datatype Event = Event(step: Step, at: Time)

  function Run(r: Rules, hints: HintPrices, t: Trace, events: seq<Event>): (t': Trace)
    requires WellFormed(r, t)
    ensures WellFormed(r, t')
    decreases |events|
  {
    if events == [] then t
    else
      var n := |events| - 1;
      var before := Run(r, hints, t, events[..n]);
      assert WellFormed(r, Next(r, hints, before, events[n].step, events[n].at)) by {
        if Apply(r, hints, before.floor, events[n].step, events[n].at).Ok? {
          LotsOnlyGrow(r, hints, before.floor, events[n].step, events[n].at);
        }
      }
      Next(r, hints, before, events[n].step, events[n].at)
  }

  /** A round whose lots have all just been created. */
  ghost predicate Fresh(r: Rules, t: Trace) {
    && WellFormed(r, t)
    && (forall i :: 0 <= i < |t.floor.lots| ==>
          && t.floor.lots[i].state == Pending && t.floor.lots[i].top == None && t.floor.lots[i].stack == []
          && t.past[i] == NEW_LOT)
  }

  /** After any events of a round: no two lots are open; on a lot never offered before, the current bid
      and bidder are the top of the stack, and the stack is a ladder; on one offered again, so are the bids made
      since; no opening settles twice. */
  lemma {:induction false} EveryRunKeepsTheLadder(r: Rules, hints: HintPrices, t: Trace, events: seq<Event>)
    requires Fresh(r, t)
    ensures Inv(r, Run(r, hints, t, events))
    decreases |events|
  {
    if events != [] {
      var n := |events| - 1;
      EveryRunKeepsTheLadder(r, hints, t, events[..n]);
      StepKeepsInv(r, hints, Run(r, hints, t, events[..n]), events[n].step, events[n].at);
    }
  }

  /** The ladder in closed form: the k-th bid of a first offering is the base price plus k increments. */
  lemma {:induction false} RungAmount(stack: seq<Bid>, base: int, increment: int, k: nat)
    requires Ladder(stack, base, increment) && k < |stack|
    ensures stack[k].amount == base + k * increment
  {
    if k > 0 {
      RungAmount(stack, base, increment, k - 1);
    }
  }

  // ----- retraction undoes the last bid --------------------------------------------------------

  /** Retracting right after a bid restores the amount and holder there were before it, if and only if
      somebody held the lot already or the lot has no bid rows left over from an earlier offering. */
  lemma RetractUndoesBidIff(r: Rules, hints: HintPrices, t: Trace, i: nat, p: Pid, amount: int, at: Time, later: Time)
    requires Inv(r, t)
    requires PlaceBid(r, t.floor, i, p, amount, false, at).Ok?
    ensures var bid := PlaceBid(r, t.floor, i, p, amount, false, at).value;
            && RetractTopBid(r, bid, later).Ok?
            && var back := RetractTopBid(r, bid, later).value;
               && |back.lots| == |t.floor.lots| && back.book == t.floor.book
               && back.lots[i].stack == t.floor.lots[i].stack
               && (back.lots[i].top == t.floor.lots[i].top
                   <==> t.floor.lots[i].top.Some? || t.floor.lots[i].stack == [])
  {
    var bid := PlaceBid(r, t.floor, i, p, amount, false, at).value;
    assert OneOpen(bid.lots);
    assert bid.lots[i].state == Open;
    assert bid.lots[i].stack[..|t.floor.lots[i].stack|] == t.floor.lots[i].stack;
    assert LotOk(r, t.floor.lots[i], t.past[i], t.idle);
  }

  /** The small auction of the run below. */
  ghost predicate OneLotFloor(r: Rules, f: Floor) {
    && r.increment == 10 && r.countdown == 15 && r.window == 30 && r.cap == None && !r.offline
    && r.base == map[0 := 100]
    && f.paused == None && f.disqualified == {} && f.book.money.balance == map[7 := 500, 8 := 500]
  }

  /** A lot that was withdrawn with a bid on it, restored and opened again keeps the old bid row. */
  lemma ReofferKeepsOldBid(r: Rules, f: Floor)
    requires OneLotFloor(r, f) && f.lots == [Lot(0, Pending, 1, None, None, None, [])]
    ensures var f2 := PlaceBid(r, OpenNextLot(r, f, 0).value, 0, 7, 100, false, 1000).value;
            var f4 := RestoreLot(WithdrawLot(f2, 0).value, 0).value;
            var f5 := OpenNextLot(r, f4, 2000).value;
            OneLotFloor(r, f5) && |f5.lots| == 1 && f5.lots[0].question == 0 && f5.lots[0].state == Open
            && f5.lots[0].top == None && f5.lots[0].stack == [Bid(7, 100)]
            && f5.lots[0].noBid == Some(32000)
  {
    var f1 := OpenNextLot(r, f, 0).value;
    assert f1.lots[0].state == Open;
    var f2 := PlaceBid(r, f1, 0, 7, 100, false, 1000).value;
    assert f2.lots[0].stack == [Bid(7, 100)];
    var f4 := RestoreLot(WithdrawLot(f2, 0).value, 0).value;
    assert f4.lots[0].top == None && f4.lots[0].stack == [Bid(7, 100)];
  }

  lemma RetractRevives(r: Rules, f: Floor)
    requires OneLotFloor(r, f) && |f.lots| == 1 && f.lots[0].question == 0 && f.lots[0].state == Open
    requires f.lots[0].top == None && f.lots[0].stack == [Bid(7, 100)] && f.lots[0].noBid == Some(32000)
    ensures var f6 := PlaceBid(r, f, 0, 8, 100, false, 3000);
            f6.Ok? && RetractTopBid(r, f6.value, 4000).Ok?
            && |RetractTopBid(r, f6.value, 4000).value.lots| == 1
            && RetractTopBid(r, f6.value, 4000).value.lots[0].top == Some(Bid(7, 100))
  {
    var f6 := PlaceBid(r, f, 0, 8, 100, false, 3000).value;
    assert f6.lots[0].stack == [Bid(7, 100), Bid(8, 100)];
    assert f6.lots[0].stack[..1] == [Bid(7, 100)];
  }

  /** So one new bid there, retracted, puts the bidder of the earlier offering back on top. */
  lemma RetractAfterRestoreRevivesOldBid(r: Rules, f: Floor)
    requires OneLotFloor(r, f) && f.lots == [Lot(0, Pending, 1, None, None, None, [])]
    ensures var f2 := PlaceBid(r, OpenNextLot(r, f, 0).value, 0, 7, 100, false, 1000).value;
            var f4 := RestoreLot(WithdrawLot(f2, 0).value, 0).value;
            var f5 := OpenNextLot(r, f4, 2000).value;
            var f6 := PlaceBid(r, f5, 0, 8, 100, false, 3000).value;
            var f7 := RetractTopBid(r, f6, 4000).value;
            f5.lots[0].top == None && f7.lots[0].top == Some(Bid(7, 100))
  {
    ReofferKeepsOldBid(r, f);
    hide WithdrawLot;
    hide RestoreLot;
    hide OpenNextLot;
    var f2 := PlaceBid(r, OpenNextLot(r, f, 0).value, 0, 7, 100, false, 1000).value;
    hide PlaceBid;
    hide RetractTopBid;
    hide OneLotFloor;
    RetractRevives(r, OpenNextLot(r, RestoreLot(WithdrawLot(f2, 0).value, 0).value, 2000).value);
  }

  // ----- the clock -----------------------------------------------------------------------------

  /** Time that has run on the auction's clock: pauses do not count. */
  function ActiveTime(t: Trace, now: Time): int {
    (if t.floor.paused.Some? then t.floor.paused.value else now) - t.idle
  }

  /** The clock settles a lot only while the floor is not paused and once the whole span it was last set for
      has passed, in unpaused time. A tick that decided on an earlier read is held to the same test. */
  lemma ClockNeverSettlesEarly(r: Rules, t: Trace, i: nat, now: Time)
    requires Inv(r, t)
    requires SettleIfDue(r, t.floor, i, now).Ok?
    ensures t.floor.paused == None
    ensures ActiveTime(t, now) - t.past[i].armedAt >= t.past[i].span
  {
    assert LotOk(r, t.floor.lots[i], t.past[i], t.idle);
  }

  /** A bid is accepted only while that span is still running, and never during a pause. */
  lemma BidsOnlyInsideTheWindow(r: Rules, t: Trace, i: nat, p: Pid, amount: int, blackedOut: bool, now: Time)
    requires Inv(r, t)
    requires PlaceBid(r, t.floor, i, p, amount, blackedOut, now).Ok?
    ensures t.floor.paused == None && t.floor.lots[i].state == Open
    ensures LiveClock(t.floor.lots[i]).Some? ==> ActiveTime(t, now) - t.past[i].armedAt < t.past[i].span
  {
    assert LotOk(r, t.floor.lots[i], t.past[i], t.idle);
  }

  /** Opening a lot starts its opening window; every bid restarts the countdown in full. */
  lemma WindowsStartFull(r: Rules, hints: HintPrices, t: Trace, step: Step, now: Time, i: nat)
    requires Inv(r, t) && i < |t.floor.lots|
    requires Apply(r, hints, t.floor, step, now).Ok?
    requires var f' := Apply(r, hints, t.floor, step, now).value;
             i < |f'.lots| && f'.lots[i] != t.floor.lots[i] && LiveClock(f'.lots[i]).Some?
    requires step.Opening? || step.Bidding? || step.Retracting?
    ensures var t' := Next(r, hints, t, step, now);
            && t'.past[i].armedAt == now - t.idle
            && t'.past[i].span == SECOND * (if t'.floor.lots[i].top.Some? then r.countdown else r.window)
  {
    var f' := Apply(r, hints, t.floor, step, now).value;
    if step.Bidding? {
      assert |f'.lots[i].stack| == |t.floor.lots[i].stack| + 1;
    } else if step.Retracting? {
      assert |f'.lots[i].stack| == |t.floor.lots[i].stack| - 1;
    }
  }

  /** A step that leaves lot `i`'s timer to the clock: anything but a resume, an organiser's hand on the
      timer, a retraction, or a settlement or withdrawal of this very lot. */
  predicate LeavesTimer(step: Step, i: nat) {
    match step
    case Resuming => false
    case Timing(_) => false
    case Retracting => false
    case Relisting(_, _, _) => false
    case Closing(j) => j != i
    case Withdrawing(j) => j != i
    case _ => true
  }

  /** While the auction is paused nothing opens, no bid lands and the clock settles nothing. */
  lemma PausedFloorStandsStill(r: Rules, hints: HintPrices, f: Floor, step: Step, now: Time, i: nat)
    requires PricesKnown(r, f) && OneOpen(f.lots) && f.paused.Some?
    requires i < |f.lots| && f.lots[i].state == Open
    ensures step.Opening? || step.Bidding? || step.Ticking? ==> Apply(r, hints, f, step, now).Err?
    ensures LeavesTimer(step, i) && Apply(r, hints, f, step, now).Ok? ==>
              var f' := Apply(r, hints, f, step, now).value;
              f'.paused == f.paused && |f'.lots| == |f.lots| && f'.lots[i] == f.lots[i]
  {
  }

  lemma {:induction false} PausedRunStandsStill(r: Rules, hints: HintPrices, t: Trace, events: seq<Event>, i: nat)
    requires Inv(r, t) && t.floor.paused.Some?
    requires i < |t.floor.lots| && t.floor.lots[i].state == Open
    requires forall e :: e in events ==> LeavesTimer(e.step, i)
    ensures var t' := Run(r, hints, t, events);
            && Inv(r, t') && t'.floor.paused == t.floor.paused
            && |t'.floor.lots| == |t.floor.lots| && t'.floor.lots[i] == t.floor.lots[i]
    decreases |events|
  {
    if events != [] {
      var n := |events| - 1;
      PausedRunStandsStill(r, hints, t, events[..n], i);
      var before := Run(r, hints, t, events[..n]);
      StepKeepsInv(r, hints, before, events[n].step, events[n].at);
      PausedFloorStandsStill(r, hints, before.floor, events[n].step, events[n].at, i);
    }
  }

  /** Pause, then anything that leaves the lot's timer alone, then resume: exactly the time that was left
      when the pause began is left when it ends. */
  lemma PauseGivesTheTimeBack(r: Rules, hints: HintPrices, t: Trace, from: Time, events: seq<Event>, until: Time, i: nat)
    requires Inv(r, t)
    requires i < |t.floor.lots| && t.floor.lots[i].state == Open && LiveClock(t.floor.lots[i]).Some?
    requires Pause(t.floor, from).Ok?
    requires forall e :: e in events ==> LeavesTimer(e.step, i)
    ensures var held := Run(r, hints, Next(r, hints, t, Pausing, from), events);
            && Resume(held.floor, until).Ok?
            && i < |held.floor.lots|
            && var lot := Resume(held.floor, until).value.lots[i];
               && lot.state == Open && LiveClock(lot).Some?
               && LiveClock(lot).value - until == LiveClock(t.floor.lots[i]).value - from
  {
    StepKeepsInv(r, hints, t, Pausing, from);
    PausedRunStandsStill(r, hints, Next(r, hints, t, Pausing, from), events, i);
  }

  /** A step inside a pause, other than the resume, that leaves the lot open with a clock running. */
  ghost predicate SetInPause(r: Rules, hints: HintPrices, t: Trace, step: Step, edit: Time, i: nat)
    requires WellFormed(r, t)
  {
    && step != Resuming && Apply(r, hints, t.floor, step, edit).Ok?
    && var f := Apply(r, hints, t.floor, step, edit).value;
       i < |f.lots| && f.lots[i].state == Open && LiveClock(f.lots[i]).Some?
  }

  lemma PauseLastsUntilResumed(r: Rules, hints: HintPrices, f: Floor, step: Step, now: Time)
    requires PricesKnown(r, f) && f.paused.Some? && step != Resuming && Apply(r, hints, f, step, now).Ok?
    ensures Apply(r, hints, f, step, now).value.paused == f.paused
  {
  }

  /** A clock set during a pause starts at once, while the resume gives back the pause from its start: left at the
      end is the new span and, on top, all of the pause there had been when the clock was set. */
  lemma ClockSetInPauseGains(r: Rules, hints: HintPrices, t: Trace, step: Step, edit: Time, events: seq<Event>,
                             until: Time, i: nat)
    requires Inv(r, t) && t.floor.paused.Some? && SetInPause(r, hints, t, step, edit, i)
    requires forall e :: e in events ==> LeavesTimer(e.step, i)
    ensures var armed := Next(r, hints, t, step, edit);
            && i < |armed.floor.lots| && LiveClock(armed.floor.lots[i]).Some?
            && WellFormed(r, armed)
            && var held := Run(r, hints, armed, events);
               && Resume(held.floor, until).Ok?
               && i < |held.floor.lots|
               && var lot := Resume(held.floor, until).value.lots[i];
                  && lot.state == Open && LiveClock(lot).Some?
                  && LiveClock(lot).value - until
                     == (LiveClock(armed.floor.lots[i]).value - edit) + (edit - t.floor.paused.value)
  {
    StepKeepsInv(r, hints, t, step, edit);
    PauseLastsUntilResumed(r, hints, t.floor, step, edit);
    PausedRunStandsStill(r, hints, Next(r, hints, t, step, edit), events, i);
  }

  /** An organiser's hand on the timer moves the live deadline as asked and nothing else, and never leaves
      bidding less than a second. */
  lemma TimerMovesAsAsked(r: Rules, f: Floor, mode: TimerMode, now: Time)
    requires SetLotTimer(r, f, mode, now).Ok?
    ensures OpenLot(f.lots).Some?
    ensures var i := OpenLot(f.lots).value;
            var before, after := f.lots[i], SetLotTimer(r, f, mode, now).value.lots[i];
            && SetLotTimer(r, f, mode, now).value == f.(lots := f.lots[i := after])
            && after == before.(noBid := after.noBid, ends := after.ends)
            && match mode
               case Off => LiveClock(after).None?
               case Restart => LiveClock(after) == Some(now + SECOND * (if before.top.Some? then r.countdown else r.window))
                               && LiveClock(after).value > now
               case Adjust(seconds) =>
                 && LiveClock(before).Some? && LiveClock(after).Some? && LiveClock(after).value >= now + SECOND
                 && (LiveClock(before).value + seconds * SECOND >= now + SECOND ==>
                       LiveClock(after).value == LiveClock(before).value + seconds * SECOND)
  {
  }
}
