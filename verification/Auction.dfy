/** The auction floor as values: one function per transaction of `engine/auction/bidding.py`,
    `control.py`, `lots.py`, `lot_queue.py` and `rules.py`. A refused transaction changes nothing. */
module Auction {
  import opened Common
  import opened Ledger
  import opened Sales

  datatype LotState = Pending | Open | Closed | Unsellable | Withdrawn

  datatype Bid = Bid(who: Pid, amount: int)

  /** A lot of the round in progress. `stack` is its bid rows in id order, oldest first;
      `top` is the pair of columns `current_bid` and `current_bidder_id`. */
  datatype Lot = Lot(
    question: Qid,
    state: LotState,
    order: int,
    noBid: Option<Time>,
    ends: Option<Time>,
    top: Option<Bid>,
    stack: seq<Bid>)

  /** The settings an auction runs under, and the base price of every question. Times in seconds. */
  datatype Rules = Rules(
    increment: int,
    countdown: int,
    window: int,
    cap: Option<int>,
    offline: bool,
    base: map<Qid, int>)

  datatype Floor = Floor(
    lots: seq<Lot>,
    paused: Option<Time>,
    book: Book,
    disqualified: set<Pid>)

  datatype Refusal =
    | BlackedOut | NoSuchLot | NotAParticipant | Disqualified | BidInTheRoom | AuctionPaused
    | BiddingClosed | AlreadyHighest | WrongIncrement(expected: int) | TooPoor | CapReached
    | NoOpenLot | NoBids | AlreadyOpen | NothingPending | NotOpen | NotDue
    | AlreadyWithdrawn | AlreadySettled | NotWithdrawn | AlreadyPaused | NotPaused
    | NoCountdown | TimerOff | SecondsMissing | SaleRefused(error: SaleError)

  // ----- the rules ---------------------------------------------------------------------

  function NextBidAmount(top: Option<Bid>, base: int, increment: int): int {
    if top.None? then base else top.value.amount + increment
  }

  /** The deadline that decides: `ends` from the first bid on, `noBid` until there is one. */
  function LiveClock(lot: Lot): Option<Time> {
    if lot.top.None? then lot.noBid else lot.ends
  }

  predicate DeadlinePassed(lot: Lot, now: Time) {
    LiveClock(lot).Some? && LiveClock(lot).value <= now
  }

  function Owned(b: Book, p: Pid): set<Qid> {
    set q | q in b.owner && b.owner[q].live && b.owner[q].who == p
  }

  predicate AtCap(r: Rules, b: Book, p: Pid) {
    r.cap.Some? && |Owned(b, p)| >= r.cap.value
  }

  function SecondsFrom(now: Time, seconds: int): Time {
    now + seconds * SECOND
  }

  function Countdown(r: Rules, now: Time): Option<Time> {
    if r.countdown > 0 then Some(SecondsFrom(now, r.countdown)) else None
  }

  // ----- finding a lot -------------------------------------------------------------------

  /** Which lot is open, if any. */
  function OpenLot(lots: seq<Lot>): (i: Option<nat>)
    ensures i.Some? ==> i.value < |lots| && lots[i.value].state == Open
    ensures i.None? ==> forall j :: 0 <= j < |lots| ==> lots[j].state != Open
  {
    if lots == [] then None
    else
      var n := |lots| - 1;
      if lots[n].state == Open then Some(n) else OpenLot(lots[..n])
  }

  /** The pending lot that comes first in the running order. */
  function FirstPending(lots: seq<Lot>): (i: Option<nat>)
    ensures i.Some? ==> i.value < |lots| && lots[i.value].state == Pending
    ensures i.Some? ==> forall j :: 0 <= j < |lots| && lots[j].state == Pending ==> lots[i.value].order <= lots[j].order
    ensures i.None? ==> forall j :: 0 <= j < |lots| ==> lots[j].state != Pending
  {
    if lots == [] then None
    else
      var n := |lots| - 1;
      var best := FirstPending(lots[..n]);
      if lots[n].state == Pending && (best.None? || lots[n].order < lots[best.value].order) then Some(n) else best
  }

  function LastOrder(lots: seq<Lot>): (m: int)
    ensures m >= 0 && forall j :: 0 <= j < |lots| ==> lots[j].order <= m
  {
    if lots == [] then 0
    else
      var n := |lots| - 1;
      if lots[n].order > LastOrder(lots[..n]) then lots[n].order else LastOrder(lots[..n])
  }

  function LotOf(lots: seq<Lot>, q: Qid): (i: Option<nat>)
    ensures i.Some? ==> i.value < |lots| && lots[i.value].question == q
    ensures i.None? ==> forall j :: 0 <= j < |lots| ==> lots[j].question != q
  {
    if lots == [] then None
    else
      var n := |lots| - 1;
      if lots[n].question == q then Some(n) else LotOf(lots[..n], q)
  }

  // ----- the transactions ------------------------------------------------------------------

  function CheckBid(r: Rules, f: Floor, lot: Lot, p: Pid, amount: int, now: Time): Option<Refusal>
    requires p in f.book.money.balance && lot.question in r.base
  {
    var expected := NextBidAmount(lot.top, r.base[lot.question], r.increment);
    if p in f.disqualified then Some(Disqualified)
    else if r.offline then Some(BidInTheRoom)
    else if f.paused.Some? then Some(AuctionPaused)
    else if lot.state != Open || DeadlinePassed(lot, now) then Some(BiddingClosed)
    else if lot.top.Some? && lot.top.value.who == p then Some(AlreadyHighest)
    else if amount != expected then Some(WrongIncrement(expected))
    else if amount > f.book.money.balance[p] then Some(TooPoor)
    else if AtCap(r, f.book, p) then Some(CapReached)
    else None
  }

  function PlaceBid(r: Rules, f: Floor, i: nat, p: Pid, amount: int, blackedOut: bool, now: Time)
    : Result<Floor, Refusal>
    requires PricesKnown(r, f)
  {
    if blackedOut then Err(BlackedOut)
    else if i >= |f.lots| then Err(NoSuchLot)
    else if p !in f.book.money.balance then Err(NotAParticipant)
    else
      var refusal := CheckBid(r, f, f.lots[i], p, amount, now);
      if refusal.Some? then Err(refusal.value)
      else
        var bid := Bid(p, amount);
        Ok(f.(lots := f.lots[i := f.lots[i].(
          top := Some(bid), stack := f.lots[i].stack + [bid], noBid := None, ends := Countdown(r, now))]))
  }

  /** Undo the newest bid row of the lot, back to the one before it. */
  function PopBid(r: Rules, lot: Lot, now: Time): Lot
    requires lot.stack != []
  {
    var stack := lot.stack[..|lot.stack| - 1];
    if stack == [] then
      lot.(top := None, stack := stack, noBid := Some(SecondsFrom(now, r.window)), ends := None)
    else
      lot.(top := Some(stack[|stack| - 1]), stack := stack, noBid := None, ends := Countdown(r, now))
  }

  function RetractTopBid(r: Rules, f: Floor, now: Time): Result<Floor, Refusal> {
    var on := OpenLot(f.lots);
    if on.None? then Err(NoOpenLot)
    else if f.lots[on.value].stack == [] then Err(NoBids)
    else Ok(f.(lots := f.lots[on.value := PopBid(r, f.lots[on.value], now)]))
  }

  function OpenNextLot(r: Rules, f: Floor, now: Time): Result<Floor, Refusal> {
    if f.paused.Some? then Err(AuctionPaused)
    else if OpenLot(f.lots).Some? then Err(AlreadyOpen)
    else
      var next := FirstPending(f.lots);
      if next.None? then Err(NothingPending)
      else
        var window := if r.offline then None else Some(SecondsFrom(now, r.window));
        Ok(f.(lots := f.lots[next.value := f.lots[next.value].(state := Open, noBid := window, ends := None)]))
  }

  /** The floor once this lot is settled: sold to the top of its stack, or unsold when the stack is empty. */
  function Settle(f: Floor, i: nat): Result<Floor, Refusal>
    requires i < |f.lots|
  {
    var lot := f.lots[i];
    if lot.top.None? then Ok(f.(lots := f.lots[i := lot.(state := Unsellable)]))
    else
      var sold := Awarded(f.book, lot.question, lot.top.value.who, lot.top.value.amount);
      if sold.Err? then Err(SaleRefused(sold.error))
      else Ok(f.(lots := f.lots[i := lot.(state := Closed)], book := sold.value))
  }

  function CloseLot(f: Floor, i: nat): Result<Floor, Refusal> {
    if i >= |f.lots| || f.lots[i].state != Open then Err(NotOpen) else Settle(f, i)
  }

  /** The scheduler's close, deciding again under the lot's lock. */
  function SettleIfDue(r: Rules, f: Floor, i: nat, now: Time): Result<Floor, Refusal> {
    if f.paused.Some? then Err(AuctionPaused)
    else if r.offline then Err(BidInTheRoom)
    else if i >= |f.lots| || f.lots[i].state != Open then Err(NotOpen)
    else if !DeadlinePassed(f.lots[i], now) then Err(NotDue)
    else Settle(f, i)
  }

  function WithdrawLot(f: Floor, i: nat): Result<Floor, Refusal> {
    if i >= |f.lots| then Err(NoSuchLot)
    else if f.lots[i].state == Withdrawn then Err(AlreadyWithdrawn)
    else if f.lots[i].state == Closed || f.lots[i].state == Unsellable then Err(AlreadySettled)
    else Ok(f.(lots := f.lots[i := f.lots[i].(state := Withdrawn, noBid := None, ends := None)]))
  }

  /** A withdrawn lot pending once more, behind all others, its stack untouched. */
  function RestoreLot(f: Floor, i: nat): Result<Floor, Refusal> {
    if i >= |f.lots| then Err(NoSuchLot)
    else if f.lots[i].state != Withdrawn then Err(NotWithdrawn)
    else Ok(f.(lots := f.lots[i := f.lots[i].(state := Pending, order := LastOrder(f.lots) + 1, top := None)]))
  }

  /** The lots with this question's pending again behind all others, its stack untouched. */
  function Relisted(lots: seq<Lot>, q: Qid): seq<Lot> {
    var order := LastOrder(lots) + 1;
    var at := LotOf(lots, q);
    if at.None? then lots + [Lot(q, Pending, order, None, None, None, [])]
    else lots[at.value := Lot(q, Pending, order, None, None, None, lots[at.value].stack)]
  }

  function TakeBackAndRelist(f: Floor, q: Qid, refundPrice: bool, refundHints: bool): Result<Floor, Refusal> {
    var back := TakenBack(f.book, q, refundPrice, refundHints);
    if back.Err? then Err(SaleRefused(back.error))
    else Ok(f.(book := back.value, lots := Relisted(f.lots, q)))
  }

  function Pause(f: Floor, now: Time): Result<Floor, Refusal> {
    if f.paused.Some? then Err(AlreadyPaused) else Ok(f.(paused := Some(now)))
  }

  function Later(t: Option<Time>, held: int): Option<Time> {
    if t.None? then None else Some(t.value + held)
  }

  function Shifted(lots: seq<Lot>, held: int): (s: seq<Lot>)
    ensures |s| == |lots|
    ensures forall i :: 0 <= i < |lots| ==>
      s[i] == if lots[i].state == Open
              then lots[i].(noBid := Later(lots[i].noBid, held), ends := Later(lots[i].ends, held))
              else lots[i]
  {
    seq(|lots|, i requires 0 <= i < |lots| =>
      if lots[i].state == Open
      then lots[i].(noBid := Later(lots[i].noBid, held), ends := Later(lots[i].ends, held))
      else lots[i])
  }

  function Resume(f: Floor, now: Time): Result<Floor, Refusal> {
    if f.paused.None? then Err(NotPaused)
    else Ok(f.(paused := None, lots := Shifted(f.lots, now - f.paused.value)))
  }

  datatype TimerMode = Off | Restart | Adjust(seconds: int)

  /** The two deadlines after an organiser's change to the open lot's timer. */
  function NewClock(r: Rules, lot: Lot, mode: TimerMode, now: Time): Result<(Option<Time>, Option<Time>), Refusal> {
    var bidding := lot.top.Some?;
    match mode
    case Off => Ok((None, None))
    case Restart =>
      var seconds := if bidding then r.countdown else r.window;
      if seconds <= 0 then Err(NoCountdown)
      else if bidding then Ok((None, Some(SecondsFrom(now, seconds))))
      else Ok((Some(SecondsFrom(now, seconds)), None))
    case Adjust(seconds) =>
      if seconds == 0 then Err(SecondsMissing)
      else if LiveClock(lot).None? then Err(TimerOff)
      else
        var wanted := LiveClock(lot).value + seconds * SECOND;
        var moved := if SecondsFrom(now, 1) >= wanted then SecondsFrom(now, 1) else wanted;
        if bidding then Ok((lot.noBid, Some(moved))) else Ok((Some(moved), lot.ends))
  }

  function SetLotTimer(r: Rules, f: Floor, mode: TimerMode, now: Time): Result<Floor, Refusal> {
    var on := OpenLot(f.lots);
    if on.None? then Err(NoOpenLot)
    else
      var clocks := NewClock(r, f.lots[on.value], mode, now);
      if clocks.Err? then Err(clocks.error)
      else
        var lot := f.lots[on.value].(noBid := clocks.value.0, ends := clocks.value.1);
        Ok(f.(lots := f.lots[on.value := lot]))
  }

  /** What one tick of the clock makes of the floor. */
  function Ticked(r: Rules, f: Floor, now: Time): Floor {
    if f.paused.Some? then f
    else
      var on := OpenLot(f.lots);
      if on.None? then Offered(r, f, now)
      else if r.offline || !DeadlinePassed(f.lots[on.value], now) then f
      else
        var settled := SettleIfDue(r, f, on.value, now);
        if settled.Ok? then Offered(r, settled.value, now) else f
  }

  function Offered(r: Rules, f: Floor, now: Time): Floor {
    var next := OpenNextLot(r, f, now);
    if next.Ok? then next.value else f
  }

  // ----- one step of any run ------------------------------------------------------------------

  datatype Step =
    | Opening
    | Bidding(lot: nat, who: Pid, amount: int, blackedOut: bool)
    | Retracting
    | Closing(lot: nat)
    | Ticking(lot: nat)
    | Withdrawing(lot: nat)
    | Restoring(lot: nat)
    | Pausing
    | Resuming
    | Timing(mode: TimerMode)
    | Relisting(question: Qid, refundPrice: bool, refundHints: bool)
    | Selling(sale: Sale)

  /** Every lot offers a question whose base price is known. */
  predicate PricesKnown(r: Rules, f: Floor) {
    forall i :: 0 <= i < |f.lots| ==> f.lots[i].question in r.base
  }

  function Apply(r: Rules, hints: HintPrices, f: Floor, step: Step, now: Time): Result<Floor, Refusal>
    requires PricesKnown(r, f)
  {
    match step
    case Opening => OpenNextLot(r, f, now)
    case Bidding(i, p, amount, blackedOut) => PlaceBid(r, f, i, p, amount, blackedOut, now)
    case Retracting => RetractTopBid(r, f, now)
    case Closing(i) => CloseLot(f, i)
    case Ticking(i) => SettleIfDue(r, f, i, now)
    case Withdrawing(i) => WithdrawLot(f, i)
    case Restoring(i) => RestoreLot(f, i)
    case Pausing => Pause(f, now)
    case Resuming => Resume(f, now)
    case Timing(mode) => SetLotTimer(r, f, mode, now)
    case Relisting(q, refundPrice, refundHints) =>
      if q in r.base then TakeBackAndRelist(f, q, refundPrice, refundHints) else Err(SaleRefused(NoSuchQuestion))
    case Selling(sale) => Ok(f.(book := AfterSale(f.book, hints, sale)))
  }
}
