/** The marketplace as values: blackouts that stack end to end, a queue of shields, the cap on attacks
    with its doubling breaks, and requests that act at most once. `engine/marketplace/`. */
module Attacks {
  import opened Common
  import opened Ledger

  /** A powerup is known by its place in the catalogue. */
  type Item = nat

  datatype Kind = ShieldKind | BlackoutKind

  datatype Powerup = Powerup(
    kind: Kind,
    price: nat,
    seconds: Option<int>,
    enabled: bool,
    maxHeld: Option<int>,
    maxPurchases: Option<int>)

  /** The duration that stands for no time limit. */
  const UNTIL_ABSORBED := -1

  datatype Holding = Holding(quantity: int, purchased: int)

  datatype Shield = Shield(item: Item, startsAt: Time, endsAt: Option<Time>, absorbedAt: Option<Time>)

  datatype Blackout = Blackout(attacker: Pid, seconds: int, startsAt: Time, endsAt: Time)

  /** `endsAt` is absent from an endless break. */
  datatype Break = Break(number: int, seconds: int, startsAt: Time, endsAt: Option<Time>)

  datatype Deed = Purchase | Used | Blocked

  /** A row of `powerup_event`. It is dated when its transaction began; `at` is when the transaction, with
      its locks held, read the clock. */
  datatype Event = Event(
    deed: Deed,
    item: Item,
    actor: Pid,
    target: Option<Pid>,
    cost: int,
    request: nat,
    created: Time,
    at: Time)

  datatype Person = Person(
    disqualified: bool,
    shelf: seq<Holding>,
    shields: seq<Shield>,
    blackouts: seq<Blackout>,
    breaks: seq<Break>)

  datatype Rules = Rules(catalogue: seq<Powerup>, cap: int, breakSeconds: int, countAbsorbed: bool, forever: bool)

  datatype Market = Market(money: Money, people: map<Pid, Person>, events: seq<Event>)

  datatype Refusal =
    | MarketplaceClosed | NotAParticipant | Disqualified | NoSuchPowerup | PowerupDisabled | TooPoor
    | HoldLimit | PurchaseLimit | MoveRefused | WrongPhase | NotOwned | Passive | NoTarget | OwnGoal
    | TargetUnknown | TargetInactive | TargetOnBreak | NoDuration | Replayed

  function OrZero(n: Option<int>): int {
    if n.Some? then n.value else 0
  }

  // ----- blackouts -----------------------------------------------------------------------

  /** When the last of the blackouts still running at `now` ends. */
  function RunningUntil(blackouts: seq<Blackout>, now: Time): Option<Time> {
    if blackouts == [] then None
    else
      var last := blackouts[|blackouts| - 1];
      var before := RunningUntil(blackouts[..|blackouts| - 1], now);
      if last.endsAt > now && (before.None? || before.value < last.endsAt) then Some(last.endsAt) else before
  }

  /** What the gate tests: some blackout ends later than `now`, whether or not it has begun. */
  predicate BlackedOut(blackouts: seq<Blackout>, now: Time) {
    exists i :: 0 <= i < |blackouts| && blackouts[i].endsAt > now
  }

  /** The blackouts with one more, which begins when those still running are over. */
  function Stacked(blackouts: seq<Blackout>, attacker: Pid, seconds: int, now: Time): seq<Blackout> {
    var until := RunningUntil(blackouts, now);
    var startsAt := if until.Some? then until.value else now;
    blackouts + [Blackout(attacker, seconds, startsAt, startsAt + seconds * SECOND)]
  }

  // ----- shields ------------------------------------------------------------------------------

  predicate StillUp(s: Shield, now: Time) {
    s.absorbedAt.None? && (s.endsAt.None? || s.endsAt.value > now)
  }

  /** The newest shield still up, if any. */
  function Up(shields: seq<Shield>, now: Time): (i: Option<nat>)
    ensures i.Some? ==> i.value < |shields| && StillUp(shields[i.value], now)
    ensures i.None? ==> forall j :: 0 <= j < |shields| ==> !StillUp(shields[j], now)
  {
    if shields == [] then None
    else
      var n := |shields| - 1;
      if StillUp(shields[n], now) then Some(n) else Up(shields[..n], now)
  }

  predicate CanStart(catalogue: seq<Powerup>, shelf: seq<Holding>, item: Item) {
    && item < |catalogue| && item < |shelf|
    && catalogue[item].kind == ShieldKind && shelf[item].quantity > 0
    && (OrZero(catalogue[item].seconds) > 0 || OrZero(catalogue[item].seconds) == UNTIL_ABSORBED)
  }

  /** The first shield waiting in the inventory, by powerup id, whose duration is set. */
  function FirstWaiting(catalogue: seq<Powerup>, shelf: seq<Holding>, from: nat): (i: Option<Item>)
    requires from <= |catalogue|
    ensures i.Some? ==> from <= i.value && CanStart(catalogue, shelf, i.value)
    ensures i.Some? ==> forall j :: from <= j < i.value ==> !CanStart(catalogue, shelf, j)
    ensures i.None? ==> forall j :: from <= j ==> !CanStart(catalogue, shelf, j)
    decreases |catalogue| - from
  {
    if from == |catalogue| then None
    else if CanStart(catalogue, shelf, from) then Some(from)
    else FirstWaiting(catalogue, shelf, from + 1)
  }

  function TakeOne(shelf: seq<Holding>, item: Item): seq<Holding>
    requires item < |shelf|
  {
    shelf[item := shelf[item].(quantity := shelf[item].quantity - 1)]
  }

  function Started(catalogue: seq<Powerup>, p: Person, item: Item, now: Time): Person
    requires CanStart(catalogue, p.shelf, item)
  {
    var seconds := OrZero(catalogue[item].seconds);
    var endsAt := if seconds == UNTIL_ABSORBED then None else Some(now + seconds * SECOND);
    p.(shelf := TakeOne(p.shelf, item), shields := p.shields + [Shield(item, now, endsAt, None)])
  }

  /** The person with a shield up, if they hold any that can start. */
  function Settled(catalogue: seq<Powerup>, p: Person, now: Time): Person {
    if Up(p.shields, now).Some? then p
    else
      var waiting := FirstWaiting(catalogue, p.shelf, 0);
      if waiting.None? then p else Started(catalogue, p, waiting.value, now)
  }

  /** The person after an attack their shields absorb; None when they have none to absorb it. */
  function Absorbed(catalogue: seq<Powerup>, p: Person, now: Time): Option<Person> {
    var ready := Settled(catalogue, p, now);
    var up := Up(ready.shields, now);
    if up.None? then None
    else
      var spent := ready.shields[up.value].(absorbedAt := Some(now));
      Some(Settled(catalogue, ready.(shields := ready.shields[up.value := spent]), now))
  }

  // ----- breaks -----------------------------------------------------------------------------------

  predicate StillOn(b: Break, now: Time) {
    b.endsAt.None? || b.endsAt.value > now
  }

  predicate OnBreak(breaks: seq<Break>, now: Time) {
    exists i :: 0 <= i < |breaks| && StillOn(breaks[i], now)
  }

  /** The break with the highest number. */
  function LastBreak(breaks: seq<Break>): Break
    requires breaks != []
  {
    var n := |breaks| - 1;
    if n == 0 || breaks[n].number >= LastBreak(breaks[..n]).number then breaks[n] else LastBreak(breaks[..n])
  }

  predicate IsAttackOn(e: Event, target: Pid) {
    e.target == Some(target) && (e.deed == Used || e.deed == Blocked)
  }

  predicate Counts(r: Rules, e: Event, target: Pid) {
    IsAttackOn(e, target) && (e.deed == Used || r.countAbsorbed)
  }

  /** How many counted attacks on `target` are dated at or after `since`. */
  function CountSince(r: Rules, events: seq<Event>, target: Pid, since: Option<Time>): nat {
    if events == [] then 0
    else
      var last := events[|events| - 1];
      CountSince(r, events[..|events| - 1], target, since)
      + if Counts(r, last, target) && (since.None? || last.created >= since.value) then 1 else 0
  }

  /** `base` doubled `n` times. */
  function Doubled(base: int, n: nat): int {
    if n == 0 then base else 2 * Doubled(base, n - 1)
  }

  /** The target's breaks once an attack, not yet in `events`, is taken into account. */
  function Noted(r: Rules, events: seq<Event>, target: Pid, breaks: seq<Break>, absorbed: bool, now: Time): seq<Break> {
    if r.cap <= 0 || (absorbed && !r.countAbsorbed) then breaks
    else
      var since := if breaks == [] then None else LastBreak(breaks).endsAt;
      if CountSince(r, events, target, since) + 1 < r.cap then breaks
      else
        var number := if breaks == [] then 1 else LastBreak(breaks).number + 1;
        var seconds := if r.forever || number < 1 then 0 else Doubled(r.breakSeconds, number - 1);
        breaks + [Break(number, seconds, now, if r.forever then None else Some(now + seconds * SECOND))]
  }

  // ----- buying -------------------------------------------------------------------------------------

  predicate Recorded(events: seq<Event>, actor: Pid, request: nat) {
    exists i :: 0 <= i < |events| && events[i].actor == actor && events[i].request == request
  }

  /** Everything a purchase checks before it takes any money. */
  function CheckBuy(r: Rules, m: Market, p: Pid, item: Item, open: bool): Option<Refusal>
    requires WellFormed(r, m)
  {
    if !open then Some(MarketplaceClosed)
    else if p !in m.people then Some(NotAParticipant)
    else if m.people[p].disqualified then Some(Disqualified)
    else if item >= |r.catalogue| then Some(NoSuchPowerup)
    else
      var powerup, held := r.catalogue[item], m.people[p].shelf[item];
      if !powerup.enabled then Some(PowerupDisabled)
      else if powerup.price > m.money.balance[p] then Some(TooPoor)
      else if powerup.maxHeld.Some? && held.quantity >= powerup.maxHeld.value then Some(HoldLimit)
      else if powerup.maxPurchases.Some? && held.purchased >= powerup.maxPurchases.value then Some(PurchaseLimit)
      else None
  }

  function AddOne(shelf: seq<Holding>, item: Item): seq<Holding>
    requires item < |shelf|
  {
    shelf[item := Holding(shelf[item].quantity + 1, shelf[item].purchased + 1)]
  }

  function Buy(r: Rules, m: Market, p: Pid, item: Item, request: nat, open: bool, began: Time, now: Time): Result<Market, Refusal>
    requires WellFormed(r, m)
  {
    var refusal := CheckBuy(r, m, p, item, open);
    if refusal.Some? then Err(refusal.value)
    else
      var powerup := r.catalogue[item];
      var charged := Moved(m.money, p, 0 - powerup.price, PowerupBought);
      var stocked := m.people[p].(shelf := AddOne(m.people[p].shelf, item));
      var buyer := if powerup.kind == ShieldKind then Settled(r.catalogue, stocked, now) else stocked;
      if charged.Err? then Err(MoveRefused)
      else if Recorded(m.events, p, request) then Err(Replayed)
      else
        var e := Event(Purchase, item, p, None, powerup.price, request, began, now);
        Ok(Market(charged.value, m.people[p := buyer], m.events + [e]))
  }

  // ----- attacking ------------------------------------------------------------------------------------

  /** Everything an attack checks before the target's row is looked at. */
  function CheckUse(r: Rules, m: Market, actor: Pid, item: Item, target: Option<Pid>, usable: bool): Option<Refusal>
    requires WellFormed(r, m)
  {
    if item >= |r.catalogue| then Some(NoSuchPowerup)
    else if !r.catalogue[item].enabled then Some(PowerupDisabled)
    else if !usable then Some(WrongPhase)
    else
      var owned := if actor in m.people then m.people[actor].shelf[item].quantity else 0;
      if r.catalogue[item].kind == ShieldKind then Some(if owned <= 0 then NotOwned else Passive)
      else if target.None? then Some(NoTarget)
      else if target.value == actor then Some(OwnGoal)
      else if actor !in m.people then Some(NotAParticipant)
      else if m.people[actor].disqualified then Some(Disqualified)
      else if owned <= 0 then Some(NotOwned)
      else None
  }

  datatype Landing = Landing(victim: Person, absorbed: bool)

  /** What an attack makes of its target, or why it is refused. */
  function Land(r: Rules, events: seq<Event>, item: Item, attacker: Pid, target: Pid, victim: Person, now: Time)
    : Result<Landing, Refusal>
    requires item < |r.catalogue|
  {
    if victim.disqualified then Err(TargetInactive)
    else if OnBreak(victim.breaks, now) then Err(TargetOnBreak)
    else
      var eaten := Absorbed(r.catalogue, victim, now);
      if eaten.Some? then
        Ok(Landing(eaten.value.(breaks := Noted(r, events, target, victim.breaks, true, now)), true))
      else
        var seconds := OrZero(r.catalogue[item].seconds);
        if seconds <= 0 then Err(NoDuration)
        else
          Ok(Landing(victim.(
            blackouts := Stacked(victim.blackouts, attacker, seconds, now),
            breaks := Noted(r, events, target, victim.breaks, false, now)), false))
  }

  datatype Attack = Attack(market: Market, absorbed: bool)

  function Use(
    r: Rules, m: Market, actor: Pid, item: Item, target: Option<Pid>, request: nat, usable: bool, began: Time, now: Time)
    : Result<Attack, Refusal>
    requires WellFormed(r, m)
  {
    var refusal := CheckUse(r, m, actor, item, target, usable);
    if refusal.Some? then Err(refusal.value)
    else if target.value !in m.people then Err(TargetUnknown)
    else
      var landing := Land(r, m.events, item, actor, target.value, m.people[target.value], now);
      if landing.Err? then Err(landing.error)
      else if Recorded(m.events, actor, request) then Err(Replayed)
      else
        var attacker := m.people[actor].(shelf := TakeOne(m.people[actor].shelf, item));
        var deed := if landing.value.absorbed then Blocked else Used;
        var e := Event(deed, item, actor, target, 0, request, began, now);
        Ok(Attack(
          Market(m.money, m.people[target.value := landing.value.victim][actor := attacker], m.events + [e]),
          landing.value.absorbed))
  }

  /** The scheduler's step for one holder, chosen from a set that may be stale. */
  function TickShield(r: Rules, m: Market, p: Pid, now: Time): Market {
    if p !in m.people then m
    else m.(people := m.people[p := Settled(r.catalogue, m.people[p], now)])
  }

  predicate WellFormed(r: Rules, m: Market) {
    && m.people.Keys == m.money.balance.Keys
    && (forall p :: p in m.people ==> |m.people[p].shelf| == |r.catalogue|)
  }
}
