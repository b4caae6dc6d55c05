/** Every run of the marketplace: purchases, attacks and scheduler ticks in any order, by anybody. */
module AttackRuns {
  import opened Common
  import opened Ledger
  import opened Attacks
  import opened Blackouts
  import opened Shields
  import opened Breaks

  datatype Step =
    | Buying(who: Pid, item: Item, request: nat, isOpen: bool, began: Time)
    | Attacking(actor: Pid, item: Item, target: Option<Pid>, request: nat, usable: bool, began: Time)
    | Ticking(who: Pid)

  /** A refused or replayed request leaves the market exactly as it was. */
  function Next(r: Rules, m: Market, step: Step, now: Time): Market
    requires WellFormed(r, m)
  {
    match step
    case Buying(p, item, request, isOpen, began) =>
      var bought := Buy(r, m, p, item, request, isOpen, began, now);
      if bought.Ok? then bought.value else m
    case Attacking(actor, item, target, request, usable, began) =>
      var used := Use(r, m, actor, item, target, request, usable, began, now);
      if used.Ok? then used.value.market else m
    case Ticking(p) => TickShield(r, m, p, now)
  }

  ghost predicate Extends(m: Market, m': Market) {
    && m'.people.Keys == m.people.Keys
    && (m'.events == m.events || (|m'.events| == |m.events| + 1 && m'.events[..|m.events|] == m.events))
  }

  lemma BuyExtends(r: Rules, m: Market, p: Pid, item: Item, request: nat, isOpen: bool, began: Time, now: Time)
    requires WellFormed(r, m) && Buy(r, m, p, item, request, isOpen, began, now).Ok?
    ensures WellFormed(r, Buy(r, m, p, item, request, isOpen, began, now).value)
    ensures Extends(m, Buy(r, m, p, item, request, isOpen, began, now).value)
  {
  }

  lemma UseExtends(r: Rules, m: Market, actor: Pid, item: Item, target: Option<Pid>, request: nat, usable: bool, began: Time, now: Time)
    requires WellFormed(r, m) && Use(r, m, actor, item, target, request, usable, began, now).Ok?
    ensures WellFormed(r, Use(r, m, actor, item, target, request, usable, began, now).value.market)
    ensures Extends(m, Use(r, m, actor, item, target, request, usable, began, now).value.market)
  {
    AbsorbedKeepsShelf(r.catalogue, m.people[target.value], now);
  }

  lemma AbsorbedKeepsShelf(catalogue: seq<Powerup>, p: Person, now: Time)
    ensures Absorbed(catalogue, p, now).Some? ==> |Absorbed(catalogue, p, now).value.shelf| == |p.shelf|
  {
  }

  lemma NextWellFormed(r: Rules, m: Market, step: Step, now: Time)
    requires WellFormed(r, m)
    ensures WellFormed(r, Next(r, m, step, now)) && Extends(m, Next(r, m, step, now))
  {
    match step
    case Buying(p, item, request, isOpen, began) =>
      if Buy(r, m, p, item, request, isOpen, began, now).Ok? {
        BuyExtends(r, m, p, item, request, isOpen, began, now);
      }
    case Attacking(actor, item, target, request, usable, began) =>
      if Use(r, m, actor, item, target, request, usable, began, now).Ok? {
        UseExtends(r, m, actor, item, target, request, usable, began, now);
      }
    case Ticking(p) =>
  }

  // ----- each person ---------------------------------------------------------------------------

  ghost predicate PersonOk(r: Rules, events: seq<Event>, who: Pid, p: Person, clock: Time) {
    && EndToEnd(p.blackouts, clock)
    && OneAtATime(p.shields, clock)
    && BreaksOk(r, events, who, p.breaks, clock)
  }

  /** A later clock and events about other people change nothing. */
  lemma PersonKept(r: Rules, events: seq<Event>, e: Event, who: Pid, p: Person, clock: Time)
    requires PersonOk(r, events, who, p, clock) && clock <= e.at && !IsAttackOn(e, who)
    ensures PersonOk(r, events + [e], who, p, e.at)
  {
    hide BreaksOk;
    OtherEventKeepsBreaks(r, events, e, who, p.breaks, clock);
  }

  lemma PersonWaits(r: Rules, events: seq<Event>, who: Pid, p: Person, clock: Time, now: Time)
    requires PersonOk(r, events, who, p, clock) && clock <= now
    ensures PersonOk(r, events, who, p, now)
  {
  }

  /** The target of an attack that landed or was absorbed. */
  lemma VictimOk(r: Rules, events: seq<Event>, item: Item, attacker: Pid, target: Pid, victim: Person,
                 clock: Time, e: Event)
    requires Sensible(r) && item < |r.catalogue| && PersonOk(r, events, target, victim, clock)
    requires e.created <= e.at && clock <= e.at
    requires Land(r, events, item, attacker, target, victim, e.at).Ok?
    requires e.target == Some(target)
    requires e.deed == if Land(r, events, item, attacker, target, victim, e.at).value.absorbed then Blocked else Used
    ensures PersonOk(r, events + [e], target, Land(r, events, item, attacker, target, victim, e.at).value.victim, e.at)
  {
    hide BreaksOk;
    AttackKeepsBreaks(r, events, e, target, victim.breaks, clock);
    if Absorbed(r.catalogue, victim, e.at).Some? {
      AbsorbedKeepsOne(r.catalogue, victim, clock, e.at);
    } else {
      StackedEndToEnd(victim.blackouts, clock, attacker, OrZero(r.catalogue[item].seconds), e.at);
    }
  }

  // ----- conservation ---------------------------------------------------------------------------

  function StartedOf(shields: seq<Shield>, item: Item): nat {
    if shields == [] then 0
    else
      var n := |shields| - 1;
      StartedOf(shields[..n], item) + if shields[n].item == item then 1 else 0
  }

  predicate UsedBy(e: Event, actor: Pid, item: Item) {
    e.actor == actor && e.item == item && (e.deed == Used || e.deed == Blocked)
  }

  function UsesOf(events: seq<Event>, actor: Pid, item: Item): nat {
    if events == [] then 0
    else
      var n := |events| - 1;
      UsesOf(events[..n], actor, item) + if UsedBy(events[n], actor, item) then 1 else 0
  }

  /** What one participant's purchase events cost in all. */
  function Spent(events: seq<Event>, who: Pid): int {
    if events == [] then 0
    else
      var n := |events| - 1;
      Spent(events[..n], who) + if events[n].actor == who && events[n].deed == Purchase then events[n].cost else 0
  }

  /** Everything ever bought is still held, was started as a shield, or was used in an attack. */
  ghost predicate NothingLost(r: Rules, events: seq<Event>, who: Pid, p: Person)
    requires |p.shelf| == |r.catalogue|
  {
    forall item :: 0 <= item < |p.shelf| ==>
      && p.shelf[item].quantity >= 0
      && p.shelf[item].purchased == p.shelf[item].quantity + StartedOf(p.shields, item) + UsesOf(events, who, item)
  }

  lemma UsesAppend(events: seq<Event>, e: Event, actor: Pid, item: Item)
    ensures UsesOf(events + [e], actor, item) == UsesOf(events, actor, item) + if UsedBy(e, actor, item) then 1 else 0
    ensures Spent(events + [e], actor)
         == Spent(events, actor) + if e.actor == actor && e.deed == Purchase then e.cost else 0
  {
    assert (events + [e])[..|events|] == events;
  }

  lemma {:induction false} StartedUpdate(shields: seq<Shield>, i: nat, s: Shield, item: Item)
    requires i < |shields| && s.item == shields[i].item
    ensures StartedOf(shields[i := s], item) == StartedOf(shields, item)
  {
    var n := |shields| - 1;
    if i == n {
      assert shields[i := s][..n] == shields[..n];
    } else {
      StartedUpdate(shields[..n], i, s, item);
      assert shields[i := s][..n] == shields[..n][i := s];
    }
  }

  lemma StartedAppend(shields: seq<Shield>, s: Shield, item: Item)
    ensures StartedOf(shields + [s], item) == StartedOf(shields, item) + if s.item == item then 1 else 0
  {
    assert (shields + [s])[..|shields|] == shields;
  }

  lemma SettledLosesNothing(r: Rules, events: seq<Event>, who: Pid, p: Person, now: Time)
    requires |p.shelf| == |r.catalogue| && NothingLost(r, events, who, p)
    ensures |Settled(r.catalogue, p, now).shelf| == |r.catalogue|
    ensures NothingLost(r, events, who, Settled(r.catalogue, p, now))
  {
    var after := Settled(r.catalogue, p, now);
    if after != p {
      forall item | 0 <= item < |p.shelf|
        ensures StartedOf(after.shields, item)
             == StartedOf(p.shields, item) + if after.shields[|p.shields|].item == item then 1 else 0
      {
        StartedAppend(p.shields, after.shields[|p.shields|], item);
      }
    }
  }

  lemma AbsorbedLosesNothing(r: Rules, events: seq<Event>, who: Pid, p: Person, now: Time)
    requires |p.shelf| == |r.catalogue| && NothingLost(r, events, who, p)
    requires Absorbed(r.catalogue, p, now).Some?
    ensures |Absorbed(r.catalogue, p, now).value.shelf| == |r.catalogue|
    ensures NothingLost(r, events, who, Absorbed(r.catalogue, p, now).value)
  {
    var ready := Settled(r.catalogue, p, now);
    SettledLosesNothing(r, events, who, p, now);
    var up := Up(ready.shields, now).value;
    var spent := ready.shields[up].(absorbedAt := Some(now));
    var after := ready.(shields := ready.shields[up := spent]);
    forall item | 0 <= item < |ready.shelf|
      ensures StartedOf(after.shields, item) == StartedOf(ready.shields, item)
    {
      StartedUpdate(ready.shields, up, spent, item);
    }
    SettledLosesNothing(r, events, who, after, now);
  }

  // ----- the whole market ---------------------------------------------------------------------------

  /** No actor has two events for one request. */
  ghost predicate OncePerRequest(events: seq<Event>) {
    forall i, j :: 0 <= i < j < |events| ==> events[i].actor != events[j].actor || events[i].request != events[j].request
  }

  /** One participant's whole account. */
  ghost predicate AccountOk(r: Rules, m: Market, p: Pid, clock: Time)
    requires WellFormed(r, m) && p in m.people
  {
    && PersonOk(r, m.events, p, m.people[p], clock)
    && NothingLost(r, m.events, p, m.people[p])
    && Net(m.money.lines, p, {PowerupBought}) == -Spent(m.events, p)
  }

  ghost predicate Inv(r: Rules, m: Market, clock: Time) {
    && WellFormed(r, m)
    && Balanced(m.money)
    && OncePerRequest(m.events)
    && (forall p {:trigger AccountOk(r, m, p, clock)} :: p in m.people ==> AccountOk(r, m, p, clock))
  }

  lemma StockedLosesNothing(r: Rules, events: seq<Event>, who: Pid, p: Person, item: Item)
    requires |p.shelf| == |r.catalogue| && item < |p.shelf| && NothingLost(r, events, who, p)
    ensures NothingLost(r, events, who, p.(shelf := AddOne(p.shelf, item)))
  {
  }

  lemma SettledTouchesOnlyShields(catalogue: seq<Powerup>, p: Person, now: Time)
    ensures var after := Settled(catalogue, p, now);
            after.blackouts == p.blackouts && after.breaks == p.breaks && |after.shelf| == |p.shelf|
  {
  }

  lemma BuyerOk(r: Rules, m: Market, e: Event, p: Person, clock: Time)
    requires |p.shelf| == |r.catalogue| && e.item < |p.shelf| && e.deed == Purchase && clock <= e.at && e.target == None
    requires PersonOk(r, m.events, e.actor, p, clock) && NothingLost(r, m.events, e.actor, p)
    ensures var stocked := p.(shelf := AddOne(p.shelf, e.item));
            var buyer := if r.catalogue[e.item].kind == ShieldKind then Settled(r.catalogue, stocked, e.at) else stocked;
            && |buyer.shelf| == |r.catalogue|
            && PersonOk(r, m.events + [e], e.actor, buyer, e.at) && NothingLost(r, m.events + [e], e.actor, buyer)
  {
    var stocked := p.(shelf := AddOne(p.shelf, e.item));
    SettledTouchesOnlyShields(r.catalogue, stocked, e.at);
    hide BreaksOk;
    hide EndToEnd;
    hide OneAtATime;
    hide Settled;
    hide NothingLost;
    PersonKept(r, m.events, e, e.actor, stocked, clock);
    ShelfAfterEvent(r, m.events, e, e.actor, p);
    StockedLosesNothing(r, m.events + [e], e.actor, p, e.item);
    SettledKeepsOne(r.catalogue, stocked, clock, e.at);
    SettledLosesNothing(r, m.events + [e], e.actor, stocked, e.at);
  }

  lemma BuyKeepsAccount(r: Rules, m: Market, p: Pid, item: Item, request: nat, isOpen: bool, began: Time, clock: Time, now: Time, q: Pid)
    requires Inv(r, m, clock) && clock <= now && Buy(r, m, p, item, request, isOpen, began, now).Ok?
    requires WellFormed(r, Buy(r, m, p, item, request, isOpen, began, now).value) && q in m.people
    ensures AccountOk(r, Buy(r, m, p, item, request, isOpen, began, now).value, q, now)
  {
    var m' := Buy(r, m, p, item, request, isOpen, began, now).value;
    var e := Event(Purchase, item, p, None, r.catalogue[item].price, request, began, now);
    UsesAppend(m.events, e, q, item);
    NetAppend(m.money.lines, m'.money.lines[|m.money.lines|], q, {PowerupBought});
    assert AccountOk(r, m, q, clock);
    if q == p {
      BuyerOk(r, m, e, m.people[p], clock);
    } else {
      PersonKept(r, m.events, e, q, m.people[q], clock);
      ShelfAfterEvent(r, m.events, e, q, m.people[q]);
    }
  }

  lemma RecordedOnce(events: seq<Event>, e: Event)
    requires OncePerRequest(events) && !Recorded(events, e.actor, e.request)
    ensures OncePerRequest(events + [e])
  {
  }

  lemma BuyKeepsInv(r: Rules, m: Market, p: Pid, item: Item, request: nat, isOpen: bool, began: Time, clock: Time, now: Time)
    requires Inv(r, m, clock) && clock <= now && Buy(r, m, p, item, request, isOpen, began, now).Ok?
    ensures Inv(r, Buy(r, m, p, item, request, isOpen, began, now).value, now)
  {
    hide AccountOk;
    var m' := Buy(r, m, p, item, request, isOpen, began, now).value;
    BuyExtends(r, m, p, item, request, isOpen, began, now);
    RecordedOnce(m.events, m'.events[|m.events|]);
    MoveKeepsBalanced(m.money, p, 0 - r.catalogue[item].price, PowerupBought);
    forall q | q in m.people
      ensures AccountOk(r, m', q, now)
    {
      BuyKeepsAccount(r, m, p, item, request, isOpen, began, clock, now, q);
    }
  }

  /** An event that used none of a person's powerups leaves their accounts as they were. */
  lemma ShelfAfterEvent(r: Rules, events: seq<Event>, e: Event, q: Pid, p: Person)
    requires |p.shelf| == |r.catalogue| && NothingLost(r, events, q, p)
    requires e.actor != q || e.deed == Purchase
    ensures NothingLost(r, events + [e], q, p)
  {
    forall item | 0 <= item < |p.shelf|
      ensures UsesOf(events + [e], q, item) == UsesOf(events, q, item)
    {
      UsesAppend(events, e, q, item);
    }
  }

  /** Using one powerup takes one from the shelf and adds one to the uses. */
  lemma AttackerLosesNothing(r: Rules, events: seq<Event>, e: Event, p: Person)
    requires |p.shelf| == |r.catalogue| && NothingLost(r, events, e.actor, p)
    requires e.deed != Purchase && e.item < |p.shelf| && p.shelf[e.item].quantity > 0
    ensures NothingLost(r, events + [e], e.actor, p.(shelf := TakeOne(p.shelf, e.item)))
  {
    forall item | 0 <= item < |p.shelf|
      ensures UsesOf(events + [e], e.actor, item) == UsesOf(events, e.actor, item) + if item == e.item then 1 else 0
    {
      UsesAppend(events, e, e.actor, item);
    }
  }

  /** The target of an attack keeps a good account. */
  lemma VictimAccount(r: Rules, events: seq<Event>, e: Event, attacker: Pid, target: Pid, victim: Person, clock: Time)
    requires Sensible(r) && e.item < |r.catalogue| && |victim.shelf| == |r.catalogue|
    requires e.created <= e.at && clock <= e.at
    requires e.actor != target && e.target == Some(target)
    requires PersonOk(r, events, target, victim, clock) && NothingLost(r, events, target, victim)
    requires Land(r, events, e.item, attacker, target, victim, e.at).Ok?
    requires e.deed == if Land(r, events, e.item, attacker, target, victim, e.at).value.absorbed then Blocked else Used
    ensures var after := Land(r, events, e.item, attacker, target, victim, e.at).value.victim;
            && |after.shelf| == |r.catalogue|
            && PersonOk(r, events + [e], target, after, e.at) && NothingLost(r, events + [e], target, after)
  {
    hide BreaksOk;
    hide PersonOk;
    VictimOk(r, events, e.item, attacker, target, victim, clock, e);
    ShelfAfterEvent(r, events, e, target, victim);
    if Absorbed(r.catalogue, victim, e.at).Some? {
      AbsorbedLosesNothing(r, events + [e], target, victim, e.at);
    }
  }

  lemma UseKeepsAccount(r: Rules, m: Market, actor: Pid, item: Item, target: Option<Pid>, request: nat, usable: bool, began: Time,
                        clock: Time, now: Time, q: Pid)
    requires Sensible(r) && Inv(r, m, clock) && clock <= now && began <= now
    requires Use(r, m, actor, item, target, request, usable, began, now).Ok?
    requires WellFormed(r, Use(r, m, actor, item, target, request, usable, began, now).value.market) && q in m.people
    ensures AccountOk(r, Use(r, m, actor, item, target, request, usable, began, now).value.market, q, now)
  {
    hide BreaksOk;
    hide Land;
    var m' := Use(r, m, actor, item, target, request, usable, began, now).value.market;
    var e := m'.events[|m.events|];
    UsesAppend(m.events, e, q, item);
    assert AccountOk(r, m, q, clock);
    if q == target.value {
      VictimAccount(r, m.events, e, actor, q, m.people[q], clock);
    } else {
      PersonKept(r, m.events, e, q, m.people[q], clock);
      if q == actor {
        AttackerLosesNothing(r, m.events, e, m.people[q]);
      } else {
        ShelfAfterEvent(r, m.events, e, q, m.people[q]);
      }
    }
  }

  lemma UseKeepsInv(r: Rules, m: Market, actor: Pid, item: Item, target: Option<Pid>, request: nat, usable: bool, began: Time,
                    clock: Time, now: Time)
    requires Sensible(r) && Inv(r, m, clock) && clock <= now && began <= now
    requires Use(r, m, actor, item, target, request, usable, began, now).Ok?
    ensures Inv(r, Use(r, m, actor, item, target, request, usable, began, now).value.market, now)
  {
    hide AccountOk;
    var m' := Use(r, m, actor, item, target, request, usable, began, now).value.market;
    UseExtends(r, m, actor, item, target, request, usable, began, now);
    RecordedOnce(m.events, m'.events[|m.events|]);
    forall q | q in m.people
      ensures AccountOk(r, m', q, now)
    {
      UseKeepsAccount(r, m, actor, item, target, request, usable, began, clock, now, q);
    }
  }

  lemma TickKeepsInv(r: Rules, m: Market, p: Pid, clock: Time, now: Time)
    requires Inv(r, m, clock) && clock <= now
    ensures Inv(r, TickShield(r, m, p, now), now)
  {
    forall q | q in m.people
      ensures AccountOk(r, TickShield(r, m, p, now), q, now)
    {
      hide PersonOk;
      hide NothingLost;
      assert AccountOk(r, m, q, clock);
      PersonWaits(r, m.events, q, m.people[q], clock, now);
      if q == p {
        SettledAccount(r, m.events, p, m.people[p], clock, now);
      }
    }
  }

  lemma SettledAccount(r: Rules, events: seq<Event>, who: Pid, p: Person, clock: Time, now: Time)
    requires |p.shelf| == |r.catalogue| && clock <= now
    requires PersonOk(r, events, who, p, clock) && NothingLost(r, events, who, p)
    ensures var after := Settled(r.catalogue, p, now);
            && |after.shelf| == |r.catalogue|
            && PersonOk(r, events, who, after, now) && NothingLost(r, events, who, after)
  {
    PersonWaits(r, events, who, p, clock, now);
    SettledTouchesOnlyShields(r.catalogue, p, now);
    SettledKeepsOne(r.catalogue, p, clock, now);
    SettledLosesNothing(r, events, who, p, now);
    hide BreaksOk;
    hide EndToEnd;
    hide OneAtATime;
    hide Settled;
    hide NothingLost;
  }

  /** No transaction reads the clock before it began. */
  predicate Began(step: Step, now: Time) {
    match step
    case Buying(_, _, _, _, began) => began <= now
    case Attacking(_, _, _, _, _, began) => began <= now
    case Ticking(_) => true
  }

  lemma StepKeepsInv(r: Rules, m: Market, step: Step, clock: Time, now: Time)
    requires Sensible(r) && Inv(r, m, clock) && clock <= now && Began(step, now)
    ensures Inv(r, Next(r, m, step, now), now)
  {
    match step
    case Buying(p, item, request, isOpen, began) =>
      if Buy(r, m, p, item, request, isOpen, began, now).Ok? {
        BuyKeepsInv(r, m, p, item, request, isOpen, began, clock, now);
      } else {
        RefusedKeepsInv(r, m, clock, now);
      }
    case Attacking(actor, item, target, request, usable, began) =>
      if Use(r, m, actor, item, target, request, usable, began, now).Ok? {
        UseKeepsInv(r, m, actor, item, target, request, usable, began, clock, now);
      } else {
        RefusedKeepsInv(r, m, clock, now);
      }
    case Ticking(p) => TickKeepsInv(r, m, p, clock, now);
  }

  lemma RefusedKeepsInv(r: Rules, m: Market, clock: Time, now: Time)
    requires Inv(r, m, clock) && clock <= now
    ensures Inv(r, m, now)
  {
    forall q | q in m.people
      ensures AccountOk(r, m, q, now)
    {
      assert AccountOk(r, m, q, clock);
      PersonWaits(r, m.events, q, m.people[q], clock, now);
    }
  }

  // ----- runs ------------------------------------------------------------------------------------------

  datatype Moment = Moment(step: Step, at: Time)

  function Run(r: Rules, m: Market, moments: seq<Moment>): (m': Market)
    requires WellFormed(r, m)
    ensures WellFormed(r, m')
    decreases |moments|
  {
    if moments == [] then m
    else
      var n := |moments| - 1;
      var before := Run(r, m, moments[..n]);
      NextWellFormed(r, before, moments[n].step, moments[n].at);
      Next(r, before, moments[n].step, moments[n].at)
  }

  /** The clock never goes back, though transactions may have begun in any order. */
  ghost predicate Timely(moments: seq<Moment>, start: Time) {
    && (forall i, j :: 0 <= i < j < |moments| ==> moments[i].at <= moments[j].at)
    && (forall i :: 0 <= i < |moments| ==> start <= moments[i].at && Began(moments[i].step, moments[i].at))
  }

  function End(moments: seq<Moment>, start: Time): Time {
    if moments == [] then start else moments[|moments| - 1].at
  }

  /** In every run: blackouts never overlap, at most one shield is up, breaks follow the cap, nothing
      bought is lost, powerup spending matches the purchases, and each request acts at most once. */
  lemma {:induction false} EveryRunKeepsTheRules(r: Rules, m: Market, moments: seq<Moment>, start: Time)
    requires Sensible(r) && Inv(r, m, start) && Timely(moments, start)
    ensures Inv(r, Run(r, m, moments), End(moments, start))
    decreases |moments|
  {
    if moments != [] {
      var n := |moments| - 1;
      EveryRunKeepsTheRules(r, m, moments[..n], start);
      StepKeepsInv(r, Run(r, m, moments[..n]), moments[n].step, End(moments[..n], start), moments[n].at);
    }
  }

  /** In every run with timed breaks, everybody takes exactly the cap's worth of attacks between one break and the
      next, if and only if no attack on them straddled the end of a break. */
  lemma CapHoldsIffNoneStraddled(r: Rules, m: Market, moments: seq<Moment>, start: Time, p: Pid)
    requires Sensible(r) && Inv(r, m, start) && Timely(moments, start) && p in m.people
    requires r.cap > 0 && !r.forever
    ensures p in Run(r, m, moments).people
    ensures var m' := Run(r, m, moments);
            CapKept(r, m'.events, p, m'.people[p].breaks) <==> NoneStraddled(r, m'.events, p, m'.people[p].breaks)
  {
    var m' := Run(r, m, moments);
    RunKeepsPeople(r, m, moments);
    EveryRunKeepsTheRules(r, m, moments, start);
    assert AccountOk(r, m', p, End(moments, start));
    CapKeptIff(r, m'.events, p, m'.people[p].breaks, End(moments, start));
  }

  lemma {:induction false} RunKeepsPeople(r: Rules, m: Market, moments: seq<Moment>)
    requires WellFormed(r, m)
    ensures Run(r, m, moments).people.Keys == m.people.Keys
    decreases |moments|
  {
    if moments != [] {
      var n := |moments| - 1;
      RunKeepsPeople(r, m, moments[..n]);
      NextWellFormed(r, Run(r, m, moments[..n]), moments[n].step, moments[n].at);
    }
  }

  lemma FreshPersonIsOk(r: Rules, who: Pid, p: Person, clock: Time)
    requires |p.shelf| == |r.catalogue| && p.shields == [] && p.blackouts == [] && p.breaks == []
    requires forall i :: 0 <= i < |p.shelf| ==> p.shelf[i] == Holding(0, 0)
    ensures PersonOk(r, [], who, p, clock) && NothingLost(r, [], who, p)
  {
    assert Counted(r, [], who) == [] && Hits([], who) == [];
    assert r.cap > 0 ==> Pattern(r, [], [], []);
  }

  /** A market where nothing has happened yet. */
  lemma FreshMarketIsOk(r: Rules, m: Market, clock: Time)
    requires WellFormed(r, m) && Balanced(m.money) && m.events == []
    requires forall p :: p in m.people ==>
               && m.people[p].shields == [] && m.people[p].blackouts == [] && m.people[p].breaks == []
               && (forall i :: 0 <= i < |m.people[p].shelf| ==> m.people[p].shelf[i] == Holding(0, 0))
               && Net(m.money.lines, p, {PowerupBought}) == 0
    ensures Inv(r, m, clock)
  {
    hide PersonOk;
    hide NothingLost;
    hide Balanced;
    forall p | p in m.people
      ensures AccountOk(r, m, p, clock)
    {
      FreshPersonIsOk(r, p, m.people[p], clock);
    }
  }
}
