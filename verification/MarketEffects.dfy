/** What purchases, attacks and ticks do, told by the rows of the tables alone. */
module MarketEffects {
  import opened Common
  import opened Ledger
  import opened Attacks
  import opened Blackouts
  import opened Shields
  import opened AttackRuns

  // ----- shields, by their columns -------------------------------------------------------------------------

  predicate RowUp(s: Shield, now: Time) {
    s.absorbedAt.None? && (s.endsAt.None? || now < s.endsAt.value)
  }

  predicate AnyUp(p: Person, now: Time) {
    exists i :: 0 <= i < |p.shields| && RowUp(p.shields[i], now)
  }

  /** A shield on the shelf that has a duration, or needs none. */
  predicate Startable(catalogue: seq<Powerup>, p: Person, item: Item) {
    && item < |catalogue| && item < |p.shelf|
    && catalogue[item].kind == ShieldKind && p.shelf[item].quantity > 0
    && catalogue[item].seconds.Some? && (catalogue[item].seconds.value > 0 || catalogue[item].seconds.value == -1)
  }

  predicate AnyStartable(catalogue: seq<Powerup>, p: Person) {
    exists item :: 0 <= item < |catalogue| && Startable(catalogue, p, item)
  }

  ghost predicate Lowest(catalogue: seq<Powerup>, p: Person, item: Item) {
    Startable(catalogue, p, item) && forall other :: 0 <= other < item ==> !Startable(catalogue, p, other)
  }

  /** One shield taken from the shelf and put up at this moment, for as long as its kind lasts. */
  ghost predicate PutUp(catalogue: seq<Powerup>, p: Person, p': Person, item: Item, now: Time) {
    && Startable(catalogue, p, item)
    && p'.shields == p.shields + [Shield(item, now,
         if catalogue[item].seconds.value == -1 then None else Some(now + 1000 * catalogue[item].seconds.value), None)]
    && p'.shelf == p.shelf[item := Holding(p.shelf[item].quantity - 1, p.shelf[item].purchased)]
    && p'.blackouts == p.blackouts && p'.breaks == p.breaks && p'.disqualified == p.disqualified
  }

  lemma UpIff(shields: seq<Shield>, now: Time)
    ensures Up(shields, now).Some? <==> exists i :: 0 <= i < |shields| && RowUp(shields[i], now)
  {
  }

  lemma StartableIff(catalogue: seq<Powerup>, p: Person, item: Item)
    ensures Startable(catalogue, p, item) <==> CanStart(catalogue, p.shelf, item)
  {
  }

  lemma FirstIsLowest(catalogue: seq<Powerup>, p: Person)
    ensures var i := FirstWaiting(catalogue, p.shelf, 0);
            && (i.Some? <==> AnyStartable(catalogue, p))
            && (i.Some? ==> Lowest(catalogue, p, i.value))
  {
    var i := FirstWaiting(catalogue, p.shelf, 0);
    forall item: Item
      ensures Startable(catalogue, p, item) <==> CanStart(catalogue, p.shelf, item)
    {
      StartableIff(catalogue, p, item);
    }
    if i.Some? {
      assert Startable(catalogue, p, i.value);
    }
  }

  /** The tick of a holder: with no shield up and one that can start, the lowest such goes up; otherwise nothing. */
  lemma TickPutsUpIff(r: Rules, m: Market, p: Pid, now: Time)
    requires p in m.people
    ensures var m' := TickShield(r, m, p, now);
            && m' == m.(people := m'.people) && m'.people.Keys == m.people.Keys
            && (forall q :: q in m.people && q != p ==> m'.people[q] == m.people[q])
            && if AnyUp(m.people[p], now) || !AnyStartable(r.catalogue, m.people[p]) then m'.people[p] == m.people[p]
               else exists item: Item :: Lowest(r.catalogue, m.people[p], item)
                                        && PutUp(r.catalogue, m.people[p], m'.people[p], item, now)
  {
    SettledPutsUp(r.catalogue, m.people[p], now);
  }

  lemma SettledPutsUp(catalogue: seq<Powerup>, p: Person, now: Time)
    ensures var p' := Settled(catalogue, p, now);
            if AnyUp(p, now) || !AnyStartable(catalogue, p) then p' == p
            else exists item: Item :: Lowest(catalogue, p, item) && PutUp(catalogue, p, p', item, now)
  {
    UpIff(p.shields, now);
    FirstIsLowest(catalogue, p);
    var i := FirstWaiting(catalogue, p.shelf, 0);
    if !AnyUp(p, now) && i.Some? {
      assert PutUp(catalogue, p, Settled(catalogue, p, now), i.value, now);
    }
  }

  /** Somebody with a shield up, or one to put up. */
  predicate Shielded(catalogue: seq<Powerup>, p: Person, now: Time) {
    AnyUp(p, now) || AnyStartable(catalogue, p)
  }

  lemma AbsorbedIffShielded(catalogue: seq<Powerup>, p: Person, now: Time)
    ensures Absorbed(catalogue, p, now).Some? <==> Shielded(catalogue, p, now)
  {
    AbsorbsIff(catalogue, p, now);
    UpIff(p.shields, now);
    FirstIsLowest(catalogue, p);
    if item: Item :| CanStart(catalogue, p.shelf, item) {
      StartableIff(catalogue, p, item);
    }
    if AnyStartable(catalogue, p) {
      var item :| 0 <= item < |catalogue| && Startable(catalogue, p, item);
      StartableIff(catalogue, p, item);
    }
  }

  // ----- blackouts, by their columns -----------------------------------------------------------------------

  /** The latest end among the blackouts, or this moment when all are over. */
  ghost predicate FreeFrom(bs: seq<Blackout>, now: Time, t: Time) {
    && t >= now
    && (forall i :: 0 <= i < |bs| ==> bs[i].endsAt <= t)
    && (t == now || exists i :: 0 <= i < |bs| && bs[i].endsAt == t)
  }

  lemma {:induction false} FreeFromIs(bs: seq<Blackout>, now: Time)
    ensures FreeFrom(bs, now, FreeAt(bs, now))
  {
    if bs != [] {
      var n := |bs| - 1;
      FreeFromIs(bs[..n], now);
      var before := FreeAt(bs[..n], now);
      if before != now {
        var i :| 0 <= i < n && bs[..n][i].endsAt == before;
        assert bs[i].endsAt == before;
      }
      forall i | 0 <= i < |bs|
        ensures bs[i].endsAt <= FreeAt(bs, now)
      {
        assert i < n ==> bs[i] == bs[..n][i];
      }
      RunningUntilIsLater(bs[..n], now);
    }
  }

  lemma RunningUntilIsLater(bs: seq<Blackout>, now: Time)
    ensures RunningUntil(bs, now).Some? ==> RunningUntil(bs, now).value > now
  {
  }

  /** One more blackout by this attacker, from when the person would have been free, for so many seconds. */
  ghost predicate BlackedOutFor(before: seq<Blackout>, after: seq<Blackout>, attacker: Pid, seconds: int, now: Time) {
    && |after| == |before| + 1 && after[..|before|] == before
    && var b := after[|before|];
       && b.attacker == attacker && b.seconds == seconds && b.endsAt == b.startsAt + 1000 * seconds
       && FreeFrom(before, now, b.startsAt) && (seconds > 0 ==> FreeFrom(after, now, b.startsAt + 1000 * seconds))
  }

  lemma StackedBlacksOut(bs: seq<Blackout>, attacker: Pid, seconds: int, now: Time)
    ensures BlackedOutFor(bs, Stacked(bs, attacker, seconds, now), attacker, seconds, now)
  {
    FreeFromIs(bs, now);
    var after := Stacked(bs, attacker, seconds, now);
    assert after[..|bs|] == bs;
    assert after[|bs|].endsAt == FreeAt(bs, now) + 1000 * seconds;
  }

  // ----- an attack -------------------------------------------------------------------------------------------

  predicate AttackedNow(breaks: seq<Break>, now: Time) {
    exists i :: 0 <= i < |breaks| && (breaks[i].endsAt.None? || now < breaks[i].endsAt.value)
  }

  predicate Seconded(powerup: Powerup) {
    powerup.seconds.Some? && powerup.seconds.value > 0
  }

  predicate RequestSeen(events: seq<Event>, actor: Pid, request: nat) {
    exists i :: 0 <= i < |events| && events[i].actor == actor && events[i].request == request
  }

  predicate Owns(m: Market, actor: Pid, item: Item) {
    actor in m.people && item < |m.people[actor].shelf| && m.people[actor].shelf[item].quantity > 0
  }

  /** What each refusal of an attack tells. */
  predicate AttackRefusedFor(r: Rules, m: Market, actor: Pid, item: Item, target: Option<Pid>, request: nat,
                             usable: bool, now: Time, e: Refusal)
  {
    match e
    case NoSuchPowerup => item >= |r.catalogue|
    case PowerupDisabled => item < |r.catalogue| && !r.catalogue[item].enabled
    case WrongPhase => !usable
    case Passive => item < |r.catalogue| && r.catalogue[item].kind == ShieldKind && Owns(m, actor, item)
    case NotOwned => !Owns(m, actor, item)
    case NoTarget => target.None?
    case OwnGoal => target == Some(actor)
    case NotAParticipant => actor !in m.people
    case Disqualified => actor in m.people && m.people[actor].disqualified
    case TargetUnknown => target.Some? && target.value !in m.people
    case TargetInactive => target.Some? && target.value in m.people && m.people[target.value].disqualified
    case TargetOnBreak =>
      target.Some? && target.value in m.people && AttackedNow(m.people[target.value].breaks, now)
    case NoDuration =>
      && item < |r.catalogue| && !Seconded(r.catalogue[item])
      && target.Some? && target.value in m.people && !Shielded(r.catalogue, m.people[target.value], now)
    case Replayed => RequestSeen(m.events, actor, request)
    case _ => false
  }

  /** Somebody may attack somebody: every condition there is. */
  predicate MayAttack(r: Rules, m: Market, actor: Pid, item: Item, target: Option<Pid>, request: nat, usable: bool,
                      now: Time)
  {
    && item < |r.catalogue| && r.catalogue[item].enabled && usable && r.catalogue[item].kind == BlackoutKind
    && target.Some? && target.value != actor
    && actor in m.people && !m.people[actor].disqualified && Owns(m, actor, item)
    && target.value in m.people && !m.people[target.value].disqualified
    && !AttackedNow(m.people[target.value].breaks, now)
    && (Shielded(r.catalogue, m.people[target.value], now) || Seconded(r.catalogue[item]))
    && !RequestSeen(m.events, actor, request)
  }

  /** An attack goes through if and only if all of that holds. */
  lemma AttackGoesThroughIff(r: Rules, m: Market, actor: Pid, item: Item, target: Option<Pid>, request: nat,
                             usable: bool, began: Time, now: Time)
    requires WellFormed(r, m)
    ensures Use(r, m, actor, item, target, request, usable, began, now).Ok? <==>
              MayAttack(r, m, actor, item, target, request, usable, now)
  {
    if target.Some? && target.value in m.people {
      AbsorbedIffShielded(r.catalogue, m.people[target.value], now);
      BreakIff(m.people[target.value].breaks, now);
    }
    RecordedIff(m.events, actor, request);
    hide Absorbed;
    hide Shielded;
    hide AttackedNow;
    hide OnBreak;
    hide Recorded;
    hide RequestSeen;
    hide Noted;
    hide Stacked;
  }

  lemma EarlyRefusalIsTrue(r: Rules, m: Market, actor: Pid, item: Item, target: Option<Pid>, request: nat, usable: bool,
                           now: Time)
    requires WellFormed(r, m) && CheckUse(r, m, actor, item, target, usable).Some?
    ensures AttackRefusedFor(r, m, actor, item, target, request, usable, now,
                             CheckUse(r, m, actor, item, target, usable).value)
  {
    hide Shielded;
    hide AttackedNow;
    hide RequestSeen;
  }

  /** And a refusal is true of the rows. */
  lemma AttackRefusalIsTrue(r: Rules, m: Market, actor: Pid, item: Item, target: Option<Pid>, request: nat,
                            usable: bool, began: Time, now: Time)
    requires WellFormed(r, m)
    ensures var used := Use(r, m, actor, item, target, request, usable, began, now);
            used.Err? ==> AttackRefusedFor(r, m, actor, item, target, request, usable, now, used.error)
  {
    if CheckUse(r, m, actor, item, target, usable).Some? {
      EarlyRefusalIsTrue(r, m, actor, item, target, request, usable, now);
    } else if target.value in m.people {
      AbsorbedIffShielded(r.catalogue, m.people[target.value], now);
      BreakIff(m.people[target.value].breaks, now);
      RecordedIff(m.events, actor, request);
    }
    hide CheckUse;
    hide Absorbed;
    hide Shielded;
    hide AttackedNow;
    hide OnBreak;
    hide Recorded;
    hide RequestSeen;
    hide Noted;
    hide Stacked;
  }

  lemma BreakIff(breaks: seq<Break>, now: Time)
    ensures OnBreak(breaks, now) <==> AttackedNow(breaks, now)
  {
    if i :| 0 <= i < |breaks| && StillOn(breaks[i], now) {
      assert breaks[i].endsAt.None? || now < breaks[i].endsAt.value;
    }
    if i :| 0 <= i < |breaks| && (breaks[i].endsAt.None? || now < breaks[i].endsAt.value) {
      assert StillOn(breaks[i], now);
    }
  }

  lemma RecordedIff(events: seq<Event>, actor: Pid, request: nat)
    ensures Recorded(events, actor, request) <==> RequestSeen(events, actor, request)
  {
  }

  /** The attacker has one of the powerup less, and is otherwise as before. */
  ghost predicate PaidOne(before: Person, after: Person, item: Item)
    requires item < |before.shelf|
  {
    && after.shelf == before.shelf[item := Holding(before.shelf[item].quantity - 1, before.shelf[item].purchased)]
    && after.disqualified == before.disqualified && after.shields == before.shields
    && after.blackouts == before.blackouts && after.breaks == before.breaks
  }

  /** An attack that goes through: no money moves, the attacker pays one powerup, one event is left, and of the rest
      only the target changes. Without a shield, one blackout by the attacker is added to the target's, from when
      they would have been free, for exactly the powerup's seconds, and they are shut out now. With one, no blackout
      changes. */
  lemma AttackDoes(r: Rules, m: Market, actor: Pid, item: Item, target: Option<Pid>, request: nat, usable: bool,
                   began: Time, now: Time)
    requires WellFormed(r, m) && Use(r, m, actor, item, target, request, usable, began, now).Ok?
    ensures var used := Use(r, m, actor, item, target, request, usable, began, now).value;
            var m', v := used.market, target.value;
            && target.Some? && v != actor && v in m.people && actor in m.people && item < |r.catalogue|
            && m'.people.Keys == m.people.Keys && m'.money == m.money
            && m'.events == m.events + [Event(if used.absorbed then Blocked else Used, item, actor, target, 0, request, began, now)]
            && (used.absorbed <==> Shielded(r.catalogue, m.people[v], now))
            && PaidOne(m.people[actor], m'.people[actor], item)
            && (forall q :: q in m.people && q != actor && q != v ==> m'.people[q] == m.people[q])
            && (used.absorbed ==> m'.people[v].blackouts == m.people[v].blackouts)
            && (!used.absorbed ==>
                  && Seconded(r.catalogue[item])
                  && BlackedOutFor(m.people[v].blackouts, m'.people[v].blackouts, actor, r.catalogue[item].seconds.value, now)
                  && m'.people[v].shields == m.people[v].shields && m'.people[v].shelf == m.people[v].shelf)
            && m'.people[v].disqualified == m.people[v].disqualified
  {
    var v := target.value;
    AttackGoesThroughIff(r, m, actor, item, target, request, usable, began, now);
    AbsorbedIffShielded(r.catalogue, m.people[v], now);
    AbsorbedLeaves(r.catalogue, m.people[v], now);
    StackedBlacksOut(m.people[v].blackouts, actor, OrZero(r.catalogue[item].seconds), now);
    hide Absorbed;
    hide Shielded;
    hide AttackedNow;
    hide OnBreak;
    hide Recorded;
    hide RequestSeen;
    hide Noted;
    hide Stacked;
    hide BlackedOutFor;
  }

  lemma AbsorbedLeaves(catalogue: seq<Powerup>, p: Person, now: Time)
    ensures Absorbed(catalogue, p, now).Some? ==>
              var p' := Absorbed(catalogue, p, now).value;
              p'.blackouts == p.blackouts && p'.breaks == p.breaks && p'.disqualified == p.disqualified
  {
  }

  /** Then the gate is shut at once, and until the very end. */
  lemma BlackedOutIsShut(before: seq<Blackout>, after: seq<Blackout>, attacker: Pid, seconds: int, now: Time)
    requires BlackedOutFor(before, after, attacker, seconds, now) && seconds > 0
    ensures forall t :: now <= t < after[|before|].endsAt ==> BlackedOut(after, t)
    ensures after[|before|].endsAt >= now + 1000 * seconds
  {
    forall t | now <= t < after[|before|].endsAt
      ensures BlackedOut(after, t)
    {
      assert after[|before|].endsAt > t;
    }
  }

  /** The newest shield up is spent at this moment, put up first if none was; and the next goes up behind it. */
  ghost predicate ShieldSpent(catalogue: seq<Powerup>, p: Person, p': Person, now: Time) {
    exists ready: Person, i: nat ::
      && PutUpIfNeeded(catalogue, p, ready, now)
      && i < |ready.shields| && RowUp(ready.shields[i], now)
      && (forall j :: i < j < |ready.shields| ==> !RowUp(ready.shields[j], now))
      && PutUpIfNeeded(catalogue, ready.(shields := SpentAt(ready.shields, i, now)), p', now)
  }

  ghost predicate PutUpIfNeeded(catalogue: seq<Powerup>, p: Person, p': Person, now: Time) {
    if AnyUp(p, now) || !AnyStartable(catalogue, p) then p' == p
    else exists item: Item :: Lowest(catalogue, p, item) && PutUp(catalogue, p, p', item, now)
  }

  function SpentAt(shields: seq<Shield>, i: nat, now: Time): seq<Shield>
    requires i < |shields|
  {
    shields[i := Shield(shields[i].item, shields[i].startsAt, shields[i].endsAt, Some(now))]
  }

  lemma {:induction false} UpIsNewest(shields: seq<Shield>, now: Time)
    requires Up(shields, now).Some?
    ensures var i := Up(shields, now).value;
            RowUp(shields[i], now) && forall j :: i < j < |shields| ==> !RowUp(shields[j], now)
  {
    var n := |shields| - 1;
    if !StillUp(shields[n], now) {
      UpIsNewest(shields[..n], now);
      var i := Up(shields, now).value;
      forall j | i < j < |shields|
        ensures !RowUp(shields[j], now)
      {
        assert j < n ==> shields[j] == shields[..n][j];
      }
    }
  }

  lemma AbsorbedSpends(catalogue: seq<Powerup>, p: Person, now: Time)
    requires Absorbed(catalogue, p, now).Some?
    ensures ShieldSpent(catalogue, p, Absorbed(catalogue, p, now).value, now)
  {
    var ready := Settled(catalogue, p, now);
    SettledPutsUp(catalogue, p, now);
    var up := Up(ready.shields, now).value;
    UpIsNewest(ready.shields, now);
    var spent := ready.(shields := SpentAt(ready.shields, up, now));
    SettledPutsUp(catalogue, spent, now);
    hide Settled;
    hide PutUp;
    hide AnyUp;
    hide AnyStartable;
    assert PutUpIfNeeded(catalogue, p, ready, now);
    assert PutUpIfNeeded(catalogue, spent, Absorbed(catalogue, p, now).value, now);
  }

  /** An absorbed attack spends one of the target's shields, and touches nothing else of theirs but the count of
      attacks. */
  lemma AbsorbedAttackSpends(r: Rules, m: Market, actor: Pid, item: Item, target: Option<Pid>, request: nat, usable: bool,
                             began: Time, now: Time)
    requires WellFormed(r, m) && Use(r, m, actor, item, target, request, usable, began, now).Ok?
    requires Use(r, m, actor, item, target, request, usable, began, now).value.absorbed
    ensures target.Some? && target.value in m.people
    ensures var m' := Use(r, m, actor, item, target, request, usable, began, now).value.market;
            && target.value in m'.people
            && ShieldSpent(r.catalogue, m.people[target.value],
                           m'.people[target.value].(breaks := m.people[target.value].breaks), now)
  {
    AbsorbedSpends(r.catalogue, m.people[target.value], now);
    AbsorbedLeaves(r.catalogue, m.people[target.value], now);
    hide Absorbed;
    hide ShieldSpent;
    hide Noted;
    hide Stacked;
    hide Recorded;
    hide OnBreak;
  }

  // ----- a purchase --------------------------------------------------------------------------------------------

  /** Somebody may buy something: every condition there is. */
  predicate MayBuy(r: Rules, m: Market, p: Pid, item: Item, request: nat, open: bool)
    requires WellFormed(r, m)
  {
    && open && p in m.people && !m.people[p].disqualified && item < |r.catalogue| && r.catalogue[item].enabled
    && r.catalogue[item].price <= m.money.balance[p]
    && (r.catalogue[item].maxHeld.Some? ==> m.people[p].shelf[item].quantity < r.catalogue[item].maxHeld.value)
    && (r.catalogue[item].maxPurchases.Some? ==>
          m.people[p].shelf[item].purchased < r.catalogue[item].maxPurchases.value)
    && !RequestSeen(m.events, p, request)
  }

  /** What each refusal of a purchase tells. */
  predicate PurchaseRefusedFor(r: Rules, m: Market, p: Pid, item: Item, request: nat, open: bool, e: Refusal)
    requires WellFormed(r, m)
  {
    match e
    case MarketplaceClosed => !open
    case NotAParticipant => p !in m.people
    case Disqualified => p in m.people && m.people[p].disqualified
    case NoSuchPowerup => item >= |r.catalogue|
    case PowerupDisabled => item < |r.catalogue| && !r.catalogue[item].enabled
    case TooPoor => p in m.people && item < |r.catalogue| && m.money.balance[p] < r.catalogue[item].price
    case HoldLimit =>
      && p in m.people && item < |r.catalogue| && r.catalogue[item].maxHeld.Some?
      && m.people[p].shelf[item].quantity >= r.catalogue[item].maxHeld.value
    case PurchaseLimit =>
      && p in m.people && item < |r.catalogue| && r.catalogue[item].maxPurchases.Some?
      && m.people[p].shelf[item].purchased >= r.catalogue[item].maxPurchases.value
    case Replayed => RequestSeen(m.events, p, request)
    case _ => false
  }

  lemma PurchaseGoesThroughIff(r: Rules, m: Market, p: Pid, item: Item, request: nat, open: bool, began: Time, now: Time)
    requires WellFormed(r, m)
    ensures var bought := Buy(r, m, p, item, request, open, began, now);
            && (bought.Ok? <==> MayBuy(r, m, p, item, request, open))
            && (bought.Err? ==> PurchaseRefusedFor(r, m, p, item, request, open, bought.error))
  {
    RecordedIff(m.events, p, request);
    hide Settled;
    hide Recorded;
    hide RequestSeen;
  }

  /** A purchase that goes through: exactly its price is paid, with its ledger line, one more is on the shelf and on
      the count, one event is left, and nobody else changes. A shield goes up at once if none is up. */
  lemma PurchaseDoes(r: Rules, m: Market, p: Pid, item: Item, request: nat, open: bool, began: Time, now: Time)
    requires WellFormed(r, m) && Buy(r, m, p, item, request, open, began, now).Ok?
    ensures var m' := Buy(r, m, p, item, request, open, began, now).value;
            && p in m.people && item < |r.catalogue| && m'.people.Keys == m.people.Keys
            && (forall q :: q in m.people && q != p ==> m'.people[q] == m.people[q])
    ensures var m', price := Buy(r, m, p, item, request, open, began, now).value, r.catalogue[item].price;
            && m'.money.balance == m.money.balance[p := m.money.balance[p] - price]
            && m'.money.lines == m.money.lines + [Entry(p, 0 - price, m.money.balance[p] - price, PowerupBought)]
            && m'.events == m.events + [Event(Purchase, item, p, None, price, request, began, now)]
            && var held := m.people[p].shelf[item];
               var stocked := m.people[p].(shelf := m.people[p].shelf[item := Holding(held.quantity + 1, held.purchased + 1)]);
               if r.catalogue[item].kind == ShieldKind then PutUpIfNeeded(r.catalogue, stocked, m'.people[p], now)
               else m'.people[p] == stocked
  {
    SettledPutsUp(r.catalogue, m.people[p].(shelf := AddOne(m.people[p].shelf, item)), now);
    hide Settled;
    hide PutUp;
    hide AnyUp;
    hide AnyStartable;
    hide Recorded;
  }

  // ----- runs ---------------------------------------------------------------------------------------------------

  /** Who struck with how many seconds, by the blackouts. */
  function Struck(bs: seq<Blackout>): seq<(Pid, int)> {
    if bs == [] then []
    else
      var n := |bs| - 1;
      Struck(bs[..n]) + [(bs[n].attacker, bs[n].seconds)]
  }

  /** The same by the events: every attack on the person that was not absorbed. */
  function StruckBy(r: Rules, events: seq<Event>, target: Pid): seq<(Pid, int)> {
    if events == [] then []
    else
      var n := |events| - 1;
      var e := events[n];
      StruckBy(r, events[..n], target)
      + if e.deed == Used && e.target == Some(target)
        then [(e.actor, if e.item < |r.catalogue| then OrZero(r.catalogue[e.item].seconds) else 0)] else []
  }

  /** A person's blackouts are the attacks that landed on them: by whom, for how long, in order. */
  ghost predicate AllStruck(r: Rules, m: Market) {
    forall p {:trigger m.people[p]} :: p in m.people ==> Struck(m.people[p].blackouts) == StruckBy(r, m.events, p)
  }

  lemma StruckAppend(bs: seq<Blackout>, after: seq<Blackout>, attacker: Pid, seconds: int, now: Time)
    requires BlackedOutFor(bs, after, attacker, seconds, now)
    ensures Struck(after) == Struck(bs) + [(attacker, seconds)]
  {
  }

  lemma StruckByAppend(r: Rules, events: seq<Event>, e: Event, target: Pid)
    ensures StruckBy(r, events + [e], target)
         == StruckBy(r, events, target)
            + if e.deed == Used && e.target == Some(target)
              then [(e.actor, if e.item < |r.catalogue| then OrZero(r.catalogue[e.item].seconds) else 0)] else []
  {
    assert (events + [e])[..|events|] == events;
  }

  lemma AttackKeepsStruck(r: Rules, m: Market, actor: Pid, item: Item, target: Option<Pid>, request: nat, usable: bool,
                          began: Time, now: Time)
    requires WellFormed(r, m) && AllStruck(r, m) && Use(r, m, actor, item, target, request, usable, began, now).Ok?
    ensures AllStruck(r, Use(r, m, actor, item, target, request, usable, began, now).value.market)
  {
    var used := Use(r, m, actor, item, target, request, usable, began, now).value;
    AttackDoes(r, m, actor, item, target, request, usable, began, now);
    hide Use;
    hide Shielded;
    var v := target.value;
    forall p | p in used.market.people
      ensures Struck(used.market.people[p].blackouts) == StruckBy(r, used.market.events, p)
    {
      StruckByAppend(r, m.events, used.market.events[|m.events|], p);
      if p == v && !used.absorbed {
        StruckAppend(m.people[v].blackouts, used.market.people[v].blackouts, actor, r.catalogue[item].seconds.value, now);
      }
      hide BlackedOutFor;
      hide Struck;
      hide StruckBy;
    }
  }

  lemma BuyKeepsStruck(r: Rules, m: Market, p: Pid, item: Item, request: nat, open: bool, began: Time, now: Time)
    requires WellFormed(r, m) && AllStruck(r, m) && Buy(r, m, p, item, request, open, began, now).Ok?
    ensures AllStruck(r, Buy(r, m, p, item, request, open, began, now).value)
  {
    var m' := Buy(r, m, p, item, request, open, began, now).value;
    PurchaseDoes(r, m, p, item, request, open, began, now);
    hide Buy;
    forall q | q in m'.people
      ensures Struck(m'.people[q].blackouts) == StruckBy(r, m'.events, q)
    {
      StruckByAppend(r, m.events, m'.events[|m.events|], q);
      assert m'.people[q].blackouts == m.people[q].blackouts;
      hide Struck;
      hide StruckBy;
    }
  }

  lemma StepKeepsStruck(r: Rules, m: Market, step: Step, now: Time)
    requires WellFormed(r, m) && AllStruck(r, m)
    ensures AllStruck(r, Next(r, m, step, now))
  {
    match step
    case Buying(p, item, request, isOpen, began) =>
      if Buy(r, m, p, item, request, isOpen, began, now).Ok? {
        BuyKeepsStruck(r, m, p, item, request, isOpen, began, now);
      }
    case Attacking(actor, item, target, request, usable, began) =>
      if Use(r, m, actor, item, target, request, usable, began, now).Ok? {
        AttackKeepsStruck(r, m, actor, item, target, request, usable, began, now);
      }
    case Ticking(p) =>
      if p in m.people {
        TickPutsUpIff(r, m, p, now);
      }
  }

  /** In every run: the blackouts on a person are exactly the attacks that landed on them, each by its attacker, for
      its powerup's seconds, in order. */
  lemma {:induction false} BlackoutsAreTheAttacks(r: Rules, m: Market, moments: seq<Moment>)
    requires WellFormed(r, m) && AllStruck(r, m)
    ensures AllStruck(r, Run(r, m, moments))
    decreases |moments|
  {
    if moments != [] {
      hide AllStruck;
      var n := |moments| - 1;
      BlackoutsAreTheAttacks(r, m, moments[..n]);
      StepKeepsStruck(r, Run(r, m, moments[..n]), moments[n].step, moments[n].at);
    }
  }

  function SecondsOf(strikes: seq<(Pid, int)>): int {
    if strikes == [] then 0 else SecondsOf(strikes[..|strikes| - 1]) + strikes[|strikes| - 1].1
  }

  /** So their seconds add up to those of the attacks. */
  lemma SecondsAddUp(r: Rules, m: Market, moments: seq<Moment>, p: Pid)
    requires WellFormed(r, m) && AllStruck(r, m) && p in Run(r, m, moments).people
    ensures var m' := Run(r, m, moments);
            SecondsOf(Struck(m'.people[p].blackouts)) == SecondsOf(StruckBy(r, m'.events, p))
  {
    BlackoutsAreTheAttacks(r, m, moments);
  }
}
