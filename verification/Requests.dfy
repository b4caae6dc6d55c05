/** What the request id buys, and what a stock of shields buys, over whole runs. */
module Requests {
  import opened Common
  import opened Ledger
  import opened Attacks
  import opened Breaks
  import opened Shields
  import opened AttackRuns

  // ----- replays ------------------------------------------------------------------------------

  /** A request that acted once never acts again, as a purchase or as an attack: the copy is refused or
      answered as a replay, and the market stays as it was. */
  lemma RequestsActOnce(r: Rules, m: Market, actor: Pid, request: nat, item: Item, target: Option<Pid>, on: bool,
                        began: Time, now: Time)
    requires WellFormed(r, m) && Recorded(m.events, actor, request)
    ensures Next(r, m, Buying(actor, item, request, on, began), now) == m
    ensures Next(r, m, Attacking(actor, item, target, request, on, began), now) == m
  {
  }

  /** A copy of a purchase is answered from the first exactly when it would pass every check again. */
  lemma ReplayAnsweredIff(r: Rules, m: Market, p: Pid, item: Item, request: nat, isOpen: bool, began: Time, now: Time)
    requires WellFormed(r, m) && Recorded(m.events, p, request)
    ensures Buy(r, m, p, item, request, isOpen, began, now) == Err(Replayed) <==> CheckBuy(r, m, p, item, isOpen).None?
  {
  }

  /** A copy of an attack is answered from the first exactly when it would get through every check again, the
      target's included. */
  lemma AttackReplayAnsweredIff(r: Rules, m: Market, actor: Pid, item: Item, target: Option<Pid>, request: nat,
                                usable: bool, began: Time, now: Time)
    requires WellFormed(r, m) && Recorded(m.events, actor, request)
    ensures Use(r, m, actor, item, target, request, usable, began, now) == Err(Replayed) <==>
              && CheckUse(r, m, actor, item, target, usable).None?
              && target.value in m.people
              && Land(r, m.events, item, actor, target.value, m.people[target.value], now).Ok?
  {
  }

  /** So a retry by somebody who used up their last powerup on the first copy is told they own none. */
  lemma RetryAfterLastUseIsRefused(r: Rules, m: Market, actor: Pid, item: Item, target: Option<Pid>, request: nat,
                                   began: Time, at: Time, begun: Time, later: Time)
    requires WellFormed(r, m) && Use(r, m, actor, item, target, request, true, began, at).Ok?
    requires m.people[actor].shelf[item].quantity == 1
    ensures var m' := Use(r, m, actor, item, target, request, true, began, at).value.market;
            && WellFormed(r, m') && Recorded(m'.events, actor, request)
            && Use(r, m', actor, item, target, request, true, begun, later) == Err(NotOwned)
  {
    var m' := Use(r, m, actor, item, target, request, true, began, at).value.market;
    UseExtends(r, m, actor, item, target, request, true, began, at);
    assert m'.events[|m.events|].actor == actor;
  }

  /** So a retry by somebody who spent their last coin on the first copy is told they are too poor. */
  lemma RetryAfterSpendingAllIsRefused(r: Rules, m: Market, p: Pid, item: Item, request: nat, began: Time, at: Time,
                                      begun: Time, later: Time)
    requires WellFormed(r, m) && Buy(r, m, p, item, request, true, began, at).Ok?
    requires r.catalogue[item].price == m.money.balance[p] > 0
    ensures var m' := Buy(r, m, p, item, request, true, began, at).value;
            && WellFormed(r, m') && Recorded(m'.events, p, request)
            && Buy(r, m', p, item, request, true, begun, later) == Err(TooPoor)
  {
    var m' := Buy(r, m, p, item, request, true, began, at).value;
    BuyExtends(r, m, p, item, request, true, began, at);
    assert m'.events[|m.events|].actor == p;
  }

  /** A purchase retried as soon as it has gone through: the copy is answered from it if and only if the shop is open
      and the buyer could pay as much again, hold one more and buy one more. */
  lemma PurchaseRetriedIff(r: Rules, m: Market, p: Pid, item: Item, request: nat, isOpen: bool, began: Time, at: Time,
                           stillOpen: bool, begun: Time, later: Time)
    requires WellFormed(r, m) && Buy(r, m, p, item, request, isOpen, began, at).Ok?
    ensures var m' := Buy(r, m, p, item, request, isOpen, began, at).value;
            && WellFormed(r, m') && Recorded(m'.events, p, request)
            && (Buy(r, m', p, item, request, stillOpen, begun, later) == Err(Replayed) <==>
                  && stillOpen
                  && m.money.balance[p] >= 2 * r.catalogue[item].price
                  && (r.catalogue[item].maxHeld.Some? ==>
                        m'.people[p].shelf[item].quantity < r.catalogue[item].maxHeld.value)
                  && (r.catalogue[item].maxPurchases.Some? ==>
                        m.people[p].shelf[item].purchased + 1 < r.catalogue[item].maxPurchases.value))
            && Next(r, m', Buying(p, item, request, stillOpen, begun), later) == m'
  {
    var m' := Buy(r, m, p, item, request, isOpen, began, at).value;
    BuyExtends(r, m, p, item, request, isOpen, began, at);
    assert m'.events[|m.events|].actor == p;
    ReplayAnsweredIff(r, m', p, item, request, stillOpen, begun, later);
    BoughtOnce(r, m, p, item, request, isOpen, began, at);
    hide Buy;
    hide Recorded;
  }

  /** What a purchase leaves the buyer with. */
  lemma BoughtOnce(r: Rules, m: Market, p: Pid, item: Item, request: nat, isOpen: bool, began: Time, at: Time)
    requires WellFormed(r, m) && Buy(r, m, p, item, request, isOpen, began, at).Ok?
    ensures var m' := Buy(r, m, p, item, request, isOpen, began, at).value;
            && p in m.people && item < |r.catalogue| && r.catalogue[item].enabled && !m.people[p].disqualified
            && p in m'.people && !m'.people[p].disqualified && |m'.people[p].shelf| == |r.catalogue|
            && m'.money.balance.Keys == m.money.balance.Keys
            && m'.money.balance[p] == m.money.balance[p] - r.catalogue[item].price
            && m'.people[p].shelf[item].purchased == m.people[p].shelf[item].purchased + 1
  {
  }

  /** An attack retried as soon as it has gone through: the copy is answered from it if and only if powerups may be
      used, another is left, the first did not start a break that still lasts, and there is a shield to take it or
      a duration to land with. */
  lemma AttackRetriedIff(r: Rules, m: Market, actor: Pid, item: Item, target: Option<Pid>, request: nat, usable: bool,
                         began: Time, at: Time, stillUsable: bool, begun: Time, later: Time)
    requires WellFormed(r, m) && Use(r, m, actor, item, target, request, usable, began, at).Ok?
    ensures var m' := Use(r, m, actor, item, target, request, usable, began, at).value.market;
            && WellFormed(r, m') && Recorded(m'.events, actor, request) && target.value in m'.people
            && (Use(r, m', actor, item, target, request, stillUsable, begun, later) == Err(Replayed) <==>
                  && stillUsable
                  && m.people[actor].shelf[item].quantity >= 2
                  && !OnBreak(m'.people[target.value].breaks, later)
                  && (Absorbed(r.catalogue, m'.people[target.value], later).Some? || OrZero(r.catalogue[item].seconds) > 0))
            && Next(r, m', Attacking(actor, item, target, request, stillUsable, begun), later) == m'
  {
    var m' := Use(r, m, actor, item, target, request, usable, began, at).value.market;
    UseExtends(r, m, actor, item, target, request, usable, began, at);
    assert m'.events[|m.events|].actor == actor;
    AttackReplayAnsweredIff(r, m', actor, item, target, request, stillUsable, begun, later);
    UsedOnce(r, m, actor, item, target, request, usable, began, at);
    hide Use;
    hide Recorded;
    hide Absorbed;
    hide OnBreak;
    hide Noted;
    hide Stacked;
  }

  /** What an attack leaves both sides with. */
  lemma UsedOnce(r: Rules, m: Market, actor: Pid, item: Item, target: Option<Pid>, request: nat, usable: bool,
                 began: Time, at: Time)
    requires WellFormed(r, m) && Use(r, m, actor, item, target, request, usable, began, at).Ok?
    ensures var m' := Use(r, m, actor, item, target, request, usable, began, at).value.market;
            && target.Some? && target.value != actor && target.value in m'.people && actor in m'.people
            && item < |r.catalogue| && r.catalogue[item].enabled && r.catalogue[item].kind != ShieldKind
            && !m'.people[actor].disqualified && !m'.people[target.value].disqualified
            && |m'.people[actor].shelf| == |m.people[actor].shelf| == |r.catalogue|
            && m'.people[actor].shelf[item].quantity == m.people[actor].shelf[item].quantity - 1
  {
    hide Noted;
    hide Stacked;
    hide FirstWaiting;
    hide CanStart;
  }

  // ----- k shields absorb exactly the next k attacks ---------------------------------------------

  /** The outcomes of the attacks on one person, in order: absorbed or landed. */
  function OutcomesOn(events: seq<Event>, target: Pid): seq<Deed> {
    if events == [] then []
    else
      var n := |events| - 1;
      OutcomesOn(events[..n], target) + if IsAttackOn(events[n], target) then [events[n].deed] else []
  }

  lemma OutcomesAppend(events: seq<Event>, e: Event, target: Pid)
    ensures OutcomesOn(events + [e], target)
         == OutcomesOn(events, target) + if IsAttackOn(e, target) then [e.deed] else []
  {
    assert (events + [e])[..|events|] == events;
  }

  /** What one holder has left, and that nothing in it has a time limit. */
  ghost predicate Holds(r: Rules, m: Market, p: Pid, stock: nat, now: Time)
    requires p in m.people
  {
    Untimed(r.catalogue, m.people[p], now) && Stock(r.catalogue, m.people[p], now) == stock
  }

  lemma {:induction false} BlackoutsAreNotStock(catalogue: seq<Powerup>, shelf: seq<Holding>, item: Item, n: nat)
    requires item < |shelf| && item < |catalogue| && catalogue[item].kind == BlackoutKind
    ensures Waiting(catalogue, TakeOne(shelf, item), n) == Waiting(catalogue, shelf, n)
  {
    if n > 0 {
      BlackoutsAreNotStock(catalogue, shelf, item, n - 1);
    }
  }

  lemma AttackerKeepsStock(r: Rules, p: Person, item: Item, stock: nat, now: Time)
    requires item < |p.shelf| && item < |r.catalogue| && r.catalogue[item].kind == BlackoutKind
    requires Untimed(r.catalogue, p, now)
    ensures var p' := p.(shelf := TakeOne(p.shelf, item));
            Untimed(r.catalogue, p', now) && Stock(r.catalogue, p', now) == Stock(r.catalogue, p, now)
  {
    var p' := p.(shelf := TakeOne(p.shelf, item));
    BlackoutsAreNotStock(r.catalogue, p.shelf, item, |r.catalogue|);
    assert forall i: Item :: CanStart(r.catalogue, p'.shelf, i) ==> CanStart(r.catalogue, p.shelf, i);
  }

  /** What one attack does to its target's stock. */
  lemma LandingStock(r: Rules, events: seq<Event>, item: Item, attacker: Pid, target: Pid, victim: Person,
                     stock: nat, clock: Time, now: Time)
    requires item < |r.catalogue| && OneAtATime(victim.shields, clock) && clock <= now
    requires Untimed(r.catalogue, victim, now) && Stock(r.catalogue, victim, now) == stock
    requires Land(r, events, item, attacker, target, victim, now).Ok?
    ensures var landing := Land(r, events, item, attacker, target, victim, now).value;
            && (landing.absorbed <==> stock > 0)
            && Untimed(r.catalogue, landing.victim, now)
            && Stock(r.catalogue, landing.victim, now) == if stock > 0 then stock - 1 else 0
  {
    AbsorbSpendsOne(r.catalogue, victim, clock, now);
    if Absorbed(r.catalogue, victim, now).Some? {
      AbsorbedKeepsUntimed(r.catalogue, victim, clock, now);
    }
  }

  predicate NoPurchaseBy(step: Step, p: Pid) {
    step.Buying? ==> step.who != p
  }

  /** What a step owes one holder: no attack on them and the same stock, or one attack and one shield less. */
  ghost predicate Spends(r: Rules, m: Market, m': Market, p: Pid, stock: nat, now: Time) {
    && p in m'.people
    && var before, after := OutcomesOn(m.events, p), OutcomesOn(m'.events, p);
       if |after| == |before| then after == before && Holds(r, m', p, stock, now)
       else after == before + [if stock > 0 then Blocked else Used]
            && Holds(r, m', p, if stock > 0 then stock - 1 else 0, now)
  }

  lemma AttackSpendsStock(r: Rules, m: Market, actor: Pid, item: Item, target: Option<Pid>, request: nat, usable: bool, began: Time,
                          p: Pid, stock: nat, clock: Time, now: Time)
    requires WellFormed(r, m) && p in m.people && OneAtATime(m.people[p].shields, clock) && clock <= now
    requires Holds(r, m, p, stock, now)
    requires Use(r, m, actor, item, target, request, usable, began, now).Ok?
    ensures Spends(r, m, Use(r, m, actor, item, target, request, usable, began, now).value.market, p, stock, now)
  {
    var m' := Use(r, m, actor, item, target, request, usable, began, now).value.market;
    OutcomesAppend(m.events, m'.events[|m.events|], p);
    if target == Some(p) {
      LandingStock(r, m.events, item, actor, p, m.people[p], stock, clock, now);
    } else if actor == p {
      AttackerKeepsStock(r, m.people[p], item, stock, now);
    }
  }

  lemma StepSpendsStock(r: Rules, m: Market, step: Step, p: Pid, stock: nat, clock: Time, now: Time)
    requires Inv(r, m, clock) && clock <= now && p in m.people && NoPurchaseBy(step, p)
    requires Holds(r, m, p, stock, clock)
    ensures Spends(r, m, Next(r, m, step, now), p, stock, now)
  {
    assert AccountOk(r, m, p, clock);
    UntimedStockKeeps(r.catalogue, m.people[p], clock, now);
    match step
    case Buying(who, item, request, isOpen, began) =>
      if Buy(r, m, who, item, request, isOpen, began, now).Ok? {
        OutcomesAppend(m.events, Next(r, m, step, now).events[|m.events|], p);
      }
    case Attacking(actor, item, target, request, usable, began) =>
      if Use(r, m, actor, item, target, request, usable, began, now).Ok? {
        AttackSpendsStock(r, m, actor, item, target, request, usable, began, p, stock, clock, now);
      }
    case Ticking(who) =>
      SettledKeepsStock(r.catalogue, m.people[p], now);
      SettledKeepsUntimed(r.catalogue, m.people[p], now);
  }

  /** Of the attacks made between the two, the first `k` were absorbed and no other. */
  ghost predicate FirstAbsorbed(before: seq<Deed>, after: seq<Deed>, k: nat) {
    && |before| <= |after| && after[..|before|] == before
    && forall i :: |before| <= i < |after| ==> (after[i] == Blocked <==> i - |before| < k)
  }

  function Unspent(before: seq<Deed>, after: seq<Deed>, k: nat): nat
    requires |before| <= |after|
  {
    if |after| - |before| < k then k - (|after| - |before|) else 0
  }

  lemma OneMoreAttack(before: seq<Deed>, middle: seq<Deed>, deed: Deed, k: nat)
    requires FirstAbsorbed(before, middle, k)
    requires deed == if Unspent(before, middle, k) > 0 then Blocked else Used
    ensures FirstAbsorbed(before, middle + [deed], k)
    ensures Unspent(before, middle + [deed], k)
         == if Unspent(before, middle, k) > 0 then Unspent(before, middle, k) - 1 else 0
  {
    var after := middle + [deed];
    assert after[..|before|] == middle[..|before|];
    forall i | |before| <= i < |after|
      ensures after[i] == Blocked <==> i - |before| < k
    {
      if i < |middle| {
        assert after[i] == middle[i];
      } else {
        assert after[i] == deed;
      }
    }
  }

  lemma OneMoreStep(r: Rules, m: Market, middle: Market, m': Market, p: Pid, k: nat, now: Time)
    requires FirstAbsorbed(OutcomesOn(m.events, p), OutcomesOn(middle.events, p), k)
    requires Spends(r, middle, m', p, Unspent(OutcomesOn(m.events, p), OutcomesOn(middle.events, p), k), now)
    ensures var before, after := OutcomesOn(m.events, p), OutcomesOn(m'.events, p);
            && FirstAbsorbed(before, after, k)
            && p in m'.people && Holds(r, m', p, Unspent(before, after, k), now)
  {
    hide Holds;
    hide OutcomesOn;
    var before, mid, after := OutcomesOn(m.events, p), OutcomesOn(middle.events, p), OutcomesOn(m'.events, p);
    if |after| != |mid| {
      OneMoreAttack(before, mid, if Unspent(before, mid, k) > 0 then Blocked else Used, k);
    }
  }

  /** A holder of k until-absorbed shields, up or waiting, who buys no more, absorbs exactly the next k
      attacks that get through to them, whoever sends them and whatever else happens in between. */
  lemma {:induction false} KShieldsAbsorbTheNextK(r: Rules, m: Market, moments: seq<Moment>, start: Time, p: Pid, k: nat)
    requires Sensible(r) && Inv(r, m, start) && Timely(moments, start)
    requires p in m.people && Holds(r, m, p, k, start)
    requires forall e :: e in moments ==> NoPurchaseBy(e.step, p)
    ensures var m' := Run(r, m, moments);
            var before, after := OutcomesOn(m.events, p), OutcomesOn(m'.events, p);
            && FirstAbsorbed(before, after, k)
            && p in m'.people && Holds(r, m', p, Unspent(before, after, k), End(moments, start))
    decreases |moments|
  {
    if moments != [] {
      hide Holds;
      hide OutcomesOn;
      hide FirstAbsorbed;
      hide Unspent;
      hide AccountOk;
      hide Spends;
      var n := |moments| - 1;
      KShieldsAbsorbTheNextK(r, m, moments[..n], start, p, k);
      EveryRunKeepsTheRules(r, m, moments[..n], start);
      var middle := Run(r, m, moments[..n]);
      var stock := Unspent(OutcomesOn(m.events, p), OutcomesOn(middle.events, p), k);
      StepSpendsStock(r, middle, moments[n].step, p, stock, End(moments[..n], start), moments[n].at);
      OneMoreStep(r, m, middle, Run(r, m, moments), p, k, moments[n].at);
    }
  }
}
