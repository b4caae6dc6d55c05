/** The marketplace tables, and the transactions on them, as the engine carries them out. */
module Arena {
  import opened Common
  import opened Ledger
  import opened Attacks

  class ArenaTables {
    const rules: Rules
    const wallet: Wallet
    var people: map<Pid, Person>
    var events: seq<Event>

    function View(): Market
      reads this, wallet
    {
      Market(wallet.View(), people, events)
    }

    predicate Valid()
      reads this, wallet
    {
      WellFormed(rules, View())
    }

    constructor (rules: Rules, wallet: Wallet)
      ensures Valid() && this.rules == rules && this.wallet == wallet
      ensures events == [] && people.Keys == wallet.balance.Keys
      ensures forall p :: p in people ==>
                people[p] == Person(false, seq(|rules.catalogue|, i => Holding(0, 0)), [], [], [])
    {
      this.rules, this.wallet := rules, wallet;
      people := map p | p in wallet.balance :: Person(false, seq(|rules.catalogue|, i => Holding(0, 0)), [], [], []);
      events := [];
    }

    // ----- the shield queue ---------------------------------------------------------------------

    /** The first shield of the catalogue that is held and can start. */
    method NextQueued(p: Pid) returns (queued: Option<Item>)
      requires Valid() && p in people
      ensures queued == FirstWaiting(rules.catalogue, people[p].shelf, 0)
    {
      var item := 0;
      while item < |rules.catalogue|
        invariant 0 <= item <= |rules.catalogue|
        invariant FirstWaiting(rules.catalogue, people[p].shelf, 0) == FirstWaiting(rules.catalogue, people[p].shelf, item)
      {
        var waiting := rules.catalogue[item];
        var seconds := OrZero(waiting.seconds);
        if waiting.kind == ShieldKind && people[p].shelf[item].quantity > 0 && (seconds > 0 || seconds == UNTIL_ABSORBED) {
          return Some(item);
        }
        item := item + 1;
      }
      queued := None;
    }

    /** Leaves the holder with a shield up whenever they have one that can start; `up` is where it is. */
    method SettleShield(p: Pid, now: Time) returns (up: Option<nat>)
      requires Valid() && p in people
      modifies this`people
      ensures Valid() && people == old(people)[p := Settled(rules.catalogue, old(people)[p], now)]
      ensures up == Up(people[p].shields, now)
    {
      up := Up(people[p].shields, now);
      if up.Some? {
        return;
      }
      var queued := NextQueued(p);
      if queued.None? {
        return;
      }
      var item := queued.value;
      var seconds := OrZero(rules.catalogue[item].seconds);
      var held := people[p].shelf[item];
      var shelf := people[p].shelf[item := held.(quantity := held.quantity - 1)];
      var endsAt := if seconds == UNTIL_ABSORBED then None else Some(now + seconds * SECOND);
      people := people[p := people[p].(shelf := shelf, shields := people[p].shields + [Shield(item, now, endsAt, None)])];
      up := Some(|people[p].shields| - 1);
    }

    /** Uses up one shield for one attack. Afterwards no shield that could start is left unstarted. */
    method Absorb(p: Pid, now: Time) returns (spent: bool)
      requires Valid() && p in people
      modifies this`people
      ensures Valid() && spent == Absorbed(rules.catalogue, old(people)[p], now).Some?
      ensures people == old(people)[p := if spent then Absorbed(rules.catalogue, old(people)[p], now).value
                                         else Settled(rules.catalogue, old(people)[p], now)]
    {
      hide Settled;
      var up := SettleShield(p, now);
      if up.None? {
        return false;
      }
      var shields := people[p].shields;
      people := people[p := people[p].(shields := shields[up.value := shields[up.value].(absorbedAt := Some(now))])];
      var _ := SettleShield(p, now);
      spent := true;
    }

    // ----- the cap ----------------------------------------------------------------------------------

    /** The breaks a person has once one more attack on them is taken into account. */
    method NoteAttack(p: Pid, absorbed: bool, now: Time)
      requires Valid() && p in people
      modifies this`people
      ensures Valid()
      ensures people == old(people)[p := old(people)[p].(
                breaks := Noted(rules, events, p, old(people)[p].breaks, absorbed, now))]
    {
      if rules.cap <= 0 || (absorbed && !rules.countAbsorbed) {
        return;
      }
      var breaks := people[p].breaks;
      var since := None;
      var number := 1;
      if breaks != [] {
        var last := LastBreak(breaks);
        since, number := last.endsAt, last.number + 1;
      }
      var earlier := CountSince(rules, events, p, since);
      if earlier + 1 < rules.cap {
        return;
      }
      var seconds := if rules.forever || number < 1 then 0 else Doubled(rules.breakSeconds, number - 1);
      var endsAt := if rules.forever then None else Some(now + seconds * SECOND);
      people := people[p := people[p].(breaks := breaks + [Break(number, seconds, now, endsAt)])];
    }

    // ----- blackouts ---------------------------------------------------------------------------------

    /** Adds a blackout that begins when the running ones are over, or at once if there are none. */
    method AppendBlackout(p: Pid, attacker: Pid, seconds: int, now: Time)
      requires Valid() && p in people
      modifies this`people
      ensures Valid()
      ensures people == old(people)[p := old(people)[p].(
                blackouts := Stacked(old(people)[p].blackouts, attacker, seconds, now))]
    {
      var until := RunningUntil(people[p].blackouts, now);
      var startsAt := now;
      if until.Some? {
        startsAt := until.value;
      }
      var row := Blackout(attacker, seconds, startsAt, startsAt + seconds * SECOND);
      people := people[p := people[p].(blackouts := people[p].blackouts + [row])];
    }

    /** Carries an attack through on its target, or says why not. */
    method LandBlackout(item: Item, actor: Pid, target: Pid, now: Time) returns (r: Result<bool, Refusal>)
      requires Valid() && target in people && item < |rules.catalogue|
      modifies this`people
      ensures Valid()
      ensures match Land(rules, events, item, actor, target, old(people)[target], now)
              case Ok(landing) => r == Ok(landing.absorbed) && people == old(people)[target := landing.victim]
              case Err(e) => r == Err(e)
    {
      hide Settled;
      hide Absorbed;
      hide Noted;
      hide Stacked;
      hide OnBreak;
      hide Valid;
      if people[target].disqualified {
        return Err(TargetInactive);
      }
      if OnBreak(people[target].breaks, now) {
        return Err(TargetOnBreak);
      }
      AbsorbedLeavesTheRest(rules.catalogue, people[target], now);
      var spent := Absorb(target, now);
      if spent {
        NoteAttack(target, true, now);
        return Ok(true);
      }
      var seconds := OrZero(rules.catalogue[item].seconds);
      if seconds <= 0 {
        return Err(NoDuration);
      }
      Strike(target, actor, seconds, now);
      r := Ok(false);
    }

    /** The target has no shield: a blackout is added and the attack is counted. */
    method Strike(target: Pid, actor: Pid, seconds: int, now: Time)
      requires Valid() && target in people
      modifies this`people
      ensures Valid()
      ensures people == old(people)[target := old(people)[target].(
                blackouts := Stacked(old(people)[target].blackouts, actor, seconds, now),
                breaks := Noted(rules, events, target, old(people)[target].breaks, false, now))]
    {
      hide Noted;
      hide Stacked;
      AppendBlackout(target, actor, seconds, now);
      NoteAttack(target, false, now);
    }

    // ----- the two requests ---------------------------------------------------------------------------

    method Use(actor: Pid, item: Item, target: Option<Pid>, request: nat, usable: bool, began: Time, now: Time)
      returns (r: Result<bool, Refusal>)
      requires Valid()
      modifies this`people, this`events
      ensures Valid()
      ensures match Attacks.Use(rules, old(View()), actor, item, target, request, usable, began, now)
              case Ok(attack) => r == Ok(attack.absorbed) && View() == attack.market
              case Err(e) => r == Err(e) && View() == old(View())
    {
      var refusal := CheckUse(rules, View(), actor, item, target, usable);
      if refusal.Some? {
        return Err(refusal.value);
      }
      if target.value !in people {
        return Err(TargetUnknown);
      }
      var saved := people;
      var landed := LandBlackout(item, actor, target.value, now);
      if landed.Err? {
        people := saved;
        return Err(landed.error);
      }
      people := people[actor := people[actor].(shelf := TakeOne(people[actor].shelf, item))];
      // The unique key on (actor, request) is met only now; `saved` undoes what was written before it.
      if Recorded(events, actor, request) {
        people := saved;
        return Err(Replayed);
      }
      var deed := if landed.value then Blocked else Used;
      events := events + [Event(deed, item, actor, target, 0, request, began, now)];
      r := landed;
    }

    /** Put one bought powerup on the shelf. */
    method Stock(p: Pid, item: Item, now: Time)
      requires Valid() && p in people && item < |rules.catalogue|
      modifies this`people
      ensures Valid()
      ensures var stocked := old(people)[p].(shelf := AddOne(old(people)[p].shelf, item));
              var buyer := if rules.catalogue[item].kind == ShieldKind then Settled(rules.catalogue, stocked, now) else stocked;
              people == old(people)[p := buyer]
    {
      hide Settled;
      people := people[p := people[p].(shelf := AddOne(people[p].shelf, item))];
      if rules.catalogue[item].kind == ShieldKind {
        // Keeps the rule that a holder with startable shields has one up.
        var _ := SettleShield(p, now);
      }
    }

    method Buy(p: Pid, item: Item, request: nat, isOpen: bool, began: Time, now: Time) returns (r: Result<int, Refusal>)
      requires Valid()
      modifies this`people, this`events, wallet
      ensures Valid()
      ensures match Attacks.Buy(rules, old(View()), p, item, request, isOpen, began, now)
              case Ok(m) => r == Ok(m.money.balance[p]) && View() == m
              case Err(e) => r == Err(e) && View() == old(View())
    {
      hide Settled;
      var refusal := CheckBuy(rules, View(), p, item, isOpen);
      if refusal.Some? {
        return Err(refusal.value);
      }
      var powerup := rules.catalogue[item];
      var savedMoney, savedPeople := wallet.View(), people;
      var paid := wallet.Move(p, 0 - powerup.price, PowerupBought);
      if paid.Err? {
        return Err(MoveRefused);
      }
      Stock(p, item, now);
      if Recorded(events, p, request) {
        wallet.Rollback(savedMoney);
        people := savedPeople;
        return Err(Replayed);
      }
      events := events + [Event(Purchase, item, p, None, powerup.price, request, began, now)];
      r := Ok(paid.value);
    }

    /** One holder of the scheduler's tick, chosen from an unlocked read. */
    method TickHolder(p: Pid, now: Time)
      requires Valid()
      modifies this`people
      ensures Valid() && View() == TickShield(rules, old(View()), p, now)
    {
      if p in people {
        var _ := SettleShield(p, now);
      }
    }
  }

  /** Absorbing an attack touches only shields and the shelf. */
  lemma AbsorbedLeavesTheRest(catalogue: seq<Powerup>, p: Person, now: Time)
    ensures Absorbed(catalogue, p, now).None? ==> Settled(catalogue, p, now) == p
    ensures Absorbed(catalogue, p, now).Some? ==>
              Absorbed(catalogue, p, now).value.breaks == p.breaks
  {
    var ready := Settled(catalogue, p, now);
    if Up(p.shields, now).None? && ready != p {
      assert StillUp(ready.shields[|p.shields|], now);
    }
  }
}
