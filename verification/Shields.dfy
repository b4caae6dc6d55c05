/** Shields on one person: at most one up at any instant, and the queue behind it. */
module Shields {
  import opened Common
  import opened Attacks

  /** When a shield stopped being up: absorbed, run out, or not yet. */
  function Finish(s: Shield): Option<Time> {
    if s.absorbedAt.Some? then s.absorbedAt else s.endsAt
  }

  predicate UpAt(s: Shield, t: Time) {
    s.startsAt <= t && (Finish(s).None? || t < Finish(s).value)
  }

  predicate OverBefore(s: Shield, next: Shield) {
    Finish(s).Some? && Finish(s).value <= next.startsAt
  }

  /** Each shield was over before the next began; nothing is dated after `clock` except an end to come. */
  ghost predicate OneAtATime(ss: seq<Shield>, clock: Time) {
    && (forall i :: 0 <= i < |ss| ==> ss[i].startsAt <= clock)
    && (forall i :: 0 <= i < |ss| && ss[i].absorbedAt.Some? ==> ss[i].absorbedAt.value <= clock)
    && (forall i, j :: 0 <= i < j < |ss| ==> OverBefore(ss[i], ss[j]))
  }

  /** At any instant at all, at most one shield of a holder is up. */
  lemma AtMostOneUp(ss: seq<Shield>, clock: Time, i: nat, j: nat, t: Time)
    requires OneAtATime(ss, clock) && i < |ss| && j < |ss| && i != j
    ensures !(UpAt(ss[i], t) && UpAt(ss[j], t))
  {
    assert OverBefore(ss[i], ss[j]) || OverBefore(ss[j], ss[i]);
  }

  /** Only the newest shield can still be up. */
  lemma UpIsTheNewest(ss: seq<Shield>, clock: Time, now: Time)
    requires OneAtATime(ss, clock) && clock <= now
    ensures Up(ss, now).Some? ==> Up(ss, now).value == |ss| - 1
  {
    forall i | 0 <= i < |ss| - 1
      ensures !StillUp(ss[i], now)
    {
      var newest := ss[|ss| - 1];
      assert OverBefore(ss[i], newest);
    }
  }

  lemma SettledKeepsOne(catalogue: seq<Powerup>, p: Person, clock: Time, now: Time)
    requires OneAtATime(p.shields, clock) && clock <= now
    ensures OneAtATime(Settled(catalogue, p, now).shields, now)
    ensures Up(p.shields, now).None? && Settled(catalogue, p, now).shields != p.shields ==>
              Up(Settled(catalogue, p, now).shields, now) == Some(|p.shields|)
  {
  }

  /** Absorbing an attack spends one shield and leaves at most one up. */
  lemma AbsorbedKeepsOne(catalogue: seq<Powerup>, p: Person, clock: Time, now: Time)
    requires OneAtATime(p.shields, clock) && clock <= now
    requires Absorbed(catalogue, p, now).Some?
    ensures OneAtATime(Absorbed(catalogue, p, now).value.shields, now)
  {
    var ready := Settled(catalogue, p, now);
    SettledKeepsOne(catalogue, p, clock, now);
    UpIsTheNewest(ready.shields, now, now);
    var n := |ready.shields| - 1;
    var spent := ready.(shields := ready.shields[n := ready.shields[n].(absorbedAt := Some(now))]);
    SettledKeepsOne(catalogue, spent, now, now);
  }

  /** An attack is absorbed exactly when a shield is up or one is waiting that can start. */
  lemma AbsorbsIff(catalogue: seq<Powerup>, p: Person, now: Time)
    ensures Absorbed(catalogue, p, now).Some?
       <==> Up(p.shields, now).Some? || exists item: Item :: CanStart(catalogue, p.shelf, item)
  {
    var waiting := FirstWaiting(catalogue, p.shelf, 0);
    if Up(p.shields, now).None? && waiting.Some? {
      var started := Settled(catalogue, p, now);
      assert StillUp(started.shields[|p.shields|], now);
      assert CanStart(catalogue, p.shelf, waiting.value);
    }
  }

  // ----- how many attacks a holder can still absorb ---------------------------------------------

  /** The shields waiting among the first `n` powerups that could start. */
  function Waiting(catalogue: seq<Powerup>, shelf: seq<Holding>, n: nat): nat {
    if n == 0 then 0
    else
      Waiting(catalogue, shelf, n - 1) + if CanStart(catalogue, shelf, n - 1) then shelf[n - 1].quantity else 0
  }

  function Stock(catalogue: seq<Powerup>, p: Person, now: Time): nat {
    (if Up(p.shields, now).Some? then 1 else 0) + Waiting(catalogue, p.shelf, |catalogue|)
  }

  lemma {:induction false} WaitingAfterTake(catalogue: seq<Powerup>, shelf: seq<Holding>, item: Item, n: nat)
    requires CanStart(catalogue, shelf, item)
    ensures Waiting(catalogue, TakeOne(shelf, item), n) == Waiting(catalogue, shelf, n) - if item < n then 1 else 0
  {
    if n > 0 {
      WaitingAfterTake(catalogue, shelf, item, n - 1);
    }
  }

  lemma {:induction false} WaitingIff(catalogue: seq<Powerup>, shelf: seq<Holding>, n: nat)
    ensures Waiting(catalogue, shelf, n) > 0 <==> exists item: Item :: item < n && CanStart(catalogue, shelf, item)
  {
    if n > 0 {
      WaitingIff(catalogue, shelf, n - 1);
      if CanStart(catalogue, shelf, n - 1) {
        assert shelf[n - 1].quantity > 0;
      }
    }
  }

  lemma SettledKeepsStock(catalogue: seq<Powerup>, p: Person, now: Time)
    ensures Stock(catalogue, Settled(catalogue, p, now), now) == Stock(catalogue, p, now)
    ensures Up(Settled(catalogue, p, now).shields, now).Some? <==> Stock(catalogue, p, now) > 0
  {
    WaitingIff(catalogue, p.shelf, |catalogue|);
    var waiting := FirstWaiting(catalogue, p.shelf, 0);
    if Up(p.shields, now).None? && waiting.Some? {
      WaitingAfterTake(catalogue, p.shelf, waiting.value, |catalogue|);
      assert StillUp(Settled(catalogue, p, now).shields[|p.shields|], now);
    }
  }

  /** An attack is absorbed exactly while stock is left, and costs exactly one shield of it. */
  lemma AbsorbSpendsOne(catalogue: seq<Powerup>, p: Person, clock: Time, now: Time)
    requires OneAtATime(p.shields, clock) && clock <= now
    ensures Absorbed(catalogue, p, now).Some? <==> Stock(catalogue, p, now) > 0
    ensures Absorbed(catalogue, p, now).Some? ==>
              Stock(catalogue, Absorbed(catalogue, p, now).value, now) == Stock(catalogue, p, now) - 1
  {
    SettledKeepsStock(catalogue, p, now);
    var ready := Settled(catalogue, p, now);
    if Up(ready.shields, now).Some? {
      SettledKeepsOne(catalogue, p, clock, now);
      UpIsTheNewest(ready.shields, now, now);
      var n := |ready.shields| - 1;
      var spent := ready.(shields := ready.shields[n := ready.shields[n].(absorbedAt := Some(now))]);
      assert OneAtATime(spent.shields, now);
      UpIsTheNewest(spent.shields, now, now);
      assert Up(spent.shields, now).None?;
      SettledKeepsStock(catalogue, spent, now);
    }
  }

  /** Nothing the holder could ever absorb with has a time limit. */
  ghost predicate Untimed(catalogue: seq<Powerup>, p: Person, now: Time) {
    && (Up(p.shields, now).Some? ==> p.shields[Up(p.shields, now).value].endsAt.None?)
    && (forall item: Item :: CanStart(catalogue, p.shelf, item) ==> OrZero(catalogue[item].seconds) == UNTIL_ABSORBED)
  }

  /** Then only attacks use the stock up: waiting changes nothing. */
  lemma {:induction false} UpLater(ss: seq<Shield>, now: Time, later: Time)
    requires now <= later
    requires Up(ss, now).Some? ==> ss[Up(ss, now).value].endsAt.None?
    ensures Up(ss, later) == Up(ss, now)
  {
    if ss != [] && !StillUp(ss[|ss| - 1], now) {
      UpLater(ss[..|ss| - 1], now, later);
    }
  }

  lemma UntimedStockKeeps(catalogue: seq<Powerup>, p: Person, now: Time, later: Time)
    requires Untimed(catalogue, p, now) && now <= later
    ensures Untimed(catalogue, p, later) && Stock(catalogue, p, later) == Stock(catalogue, p, now)
  {
    UpLater(p.shields, now, later);
  }

  lemma SettledKeepsUntimed(catalogue: seq<Powerup>, p: Person, now: Time)
    requires Untimed(catalogue, p, now)
    ensures Untimed(catalogue, Settled(catalogue, p, now), now)
  {
    var waiting := FirstWaiting(catalogue, p.shelf, 0);
    var after := Settled(catalogue, p, now);
    if Up(p.shields, now).None? && waiting.Some? {
      assert StillUp(after.shields[|p.shields|], now);
      forall item: Item | CanStart(catalogue, after.shelf, item)
        ensures CanStart(catalogue, p.shelf, item)
      {
      }
    }
  }

  lemma AbsorbedKeepsUntimed(catalogue: seq<Powerup>, p: Person, clock: Time, now: Time)
    requires OneAtATime(p.shields, clock) && clock <= now
    requires Untimed(catalogue, p, now) && Absorbed(catalogue, p, now).Some?
    ensures Untimed(catalogue, Absorbed(catalogue, p, now).value, now)
  {
    SettledKeepsUntimed(catalogue, p, now);
    var ready := Settled(catalogue, p, now);
    SettledKeepsOne(catalogue, p, clock, now);
    hide Settled;
    UpIsTheNewest(ready.shields, now, now);
    var n := |ready.shields| - 1;
    var spent := ready.(shields := ready.shields[n := ready.shields[n].(absorbedAt := Some(now))]);
    SpentIsDown(ready.shields, now);
    assert Untimed(catalogue, spent, now);
    SettledKeepsUntimed(catalogue, spent, now);
  }

  /** With its newest shield spent, a holder has none up. */
  lemma SpentIsDown(shields: seq<Shield>, now: Time)
    requires OneAtATime(shields, now) && shields != []
    ensures var n := |shields| - 1;
            Up(shields[n := shields[n].(absorbedAt := Some(now))], now).None?
  {
    var n := |shields| - 1;
    var spent := shields[n := shields[n].(absorbedAt := Some(now))];
    assert OneAtATime(spent, now);
    UpIsTheNewest(spent, now, now);
  }
}
