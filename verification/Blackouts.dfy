/** Blackouts on one person: no two overlap, none leaves a gap, and the gate is shut exactly while one covers now. */
module Blackouts {
  import opened Common
  import opened Attacks

  /** Whether an instant lies inside some blackout. */
  ghost predicate Covers(bs: seq<Blackout>, t: Time) {
    exists i :: 0 <= i < |bs| && bs[i].startsAt <= t < bs[i].endsAt
  }

  predicate Follows(b: Blackout, next: Blackout, clock: Time) {
    next.startsAt == b.endsAt || b.endsAt <= next.startsAt <= clock
  }

  /** Each one starts where the one before it ends, or later at the instant it was made (by `clock`). */
  ghost predicate EndToEnd(bs: seq<Blackout>, clock: Time) {
    && (forall i :: 0 <= i < |bs| ==> bs[i].startsAt < bs[i].endsAt)
    && (bs != [] ==> bs[0].startsAt <= clock)
    && (forall i, j :: 0 <= i < j < |bs| && j == i + 1 ==> Follows(bs[i], bs[j], clock))
  }

  lemma {:induction false} LaterEndsLater(bs: seq<Blackout>, clock: Time, i: nat, j: nat)
    requires EndToEnd(bs, clock) && i < j < |bs|
    ensures bs[i].endsAt <= bs[j].startsAt < bs[j].endsAt
  {
    assert Follows(bs[j - 1], bs[j], clock);
    if i < j - 1 {
      LaterEndsLater(bs, clock, i, j - 1);
    }
  }

  /** Blackouts on one target never overlap. */
  lemma NeverOverlap(bs: seq<Blackout>, clock: Time, i: nat, j: nat, t: Time)
    requires EndToEnd(bs, clock) && i < |bs| && j < |bs| && i != j
    requires bs[i].startsAt <= t < bs[i].endsAt
    ensures !(bs[j].startsAt <= t < bs[j].endsAt)
  {
    if i < j {
      LaterEndsLater(bs, clock, i, j);
    } else {
      LaterEndsLater(bs, clock, j, i);
    }
  }

  lemma {:induction false} RunningUntilIsTheLast(bs: seq<Blackout>, clock: Time, now: Time)
    requires EndToEnd(bs, clock)
    ensures RunningUntil(bs, now)
         == if bs != [] && bs[|bs| - 1].endsAt > now then Some(bs[|bs| - 1].endsAt) else None
  {
    if bs != [] {
      var front := bs[..|bs| - 1];
      RunningUntilIsTheLast(front, clock, now);
      if front != [] {
        LaterEndsLater(bs, clock, |bs| - 2, |bs| - 1);
      }
    }
  }

  /** From now to the end of the last blackout there is no gap. */
  lemma {:induction false} CoveredToTheEnd(bs: seq<Blackout>, clock: Time, t: Time)
    requires EndToEnd(bs, clock) && bs != [] && clock <= t < bs[|bs| - 1].endsAt
    ensures Covers(bs, t)
  {
    var n := |bs| - 1;
    if bs[n].startsAt <= t {
      assert bs[n].startsAt <= t < bs[n].endsAt;
    } else {
      assert n > 0 && Follows(bs[n - 1], bs[n], clock);
      CoveredToTheEnd(bs[..n], clock, t);
      var i :| 0 <= i < n && bs[..n][i].startsAt <= t < bs[..n][i].endsAt;
      assert bs[i].startsAt <= t < bs[i].endsAt;
    }
  }

  /** The gate looks at ends only, and refuses exactly the covered instants. */
  lemma GateRefusesExactlyTheCovered(bs: seq<Blackout>, clock: Time, now: Time)
    requires EndToEnd(bs, clock) && clock <= now
    ensures BlackedOut(bs, now) <==> Covers(bs, now)
    ensures BlackedOut(bs, now) ==> forall t :: now <= t < bs[|bs| - 1].endsAt ==> Covers(bs, t)
  {
    if BlackedOut(bs, now) {
      var i :| 0 <= i < |bs| && bs[i].endsAt > now;
      if i < |bs| - 1 {
        LaterEndsLater(bs, clock, i, |bs| - 1);
      }
      forall t | now <= t < bs[|bs| - 1].endsAt
        ensures Covers(bs, t)
      {
        CoveredToTheEnd(bs, clock, t);
      }
    }
  }

  lemma StackedEndToEnd(bs: seq<Blackout>, clock: Time, attacker: Pid, seconds: int, now: Time)
    requires EndToEnd(bs, clock) && clock <= now && seconds > 0
    ensures EndToEnd(Stacked(bs, attacker, seconds, now), now)
  {
    RunningUntilIsTheLast(bs, clock, now);
  }

  /** When the person is free again. */
  function FreeAt(bs: seq<Blackout>, now: Time): Time {
    var until := RunningUntil(bs, now);
    if until.Some? then until.value else now
  }

  datatype Hit = Hit(attacker: Pid, seconds: int)

  function TotalSeconds(hits: seq<Hit>): int {
    if hits == [] then 0 else TotalSeconds(hits[..|hits| - 1]) + hits[|hits| - 1].seconds
  }

  /** Attacks arriving at one instant, in the order they got the target's row lock. */
  function Volley(bs: seq<Blackout>, hits: seq<Hit>, now: Time): seq<Blackout> {
    if hits == [] then bs
    else
      var last := hits[|hits| - 1];
      Stacked(Volley(bs, hits[..|hits| - 1], now), last.attacker, last.seconds, now)
  }

  /** Simultaneous attacks extend the blackout by exactly the sum of their seconds, whoever lands first. */
  lemma {:induction false} VolleyAddsUp(bs: seq<Blackout>, clock: Time, hits: seq<Hit>, now: Time)
    requires EndToEnd(bs, clock) && clock <= now
    requires forall h :: h in hits ==> h.seconds > 0
    ensures var after := Volley(bs, hits, now);
            && EndToEnd(after, now) && |after| == |bs| + |hits|
            && FreeAt(after, now) == FreeAt(bs, now) + TotalSeconds(hits) * SECOND
  {
    RunningUntilIsTheLast(bs, clock, now);
    if hits != [] {
      var n := |hits| - 1;
      VolleyAddsUp(bs, clock, hits[..n], now);
      var before := Volley(bs, hits[..n], now);
      RunningUntilIsTheLast(before, now, now);
      StackedEndToEnd(before, now, hits[n].attacker, hits[n].seconds, now);
      RunningUntilIsTheLast(Volley(bs, hits, now), now, now);
    }
  }
}
