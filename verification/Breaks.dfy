/** The cap on attacks: which attacks start a break, how long it lasts, and that none lands inside one. */
module Breaks {
  import opened Common
  import opened Attacks

  /** Break `k` lasts base * 2^k seconds. */
  lemma {:induction false} PlainArithmetic(base: int, n: nat)
    ensures Doubled(base, n) == base * Doubled(1, n)
  {
    if n > 0 {
      PlainArithmetic(base, n - 1);
    }
  }

  /** The attacks on a person, absorbed ones included, in the order they landed. */
  function Hits(events: seq<Event>, target: Pid): seq<Event> {
    if events == [] then []
    else
      var last := events[|events| - 1];
      Hits(events[..|events| - 1], target) + if IsAttackOn(last, target) then [last] else []
  }

  /** The attacks that count towards the cap. */
  function Counted(r: Rules, events: seq<Event>, target: Pid): seq<Event> {
    if events == [] then []
    else
      var last := events[|events| - 1];
      Counted(r, events[..|events| - 1], target) + if Counts(r, last, target) then [last] else []
  }

  lemma HitsAppend(r: Rules, events: seq<Event>, e: Event, target: Pid)
    ensures Hits(events + [e], target) == Hits(events, target) + if IsAttackOn(e, target) then [e] else []
    ensures Counted(r, events + [e], target)
         == Counted(r, events, target) + if Counts(r, e, target) then [e] else []
  {
    assert (events + [e])[..|events|] == events;
  }

  /** How many of some attacks are dated at or after an instant. */
  function OnTime(attacks: seq<Event>, since: Time): nat {
    if attacks == [] then 0
    else
      var n := |attacks| - 1;
      OnTime(attacks[..n], since) + if attacks[n].created >= since then 1 else 0
  }

  /** How many are dated before it. */
  function Late(attacks: seq<Event>, since: Time): nat {
    if attacks == [] then 0
    else
      var n := |attacks| - 1;
      Late(attacks[..n], since) + if attacks[n].created < since then 1 else 0
  }

  // ----- the pattern -----------------------------------------------------------------------------

  /** Break `k` (from 0) was started by counted attack number `s`, lasts base * 2^k, and every later counted
      attack read the clock at or after its end. */
  ghost predicate NthBreak(r: Rules, counted: seq<Event>, b: Break, s: nat, k: nat) {
    && s < |counted|
    && b.number == k + 1
    && b.seconds == Doubled(r.breakSeconds, k)
    && b.startsAt == counted[s].at
    && b.endsAt == Some(b.startsAt + b.seconds * SECOND)
    && (forall j :: s < j < |counted| ==> counted[j].at >= b.endsAt.value)
  }

  /** Before attack number `s`, one attack short of the cap is dated after that break's end. */
  ghost predicate OneShort(r: Rules, counted: seq<Event>, b: Break, s: nat) {
    s < |counted| && b.endsAt.Some? && OnTime(counted[..s], b.endsAt.value) == r.cap - 1
  }

  /** The breaks so far, `starts` saying which counted attack started each. */
  ghost predicate Pattern(r: Rules, counted: seq<Event>, breaks: seq<Break>, starts: seq<nat>) {
    && |starts| == |breaks|
    && (forall k :: 0 <= k < |breaks| ==> NthBreak(r, counted, breaks[k], starts[k], k))
    && (forall k, l :: 0 <= k < l < |breaks| && l == k + 1 ==>
          starts[k] < starts[l] && OneShort(r, counted, breaks[k], starts[l]))
    && (if breaks == [] then |counted| < r.cap
        else starts[0] == r.cap - 1 && OnTime(counted, breaks[|breaks| - 1].endsAt.value) < r.cap)
  }

  ghost predicate Timed(r: Rules, counted: seq<Event>, breaks: seq<Break>) {
    exists starts :: Pattern(r, counted, breaks, starts)
  }

  /** Clocks are read in the order the attacks landed, and no transaction reads one before it began. */
  ghost predicate InOrder(attacks: seq<Event>, clock: Time) {
    && (forall i, j :: 0 <= i < j < |attacks| ==> attacks[i].at <= attacks[j].at)
    && (forall i :: 0 <= i < |attacks| ==> attacks[i].created <= attacks[i].at <= clock)
  }

  ghost predicate OutsideBreaks(hits: seq<Event>, breaks: seq<Break>) {
    forall j, k :: 0 <= j < |hits| && 0 <= k < |breaks| ==>
      hits[j].at <= breaks[k].startsAt || (breaks[k].endsAt.Some? && breaks[k].endsAt.value <= hits[j].at)
  }

  /** A person's breaks are fixed by the attacks on them: one whenever the attacks dated since the last one
      reach the cap, and under "forever" just the one. */
  ghost predicate BreaksOk(r: Rules, events: seq<Event>, target: Pid, breaks: seq<Break>, clock: Time) {
    var counted := Counted(r, events, target);
    && InOrder(counted, clock)
    && InOrder(Hits(events, target), clock)
    && OutsideBreaks(Hits(events, target), breaks)
    && (r.cap <= 0 ==> breaks == [])
    && (r.cap > 0 && !r.forever ==> Timed(r, counted, breaks))
    && (r.cap > 0 && r.forever ==>
          if breaks == [] then |counted| < r.cap
          else |counted| == r.cap && breaks == [Break(1, 0, counted[r.cap - 1].at, None)])
  }

  /** The shortest first break the settings accept. */
  ghost predicate Sensible(r: Rules) {
    r.breakSeconds >= 1
  }

  // ----- counting ------------------------------------------------------------------------------

  lemma {:induction false} CountAll(r: Rules, events: seq<Event>, target: Pid)
    ensures CountSince(r, events, target, None) == |Counted(r, events, target)|
  {
    if events != [] {
      CountAll(r, events[..|events| - 1], target);
    }
  }

  lemma {:induction false} CountOnTime(r: Rules, events: seq<Event>, target: Pid, since: Time)
    ensures CountSince(r, events, target, Some(since)) == OnTime(Counted(r, events, target), since)
  {
    if events != [] {
      var before, last := Counted(r, events[..|events| - 1], target), events[|events| - 1];
      CountOnTime(r, events[..|events| - 1], target, since);
      if Counts(r, last, target) {
        OnTimeAppend(before, last, since);
      } else {
        assert Counted(r, events, target) == before;
      }
    }
  }

  lemma OnTimeAppend(attacks: seq<Event>, e: Event, since: Time)
    ensures OnTime(attacks + [e], since) == OnTime(attacks, since) + if e.created >= since then 1 else 0
  {
    assert (attacks + [e])[..|attacks|] == attacks;
  }

  lemma {:induction false} OnTimeOrLate(attacks: seq<Event>, since: Time)
    ensures OnTime(attacks, since) + Late(attacks, since) == |attacks|
    ensures Late(attacks, since) == 0 <==> forall e :: e in attacks ==> e.created >= since
  {
    if attacks != [] {
      var n := |attacks| - 1;
      assert attacks == attacks[..n] + [attacks[n]];
      OnTimeOrLate(attacks[..n], since);
    }
  }

  lemma {:induction false} OnTimeJoins(a: seq<Event>, b: seq<Event>, since: Time)
    ensures OnTime(a + b, since) == OnTime(a, since) + OnTime(b, since)
  {
    if b == [] {
      assert a + b == a;
    } else {
      var n := |b| - 1;
      assert (a + b)[..|a| + n] == a + b[..n];
      OnTimeJoins(a, b[..n], since);
    }
  }

  lemma {:induction false} NoneOnTime(attacks: seq<Event>, since: Time)
    requires forall j :: 0 <= j < |attacks| ==> attacks[j].created < since
    ensures OnTime(attacks, since) == 0
  {
    if attacks != [] {
      NoneOnTime(attacks[..|attacks| - 1], since);
    }
  }

  lemma DoubledPositive(base: int, n: nat)
    requires base >= 1
    ensures Doubled(base, n) >= 1
  {
  }

  lemma {:induction false} HighestIsLast(breaks: seq<Break>)
    requires breaks != [] && forall k :: 0 <= k < |breaks| ==> breaks[k].number == k + 1
    ensures LastBreak(breaks) == breaks[|breaks| - 1]
  {
    if |breaks| > 1 {
      HighestIsLast(breaks[..|breaks| - 1]);
    }
  }

  /** What the engine counts: every counted attack so far, or those dated since the last break's end. */
  function Since(counted: seq<Event>, breaks: seq<Break>): nat {
    if breaks == [] || breaks[|breaks| - 1].endsAt.None? then |counted|
    else OnTime(counted, breaks[|breaks| - 1].endsAt.value)
  }

  lemma EngineCounts(r: Rules, events: seq<Event>, target: Pid, breaks: seq<Break>)
    requires Timed(r, Counted(r, events, target), breaks)
    ensures breaks != [] ==> LastBreak(breaks) == breaks[|breaks| - 1] && LastBreak(breaks).number == |breaks|
    ensures var since := if breaks == [] then None else LastBreak(breaks).endsAt;
            CountSince(r, events, target, since) == Since(Counted(r, events, target), breaks) < r.cap
  {
    hide CountSince;
    hide Counted;
    hide OnTime;
    var counted := Counted(r, events, target);
    var starts :| Pattern(r, counted, breaks, starts);
    if breaks == [] {
      CountAll(r, events, target);
    } else {
      var n := |breaks| - 1;
      assert NthBreak(r, counted, breaks[n], starts[n], n);
      HighestIsLast(breaks);
      CountOnTime(r, events, target, breaks[n].endsAt.value);
    }
  }

  // ----- one attack ------------------------------------------------------------------------------

  /** The engine is never asked to compare with a break that has no end. */
  lemma NoMissingEnd(breaks: seq<Break>, now: Time)
    requires breaks != [] && !OnBreak(breaks, now)
    ensures LastBreak(breaks).endsAt.Some?
  {
    LastBreakIsOne(breaks);
  }

  lemma {:induction false} LastBreakIsOne(breaks: seq<Break>)
    requires breaks != []
    ensures exists i :: 0 <= i < |breaks| && breaks[i] == LastBreak(breaks)
  {
    var n := |breaks| - 1;
    if LastBreak(breaks) == breaks[n] {
    } else {
      LastBreakIsOne(breaks[..n]);
      var i :| 0 <= i < n && breaks[..n][i] == LastBreak(breaks[..n]);
      assert breaks[i] == LastBreak(breaks);
    }
  }

  lemma EndedBreaksStayOutside(hits: seq<Event>, e: Event, breaks: seq<Break>)
    requires OutsideBreaks(hits, breaks) && !OnBreak(breaks, e.at)
    ensures OutsideBreaks(hits + [e], breaks)
  {
    assert forall k :: 0 <= k < |breaks| ==> !StillOn(breaks[k], e.at);
  }

  lemma KeptBreak(r: Rules, counted: seq<Event>, e: Event, b: Break, s: nat, k: nat)
    requires NthBreak(r, counted, b, s, k) && !StillOn(b, e.at)
    ensures NthBreak(r, counted + [e], b, s, k)
  {
  }

  lemma KeptShort(r: Rules, counted: seq<Event>, e: Event, b: Break, s: nat)
    requires OneShort(r, counted, b, s)
    ensures OneShort(r, counted + [e], b, s)
  {
    assert (counted + [e])[..s] == counted[..s];
  }

  /** Break number `k + 1`, started by this attack. */
  function Starting(r: Rules, e: Event, k: nat): Break {
    var seconds := Doubled(r.breakSeconds, k);
    Break(k + 1, seconds, e.at, Some(e.at + seconds * SECOND))
  }

  lemma PatternGoesOn(r: Rules, counted: seq<Event>, breaks: seq<Break>, starts: seq<nat>, e: Event)
    requires Pattern(r, counted, breaks, starts) && !OnBreak(breaks, e.at)
    requires Since(counted, breaks) + 1 < r.cap
    ensures Pattern(r, counted + [e], breaks, starts)
  {
    var after := counted + [e];
    forall k | 0 <= k < |breaks|
      ensures NthBreak(r, after, breaks[k], starts[k], k)
    {
      assert !StillOn(breaks[k], e.at);
      KeptBreak(r, counted, e, breaks[k], starts[k], k);
    }
    forall k, l | 0 <= k < l < |breaks| && l == k + 1
      ensures OneShort(r, after, breaks[k], starts[l])
    {
      KeptShort(r, counted, e, breaks[k], starts[l]);
    }
    if breaks != [] {
      var n := |breaks| - 1;
      assert NthBreak(r, counted, breaks[n], starts[n], n);
      OnTimeAppend(counted, e, breaks[n].endsAt.value);
    }
  }

  lemma PatternStartsOne(r: Rules, counted: seq<Event>, breaks: seq<Break>, starts: seq<nat>, e: Event)
    requires Sensible(r) && r.cap > 0 && InOrder(counted + [e], e.at)
    requires Pattern(r, counted, breaks, starts) && !OnBreak(breaks, e.at)
    requires Since(counted, breaks) + 1 >= r.cap
    ensures Pattern(r, counted + [e], breaks + [Starting(r, e, |breaks|)], starts + [|counted|])
  {
    var n := |breaks|;
    var after, b := counted + [e], Starting(r, e, n);
    var breaks', starts' := breaks + [b], starts + [|counted|];
    forall k | 0 <= k < n + 1
      ensures NthBreak(r, after, breaks'[k], starts'[k], k)
    {
      if k < n {
        assert !StillOn(breaks[k], e.at);
        KeptBreak(r, counted, e, breaks[k], starts[k], k);
      }
    }
    forall k, l | 0 <= k < l < n + 1 && l == k + 1
      ensures starts'[k] < starts'[l] && OneShort(r, after, breaks'[k], starts'[l])
    {
      assert NthBreak(r, counted, breaks[k], starts[k], k);
      if l < n {
        KeptShort(r, counted, e, breaks[k], starts[l]);
      } else {
        assert after[..|counted|] == counted;
      }
    }
    NoneSince(r, after, e, n);
    hide NthBreak;
    hide OneShort;
    hide OnBreak;
    hide InOrder;
    hide OnTime;
  }

  /** No attack is dated after the end of a break that has only just started. */
  lemma NoneSince(r: Rules, attacks: seq<Event>, e: Event, k: nat)
    requires Sensible(r) && InOrder(attacks, e.at)
    ensures OnTime(attacks, Starting(r, e, k).endsAt.value) == 0
  {
    DoubledPositive(r.breakSeconds, k);
    assert forall j :: 0 <= j < |attacks| ==> attacks[j].created <= attacks[j].at <= e.at;
    NoneOnTime(attacks, Starting(r, e, k).endsAt.value);
  }

  /** The breaks after a counted attack: one more when, itself included, the attacks dated since the last break
      reach the cap. */
  function AfterCounted(r: Rules, counted: seq<Event>, breaks: seq<Break>, e: Event): seq<Break> {
    if Since(counted, breaks) + 1 < r.cap then breaks else breaks + [Starting(r, e, |breaks|)]
  }

  /** An attack that counts, in the timed case: it starts the next break exactly when the attacks dated since
      the last one, itself included, reach the cap. */
  lemma TimedAttack(r: Rules, events: seq<Event>, e: Event, target: Pid, breaks: seq<Break>, clock: Time)
    requires Sensible(r) && r.cap > 0 && !r.forever && BreaksOk(r, events, target, breaks, clock)
    requires Counts(r, e, target) && e.created <= e.at && clock <= e.at && !OnBreak(breaks, e.at)
    ensures var after := Noted(r, events, target, breaks, e.deed == Blocked, e.at);
            && BreaksOk(r, events + [e], target, after, e.at)
            && after == AfterCounted(r, Counted(r, events, target), breaks, e)
  {
    var counted := Counted(r, events, target);
    HitsAppend(r, events, e, target);
    EngineCounts(r, events, target, breaks);
    NotedIs(r, events, e, target, breaks);
    EndedBreaksStayOutside(Hits(events, target), e, breaks);
    StillInOrder(Hits(events, target), e, clock);
    StillInOrder(counted, e, clock);
    hide Noted;
    hide Counted;
    hide Hits;
    hide OnBreak;
    if Since(counted, breaks) + 1 >= r.cap {
      OutsideNewBreak(Hits(events, target) + [e], breaks, Starting(r, e, |breaks|));
    }
    hide OutsideBreaks;
    TimedGoesOn(r, counted, breaks, e);
    hide InOrder;
    hide Timed;
    hide Since;
  }

  /** What the engine writes for an attack that counts. */
  lemma NotedIs(r: Rules, events: seq<Event>, e: Event, target: Pid, breaks: seq<Break>)
    requires r.cap > 0 && !r.forever && Timed(r, Counted(r, events, target), breaks) && Counts(r, e, target)
    ensures Noted(r, events, target, breaks, e.deed == Blocked, e.at)
         == AfterCounted(r, Counted(r, events, target), breaks, e)
  {
    EngineCounts(r, events, target, breaks);
    hide CountSince;
    hide Counted;
    hide Timed;
    hide LastBreak;
    hide Since;
  }

  lemma OutsideNewBreak(hits: seq<Event>, breaks: seq<Break>, b: Break)
    requires OutsideBreaks(hits, breaks) && forall j :: 0 <= j < |hits| ==> hits[j].at <= b.startsAt
    ensures OutsideBreaks(hits, breaks + [b])
  {
  }

  lemma TimedGoesOn(r: Rules, counted: seq<Event>, breaks: seq<Break>, e: Event)
    requires Sensible(r) && r.cap > 0 && InOrder(counted + [e], e.at)
    requires Timed(r, counted, breaks) && !OnBreak(breaks, e.at)
    ensures Timed(r, counted + [e], AfterCounted(r, counted, breaks, e))
  {
    var starts :| Pattern(r, counted, breaks, starts);
    if Since(counted, breaks) + 1 < r.cap {
      PatternGoesOn(r, counted, breaks, starts, e);
    } else {
      PatternStartsOne(r, counted, breaks, starts, e);
    }
    hide Pattern;
    hide OnBreak;
    hide InOrder;
  }

  lemma ForeverBreakHolds(breaks: seq<Break>, now: Time)
    requires |breaks| == 1 && breaks[0].endsAt.None?
    ensures OnBreak(breaks, now)
  {
    assert StillOn(breaks[0], now);
  }

  lemma FirstForever(r: Rules, events: seq<Event>, e: Event, target: Pid)
    requires r.cap > 0 && r.forever && Counts(r, e, target)
    ensures Noted(r, events, target, [], e.deed == Blocked, e.at)
         == if |Counted(r, events, target)| + 1 < r.cap then [] else [Break(1, 0, e.at, None)]
  {
    CountAll(r, events, target);
  }

  lemma ForeverAttack(r: Rules, events: seq<Event>, e: Event, target: Pid, breaks: seq<Break>, clock: Time)
    requires r.cap > 0 && r.forever && BreaksOk(r, events, target, breaks, clock)
    requires Counts(r, e, target) && e.created <= e.at && clock <= e.at && !OnBreak(breaks, e.at)
    ensures BreaksOk(r, events + [e], target, Noted(r, events, target, breaks, e.deed == Blocked, e.at), e.at)
  {
    var counted, hits := Counted(r, events, target), Hits(events, target);
    HitsAppend(r, events, e, target);
    if breaks != [] {
      ForeverBreakHolds(breaks, e.at);
      assert false;
    }
    FirstForever(r, events, e, target);
    hide Noted;
    hide OnBreak;
    hide Timed;
    hide Hits;
    hide Counted;
    StillInOrder(hits, e, clock);
    StillInOrder(counted, e, clock);
    hide InOrder;
    assert OutsideBreaks(hits + [e], Noted(r, events, target, breaks, e.deed == Blocked, e.at));
    hide OutsideBreaks;
  }

  /** No permitted attack, counted or not, breaks the pattern. */
  lemma AttackKeepsBreaks(r: Rules, events: seq<Event>, e: Event, target: Pid, breaks: seq<Break>, clock: Time)
    requires Sensible(r) && BreaksOk(r, events, target, breaks, clock)
    requires IsAttackOn(e, target) && e.created <= e.at && clock <= e.at && !OnBreak(breaks, e.at)
    ensures BreaksOk(r, events + [e], target, Noted(r, events, target, breaks, e.deed == Blocked, e.at), e.at)
  {
    if Counts(r, e, target) && r.cap > 0 {
      if r.forever {
        ForeverAttack(r, events, e, target, breaks, clock);
      } else {
        TimedAttack(r, events, e, target, breaks, clock);
      }
    } else {
      UncountedAttack(r, events, e, target, breaks, clock);
    }
  }

  lemma UncountedAttack(r: Rules, events: seq<Event>, e: Event, target: Pid, breaks: seq<Break>, clock: Time)
    requires BreaksOk(r, events, target, breaks, clock)
    requires IsAttackOn(e, target) && e.created <= e.at && clock <= e.at && !OnBreak(breaks, e.at)
    requires r.cap <= 0 || !Counts(r, e, target)
    ensures BreaksOk(r, events + [e], target, Noted(r, events, target, breaks, e.deed == Blocked, e.at), e.at)
  {
    HitsAppend(r, events, e, target);
    EndedBreaksStayOutside(Hits(events, target), e, breaks);
    hide OnBreak;
    hide OutsideBreaks;
    assert Noted(r, events, target, breaks, e.deed == Blocked, e.at) == breaks;
    hide Noted;
    StillInOrder(Hits(events, target), e, clock);
    if Counts(r, e, target) {
      StillInOrder(Counted(r, events, target), e, clock);
    } else {
      assert Counted(r, events + [e], target) == Counted(r, events, target);
    }
    StillInTime(Counted(r, events, target), clock, e.at);
    hide InOrder;
    hide Timed;
    hide Counted;
    hide Hits;
    hide Counts;
    hide IsAttackOn;
  }

  lemma StillInOrder(attacks: seq<Event>, e: Event, clock: Time)
    requires InOrder(attacks, clock) && e.created <= e.at && clock <= e.at
    ensures InOrder(attacks + [e], e.at)
  {
  }

  lemma StillInTime(attacks: seq<Event>, clock: Time, now: Time)
    requires InOrder(attacks, clock) && clock <= now
    ensures InOrder(attacks, now)
  {
  }

  lemma OtherEventKeepsBreaks(r: Rules, events: seq<Event>, e: Event, target: Pid, breaks: seq<Break>, clock: Time)
    requires BreaksOk(r, events, target, breaks, clock)
    requires !IsAttackOn(e, target) && clock <= e.at
    ensures BreaksOk(r, events + [e], target, breaks, e.at)
  {
    var counted, hits := Counted(r, events, target), Hits(events, target);
    HitsAppend(r, events, e, target);
    assert counted + [] == counted && hits + [] == hits;
    hide Timed;
    hide Counted;
    hide Hits;
    hide OutsideBreaks;
  }

  // ----- what the pattern means -------------------------------------------------------------------

  /** The attacks that read the clock between two instants, in the order they landed. */
  function Between(attacks: seq<Event>, from: Time, to: Time): seq<Event> {
    if attacks == [] then []
    else
      var n := |attacks| - 1;
      Between(attacks[..n], from, to) + if from <= attacks[n].at <= to then [attacks[n]] else []
  }

  lemma {:induction false} BetweenIsAStretch(attacks: seq<Event>, from: Time, to: Time, lo: nat, hi: nat)
    requires lo <= hi <= |attacks|
    requires forall j :: 0 <= j < |attacks| ==> (from <= attacks[j].at <= to <==> lo <= j < hi)
    ensures Between(attacks, from, to) == attacks[lo..hi]
  {
    if attacks != [] {
      var n := |attacks| - 1;
      if hi <= n {
        BetweenIsAStretch(attacks[..n], from, to, lo, hi);
        assert attacks[..n][lo..hi] == attacks[lo..hi];
      } else if lo <= n {
        BetweenIsAStretch(attacks[..n], from, to, lo, n);
        assert attacks[lo..hi] == attacks[..n][lo..n] + [attacks[n]];
      } else {
        BetweenIsAStretch(attacks[..n], from, to, n, n);
      }
    }
  }

  /** The counted attacks from one break's end to the next one's start. */
  function Stretch(r: Rules, events: seq<Event>, target: Pid, breaks: seq<Break>, k: nat): seq<Event>
    requires k + 1 < |breaks| && breaks[k].endsAt.Some?
  {
    Between(Counted(r, events, target), breaks[k].endsAt.value, breaks[k + 1].startsAt)
  }

  /** The attacks of that stretch that the engine left out: all but the one that started the next break, which
      counts itself, and dated before the break they followed had ended. */
  function Uncounted(r: Rules, events: seq<Event>, target: Pid, breaks: seq<Break>, k: nat): nat
    requires k + 1 < |breaks| && breaks[k].endsAt.Some?
  {
    var stretch := Stretch(r, events, target, breaks, k);
    if stretch == [] then 0 else Late(stretch[..|stretch| - 1], breaks[k].endsAt.value)
  }

  /** A break ends, and the next begins, after it started. */
  lemma BreaksApart(r: Rules, counted: seq<Event>, breaks: seq<Break>, starts: seq<nat>, k: nat)
    requires Sensible(r) && Pattern(r, counted, breaks, starts) && k + 1 < |breaks|
    ensures breaks[k].endsAt.Some? && breaks[k].startsAt < breaks[k].endsAt.value <= breaks[k + 1].startsAt
    ensures starts[k] < starts[k + 1] < |counted|
  {
    assert NthBreak(r, counted, breaks[k], starts[k], k) && NthBreak(r, counted, breaks[k + 1], starts[k + 1], k + 1);
    DoubledPositive(r.breakSeconds, k);
  }

  /** The attacks between two breaks, told by their numbers and by their clocks. */
  lemma StretchByClock(r: Rules, counted: seq<Event>, clock: Time, b: Break, s: nat, k: nat, c: Break, t: nat, l: nat)
    requires Sensible(r) && InOrder(counted, clock) && s < t
    requires NthBreak(r, counted, b, s, k) && NthBreak(r, counted, c, t, l)
    ensures forall j :: 0 <= j < |counted| ==> (b.endsAt.value <= counted[j].at <= c.startsAt <==> s < j <= t)
  {
    DoubledPositive(r.breakSeconds, k);
    DoubledPositive(r.breakSeconds, l);
  }

  /** From one break's end to the next one's start there are exactly the cap's worth of counted attacks, and as
      many more as were dated before that end; and breaks never overlap. */
  lemma AttacksBetweenBreaks(r: Rules, events: seq<Event>, target: Pid, breaks: seq<Break>, clock: Time, k: nat)
    requires Sensible(r) && r.cap > 0 && !r.forever && BreaksOk(r, events, target, breaks, clock)
    requires k + 1 < |breaks|
    ensures breaks[k].endsAt.Some? && breaks[k].startsAt < breaks[k].endsAt.value <= breaks[k + 1].startsAt
    ensures |Stretch(r, events, target, breaks, k)| == r.cap + Uncounted(r, events, target, breaks, k)
  {
    hide Counted;
    var counted := Counted(r, events, target);
    var starts :| Pattern(r, counted, breaks, starts);
    BreaksApart(r, counted, breaks, starts, k);
    var s, t, end := starts[k], starts[k + 1], breaks[k].endsAt.value;
    assert OneShort(r, counted, breaks[k], t);
    assert NthBreak(r, counted, breaks[k], s, k) && NthBreak(r, counted, breaks[k + 1], t, k + 1);
    hide Pattern;
    StretchByClock(r, counted, clock, breaks[k], s, k, breaks[k + 1], t, k + 1);
    BetweenIsAStretch(counted, end, breaks[k + 1].startsAt, s + 1, t + 1);
    var stretch := Stretch(r, events, target, breaks, k);
    assert stretch == counted[s + 1..t + 1] && stretch[..|stretch| - 1] == counted[s + 1..t];
    CountInStretch(r, counted, clock, breaks[k], s, t, k);
  }

  /** Of the attacks between those two, all but one short of the cap are late. */
  lemma CountInStretch(r: Rules, counted: seq<Event>, clock: Time, b: Break, s: nat, t: nat, k: nat)
    requires Sensible(r) && InOrder(counted, clock) && s < t && OneShort(r, counted, b, t) && NthBreak(r, counted, b, s, k)
    ensures t - s - 1 == r.cap - 1 + Late(counted[s + 1..t], b.endsAt.value)
  {
    var front, end := counted[s + 1..t], b.endsAt.value;
    DoubledPositive(r.breakSeconds, k);
    assert forall j :: 0 <= j <= s ==> counted[j].created <= counted[j].at <= b.startsAt;
    assert counted[..t] == counted[..s + 1] + front;
    OnTimeJoins(counted[..s + 1], front, end);
    NoneOnTime(counted[..s + 1], end);
    OnTimeOrLate(front, end);
  }

  /** Up to the start of the first break there are exactly the cap's worth. */
  lemma AttacksBeforeFirstBreak(r: Rules, events: seq<Event>, target: Pid, breaks: seq<Break>, clock: Time, from: Time)
    requires Sensible(r) && r.cap > 0 && !r.forever && BreaksOk(r, events, target, breaks, clock) && breaks != []
    requires forall e :: e in Counted(r, events, target) ==> from <= e.at
    ensures |Between(Counted(r, events, target), from, breaks[0].startsAt)| == r.cap
  {
    hide Counted;
    var counted := Counted(r, events, target);
    var starts :| Pattern(r, counted, breaks, starts);
    assert NthBreak(r, counted, breaks[0], starts[0], 0);
    DoubledPositive(r.breakSeconds, 0);
    assert forall j :: 0 <= j < |counted| ==> counted[j] in counted;
    BetweenIsAStretch(counted, from, breaks[0].startsAt, 0, r.cap);
  }

  /** Exactly the cap's worth between any break and the next. */
  ghost predicate CapKept(r: Rules, events: seq<Event>, target: Pid, breaks: seq<Break>) {
    forall k: nat :: k + 1 < |breaks| && breaks[k].endsAt.Some? ==> |Stretch(r, events, target, breaks, k)| == r.cap
  }

  /** No attack, save one that itself started the next break, began before a break's end and read the clock
      after it. */
  ghost predicate NoneStraddled(r: Rules, events: seq<Event>, target: Pid, breaks: seq<Break>) {
    forall k: nat, j ::
      (k + 1 < |breaks| && breaks[k].endsAt.Some? && 0 <= j < |Stretch(r, events, target, breaks, k)| - 1) ==>
        Stretch(r, events, target, breaks, k)[j].created >= breaks[k].endsAt.value
  }

  /** The cap holds between every break and the next, if and only if no attack straddled a break's end. */
  lemma CapKeptIff(r: Rules, events: seq<Event>, target: Pid, breaks: seq<Break>, clock: Time)
    requires Sensible(r) && r.cap > 0 && !r.forever && BreaksOk(r, events, target, breaks, clock)
    ensures CapKept(r, events, target, breaks) <==> NoneStraddled(r, events, target, breaks)
  {
    hide BreaksOk;
    hide Stretch;
    forall k: nat | k + 1 < |breaks| && breaks[k].endsAt.Some?
      ensures |Stretch(r, events, target, breaks, k)| == r.cap <==>
                forall j :: 0 <= j < |Stretch(r, events, target, breaks, k)| - 1 ==>
                  Stretch(r, events, target, breaks, k)[j].created >= breaks[k].endsAt.value
    {
      AttacksBetweenBreaks(r, events, target, breaks, clock, k);
      var stretch := Stretch(r, events, target, breaks, k);
      var front := stretch[..|stretch| - 1];
      OnTimeOrLate(front, breaks[k].endsAt.value);
      assert forall j :: 0 <= j < |front| ==> front[j] == stretch[j] && front[j] in front;
    }
  }

  /** The breaks written for one person when these attacks land on them in turn; None when one is refused. */
  function Written(r: Rules, attacks: seq<Event>, target: Pid): Option<seq<Break>> {
    if attacks == [] then Some([])
    else
      var n := |attacks| - 1;
      var before := Written(r, attacks[..n], target);
      if before.None? || OnBreak(before.value, attacks[n].at) then None
      else Some(Noted(r, attacks[..n], target, before.value, attacks[n].deed == Blocked, attacks[n].at))
  }

  /** One more attack: what it writes, and what it adds to the counts. */
  lemma OneMoreWritten(r: Rules, attacks: seq<Event>, e: Event, target: Pid, breaks: seq<Break>, since: Option<Time>)
    requires Written(r, attacks, target) == Some(breaks) && !OnBreak(breaks, e.at)
    ensures Written(r, attacks + [e], target) == Some(Noted(r, attacks, target, breaks, e.deed == Blocked, e.at))
    ensures CountSince(r, attacks + [e], target, since) == CountSince(r, attacks, target, since)
              + if Counts(r, e, target) && (since.None? || e.created >= since.value) then 1 else 0
  {
    assert (attacks + [e])[..|attacks|] == attacks;
  }

  lemma BetweenAppend(attacks: seq<Event>, e: Event, from: Time, to: Time)
    ensures Between(attacks + [e], from, to)
         == Between(attacks, from, to) + if from <= e.at <= to then [e] else []
  {
    assert (attacks + [e])[..|attacks|] == attacks;
  }

  /** An attack on person 9. */
  function Hit(request: nat, created: Time, at: Time): Event {
    Event(Used, 0, request, Some(9), 0, request, created, at)
  }

  /** One second, doubling, after every `cap` attacks. */
  function OneSecond(cap: int): Rules {
    Rules([], cap, 1, true, false)
  }

  const TWO := [Hit(1, 0, 0), Hit(2, 1000, 1000)]
  const FOUR := TWO + [Hit(3, 1900, 2000)] + [Hit(4, 2100, 2100)]

  /** Two attacks start a one-second break. The third began inside it and reads the clock at its end: it lands, is
      never counted, and starts nothing; nor does the fourth. */
  lemma LateAttackStartsNothing()
    ensures Written(OneSecond(2), FOUR, 9) == Some([Break(1, 1, 1000, Some(2000))])
    ensures CountSince(OneSecond(2), FOUR, 9, Some(2000)) == 1
  {
    var r, first, end := OneSecond(2), Break(1, 1, 1000, Some(2000)), Some(2000);
    var one := [] + [Hit(1, 0, 0)];
    OneMoreWritten(r, [], Hit(1, 0, 0), 9, [], None);
    OneMoreWritten(r, [], Hit(1, 0, 0), 9, [], end);
    OneMoreWritten(r, one, Hit(2, 1000, 1000), 9, [], end);
    assert TWO == one + [Hit(2, 1000, 1000)] && [] + [first] == [first] && Doubled(1, 0) == 1;
    assert Written(r, TWO, 9) == Some([first]) && CountSince(r, TWO, 9, end) == 0;
    OneMoreWritten(r, TWO, Hit(3, 1900, 2000), 9, [first], end);
    OneMoreWritten(r, TWO + [Hit(3, 1900, 2000)], Hit(4, 2100, 2100), 9, [first], end);
  }

  /** The fifth starts the second break, so a cap of two lets three attacks fall between the first and it. */
  lemma LateAttackGoesUncounted()
    ensures Written(OneSecond(2), FOUR + [Hit(5, 2200, 2200)], 9)
         == Some([Break(1, 1, 1000, Some(2000)), Break(2, 2, 2200, Some(4200))])
    ensures Between(FOUR + [Hit(5, 2200, 2200)], 2000, 2200)
         == [Hit(3, 1900, 2000), Hit(4, 2100, 2100), Hit(5, 2200, 2200)]
  {
    var r, first := OneSecond(2), Break(1, 1, 1000, Some(2000));
    LateAttackStartsNothing();
    OneMoreWritten(r, FOUR, Hit(5, 2200, 2200), 9, [first], None);
    assert Doubled(1, 1) == 2 && [first] + [Break(2, 2, 2200, Some(4200))] == [first, Break(2, 2, 2200, Some(4200))];
    BetweenAppend(FOUR, Hit(5, 2200, 2200), 2000, 2200);
    BetweenAppend(TWO + [Hit(3, 1900, 2000)], Hit(4, 2100, 2100), 2000, 2200);
    BetweenAppend(TWO, Hit(3, 1900, 2000), 2000, 2200);
    assert TWO == [Hit(1, 0, 0)] + [Hit(2, 1000, 1000)] && [Hit(1, 0, 0)] == [] + [Hit(1, 0, 0)];
    BetweenAppend([Hit(1, 0, 0)], Hit(2, 1000, 1000), 2000, 2200);
    BetweenAppend([], Hit(1, 0, 0), 2000, 2200);
  }

  /** The attack that starts the next break counts itself, so one that straddled the last break's end does no harm:
      a cap of one is kept though the second attack began inside the break it follows. */
  lemma LateStarterStillCounts()
    ensures Written(OneSecond(1), [Hit(1, 0, 0), Hit(2, 500, 1000)], 9)
         == Some([Break(1, 1, 0, Some(1000)), Break(2, 2, 1000, Some(3000))])
  {
    hide CountSince;
    var r, one := OneSecond(1), [] + [Hit(1, 0, 0)];
    OneMoreWritten(r, [], Hit(1, 0, 0), 9, [], None);
    var first, second := Break(1, 1, 0, Some(1000)), Break(2, 2, 1000, Some(3000));
    assert Doubled(1, 0) == 1 && Doubled(1, 1) == 2 && [] + [first] == [first] && [first] + [second] == [first, second];
    OneMoreWritten(r, one, Hit(2, 500, 1000), 9, [first], None);
    assert [Hit(1, 0, 0), Hit(2, 500, 1000)] == one + [Hit(2, 500, 1000)];
  }

  /** Each break is numbered one more than the last and is twice as long. */
  lemma BreaksDouble(r: Rules, events: seq<Event>, target: Pid, breaks: seq<Break>, clock: Time, k: nat)
    requires r.cap > 0 && !r.forever && BreaksOk(r, events, target, breaks, clock)
    requires k + 1 < |breaks|
    ensures breaks[k + 1].number == breaks[k].number + 1
    ensures breaks[k + 1].seconds == 2 * breaks[k].seconds
    ensures breaks[0].number == 1 && breaks[0].seconds == r.breakSeconds
  {
    var counted := Counted(r, events, target);
    var starts :| Pattern(r, counted, breaks, starts);
    assert NthBreak(r, counted, breaks[k], starts[k], k) && NthBreak(r, counted, breaks[k + 1], starts[k + 1], k + 1);
    assert NthBreak(r, counted, breaks[0], starts[0], 0);
  }
}
