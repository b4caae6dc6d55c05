/** Balances and the ledger: the rules of `engine/accounts/wallet.py`, as values. */
module Ledger {
  import opened Common

  datatype Reason = BidWon | HintBought | PowerupBought | Refund | AdminAdjust | Grant | Clawback

  const EVERY_REASON: set<Reason> :=
    {BidWon, HintBought, PowerupBought, Refund, AdminAdjust, Grant, Clawback}

  datatype Entry = Entry(who: Pid, delta: int, after: int, reason: Reason)

  /** The `balance` column of every participant, and the ledger in id order. */
  datatype Money = Money(balance: map<Pid, int>, lines: seq<Entry>)

  datatype MoveError = NoSuchParticipant | NegativeBalance

  /** The sum of one participant's ledger deltas with one of `reasons`. */
  function Net(lines: seq<Entry>, who: Pid, reasons: set<Reason>): int {
    if lines == [] then 0
    else
      var last := lines[|lines| - 1];
      Net(lines[..|lines| - 1], who, reasons)
      + if last.who == who && last.reason in reasons then last.delta else 0
  }

  /** One balance change with its ledger line, or a refusal that changes nothing. */
  function Moved(m: Money, who: Pid, delta: int, reason: Reason): Result<Money, MoveError> {
    if who !in m.balance then Err(NoSuchParticipant)
    else if m.balance[who] + delta < 0 then Err(NegativeBalance)
    else
      var after := m.balance[who] + delta;
      Ok(Money(m.balance[who := after], m.lines + [Entry(who, delta, after, reason)]))
  }

  /** Every balance is the sum of its ledger, every line carries the running total, none is negative. */
  ghost predicate Balanced(m: Money) {
    && (forall p :: p in m.balance ==> m.balance[p] == Net(m.lines, p, EVERY_REASON) >= 0)
    && (forall i :: 0 <= i < |m.lines| ==> LineBalanced(m, i))
  }

  ghost predicate LineBalanced(m: Money, i: nat)
    requires i < |m.lines|
  {
    && m.lines[i].who in m.balance
    && m.lines[i].after == Net(m.lines[..i + 1], m.lines[i].who, EVERY_REASON) >= 0
  }

  lemma NetAppend(lines: seq<Entry>, e: Entry, who: Pid, reasons: set<Reason>)
    ensures Net(lines + [e], who, reasons)
         == Net(lines, who, reasons) + if e.who == who && e.reason in reasons then e.delta else 0
  {
    assert (lines + [e])[..|lines|] == lines;
  }

  lemma EveryReason(r: Reason)
    ensures r in EVERY_REASON
  {
    match r
    case BidWon =>
    case HintBought =>
    case PowerupBought =>
    case Refund =>
    case AdminAdjust =>
    case Grant =>
    case Clawback =>
  }

  /** No move ever breaks the books. */
  lemma MoveKeepsBalanced(m: Money, who: Pid, delta: int, reason: Reason)
    requires Balanced(m)
    requires Moved(m, who, delta, reason).Ok?
    ensures Balanced(Moved(m, who, delta, reason).value)
  {
    var m' := Moved(m, who, delta, reason).value;
    var e := m'.lines[|m.lines|];
    EveryReason(reason);
    forall p | p in m'.balance
      ensures m'.balance[p] == Net(m'.lines, p, EVERY_REASON) >= 0
    {
      NetAppend(m.lines, e, p, EVERY_REASON);
    }
    forall i | 0 <= i < |m'.lines|
      ensures LineBalanced(m', i)
    {
      if i < |m.lines| {
        assert LineBalanced(m, i);
        assert m'.lines[..i + 1] == m.lines[..i + 1];
      } else {
        assert m'.lines[..i + 1] == m'.lines;
      }
    }
  }

  /** What one request asks of the wallet. */
  datatype Request = Request(who: Pid, delta: int, reason: Reason)

  /** A refused request leaves the books as they were. */
  function AfterMoves(m: Money, requests: seq<Request>): Money
    decreases |requests|
  {
    if requests == [] then m
    else
      var r := requests[0];
      var moved := Moved(m, r.who, r.delta, r.reason);
      AfterMoves(if moved.Ok? then moved.value else m, requests[1..])
  }

  /** Over any run of requests, from accounts opened empty: every balance equals its ledger. */
  lemma {:induction false} AnyRunIsBalanced(m: Money, requests: seq<Request>)
    requires Balanced(m)
    ensures Balanced(AfterMoves(m, requests))
    ensures AfterMoves(m, requests).balance.Keys == m.balance.Keys
    decreases |requests|
  {
    if requests != [] {
      var r := requests[0];
      var moved := Moved(m, r.who, r.delta, r.reason);
      if moved.Ok? {
        MoveKeepsBalanced(m, r.who, r.delta, r.reason);
      }
      AnyRunIsBalanced(if moved.Ok? then moved.value else m, requests[1..]);
    }
  }

  /** The participant and ledger tables. */
  class Wallet {
    var balance: map<Pid, int>
    var lines: seq<Entry>

    function View(): Money
      reads this
    {
      Money(balance, lines)
    }

    /** Everybody registers with an empty account and no ledger. */
    constructor (everyone: set<Pid>)
      ensures Balanced(View())
      ensures balance.Keys == everyone && forall p :: p in everyone ==> balance[p] == 0
    {
      balance := map p | p in everyone :: 0;
      lines := [];
    }

    method Move(who: Pid, delta: int, reason: Reason) returns (r: Result<int, MoveError>)
      modifies this
      ensures match Moved(old(View()), who, delta, reason)
              case Ok(m) => View() == m && r == Ok(m.balance[who])
              case Err(e) => View() == old(View()) && r == Err(e)
      ensures old(Balanced(View())) ==> Balanced(View())
    {
      if who !in balance {
        return Err(NoSuchParticipant);
      }
      var after := balance[who] + delta;
      if after < 0 {
        return Err(NegativeBalance);
      }
      ghost var before := View();
      balance := balance[who := after];
      lines := lines + [Entry(who, delta, after, reason)];
      if Balanced(before) {
        MoveKeepsBalanced(before, who, delta, reason);
      }
      r := Ok(after);
    }

    /** The transaction failed: every write it made is undone. */
    method Rollback(saved: Money)
      modifies this
      ensures View() == saved
    {
      balance, lines := saved.balance, saved.lines;
    }
  }
}
