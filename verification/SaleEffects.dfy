/** What awards, hint purchases and take-backs do, told by the rows of the tables alone. */
module SaleEffects {
  import opened Common
  import opened Ledger
  import opened Sales
  import opened Selection

  /** One balance moved by so much, with its line; every other stands. */
  ghost predicate MovedBy(m: Money, m': Money, who: Pid, delta: int, reason: Reason) {
    && who in m.balance && m.balance[who] + delta >= 0
    && m'.balance == m.balance[who := m.balance[who] + delta]
    && m'.lines == m.lines + [Entry(who, delta, m.balance[who] + delta, reason)]
  }

  /** A movement goes through if and only if the participant exists and ends up with no less than nothing. */
  lemma MoveDoes(m: Money, who: Pid, delta: int, reason: Reason)
    ensures var r := Moved(m, who, delta, reason);
            && (r.Ok? <==> who in m.balance && m.balance[who] + delta >= 0)
            && (r.Ok? ==> MovedBy(m, r.value, who, delta, reason))
            && (r.Err? ==> r.error == if who in m.balance then NegativeBalance else NoSuchParticipant)
  {
  }

  /** The starting coins: granted to somebody entitled who has none, taken back from somebody not entitled who has
      them, and left alone otherwise. */
  lemma StartingCoinsDo(m: Money, p: Pid, entitled: bool, amount: nat, held: bool)
    ensures var r := SettleStarting(m, p, entitled, amount, held);
            if amount > 0 && entitled && !held then
              (r.Ok? <==> p in m.balance && m.balance[p] + amount >= 0)
              && (r.Ok? ==> MovedBy(m, r.value, p, amount, Grant))
            else if amount > 0 && !entitled && held then
              (r.Ok? <==> p in m.balance && m.balance[p] >= amount)
              && (r.Ok? ==> MovedBy(m, r.value, p, 0 - amount as int, Clawback))
            else r == Ok(m)
  {
  }

  predicate SomebodyOwns(b: Book, q: Qid) {
    q in b.owner && b.owner[q].live
  }

  /** Sold to this participant at this price, which is all they paid. */
  ghost predicate SoldTo(b: Book, b': Book, q: Qid, who: Pid, price: int) {
    && MovedBy(b.money, b'.money, who, 0 - price, BidWon)
    && b'.owner == b.owner[q := Owner(who, price, true)]
    && b'.status == b.status[q := Sold]
    && b'.purchases == b.purchases
  }

  /** An award goes through if and only if the winner can pay and nobody owns the question. */
  lemma AwardDoes(b: Book, q: Qid, who: Pid, price: int)
    ensures var r := Awarded(b, q, who, price);
            && (r.Ok? <==> who in b.money.balance && b.money.balance[who] >= price && !SomebodyOwns(b, q))
            && (r.Ok? ==> SoldTo(b, r.value, q, who, price))
  {
  }

  /** An organiser's assignment goes through only for a question nobody has bought, and is then such a sale. */
  lemma AssignmentDoes(b: Book, q: Qid, who: Pid, price: int)
    ensures var r := Assigned(b, q, who, price);
            && (r.Ok? <==>
                  && q in b.status && b.status[q] == Unsold && !SomebodyOwns(b, q)
                  && who in b.money.balance && b.money.balance[who] >= price)
            && (r.Ok? ==> SoldTo(b, r.value, q, who, price))
            && (r.Err? ==>
                  match r.error
                  case NoSuchQuestion => q !in b.status
                  case NotUnsold => q in b.status && b.status[q] != Unsold
                  case NoParticipant => who !in b.money.balance
                  case InsufficientBalance => who in b.money.balance && b.money.balance[who] < price
                  case AlreadyOwned => SomebodyOwns(b, q)
                  case _ => false)
  {
  }

  // ----- hints -------------------------------------------------------------------------------------------------

  predicate HasHint(b: Book, who: Pid, q: Qid, pos: nat) {
    exists i :: 0 <= i < |b.purchases|
      && b.purchases[i].question == q && b.purchases[i].who == who && b.purchases[i].pos == pos
  }

  lemma BoughtIff(b: Book, who: Pid, q: Qid, pos: nat)
    ensures pos in Bought(b.purchases, q, who) <==> HasHint(b, who, q, pos)
  {
    if i :| 0 <= i < |b.purchases| && b.purchases[i].question == q && b.purchases[i].who == who
            && b.purchases[i].pos == pos {
      assert b.purchases[i] in b.purchases;
    }
  }

  /** How many hints a question has. */
  function HintCount(hints: HintPrices, q: Qid): nat {
    if q in hints then |hints[q]| else 0
  }

  /** The first hint of the question this participant has not bought. */
  ghost predicate NextFor(b: Book, hints: HintPrices, who: Pid, q: Qid, pos: nat) {
    && pos <= HintCount(hints, q)
    && (forall i :: 0 <= i < pos ==> HasHint(b, who, q, i))
    && (pos < HintCount(hints, q) ==> !HasHint(b, who, q, pos))
  }

  lemma NextHintIs(b: Book, hints: HintPrices, who: Pid, q: Qid)
    ensures NextFor(b, hints, who, q, NextHint(Bought(b.purchases, q, who), 0, HintCount(hints, q)))
  {
    var bought := Bought(b.purchases, q, who);
    forall pos: nat
      ensures pos in bought <==> HasHint(b, who, q, pos)
    {
      BoughtIff(b, who, q, pos);
    }
    hide HasHint;
    hide Bought;
  }

  /** A hint bought: the owner pays that very hint's price, and one row records it. */
  ghost predicate HintSold(b: Book, b': Book, hints: HintPrices, who: Pid, q: Qid, pos: nat) {
    && pos < HintCount(hints, q) && !HasHint(b, who, q, pos)
    && (var price: int := hints[q][pos]; MovedBy(b.money, b'.money, who, -price, HintBought))
    && b'.purchases == b.purchases + [Purchase(q, pos, who, hints[q][pos])]
    && b'.owner == b.owner && b'.status == b.status
  }

  /** Asked for a hint already bought, nothing is charged. Otherwise the next one is sold at its own price, if and only
      if it is the one asked for (or none was named), there is one, and the owner can pay it. */
  lemma HintPurchaseDoes(b: Book, hints: HintPrices, who: Pid, q: Qid, wanted: Option<nat>, next: nat)
    requires NextFor(b, hints, who, q, next)
    ensures var r := WithHint(b, hints, who, q, wanted);
            var mine := who in b.money.balance && SomebodyOwns(b, q) && b.owner[q].who == who;
            var had := wanted.Some? && HasHint(b, who, q, wanted.value);
            && (mine && had ==> r == Ok(HintSale(b, wanted.value, true)))
            && (r.Ok? && !(mine && had) <==>
                  && mine && !had && next < HintCount(hints, q) && (wanted.Some? ==> wanted.value == next)
                  && b.money.balance[who] >= hints[q][next])
            && (r.Ok? && !(mine && had) ==>
                  r.value.pos == next && !r.value.replayed && HintSold(b, r.value.book, hints, who, q, next))
            && (r.Err? ==>
                  match r.error
                  case NoParticipant => who !in b.money.balance
                  case NotOwner => !(SomebodyOwns(b, q) && b.owner[q].who == who)
                  case NoMoreHints => next == HintCount(hints, q)
                  case HintOrder => wanted.Some? && wanted.value != next
                  case InsufficientBalance =>
                    who in b.money.balance && next < HintCount(hints, q) && b.money.balance[who] < hints[q][next]
                  case _ => false)
  {
    NextHintIs(b, hints, who, q);
    if wanted.Some? {
      BoughtIff(b, who, q, wanted.value);
    }
    var found := NextHint(Bought(b.purchases, q, who), 0, HintCount(hints, q));
    assert found == next;
    hide Bought;
    hide NextHint;
    hide HasHint;
  }

  // ----- taking back ---------------------------------------------------------------------------------------------

  /** What one participant paid for hints on a question. */
  ghost function PaidFor(rows: seq<Purchase>, q: Qid, who: Pid): nat {
    if rows == [] then 0
    else (if rows[0].question == q && rows[0].who == who then rows[0].paid else 0) + PaidFor(rows[1..], q, who)
  }

  lemma {:induction false} PaidForJoins(a: seq<Purchase>, b: seq<Purchase>, q: Qid, who: Pid)
    ensures PaidFor(a + b, q, who) == PaidFor(a, q, who) + PaidFor(b, q, who)
  {
    if a == [] {
      assert a + b == b;
    } else {
      assert (a + b)[1..] == a[1..] + b;
      PaidForJoins(a[1..], b, q, who);
    }
  }

  lemma {:induction false} PaidIs(rows: seq<Purchase>, q: Qid, who: Pid)
    ensures Paid(rows, q, who) == PaidFor(rows, q, who)
  {
    if rows != [] {
      var n := |rows| - 1;
      PaidIs(rows[..n], q, who);
      PaidForJoins(rows[..n], [rows[n]], q, who);
      assert rows == rows[..n] + [rows[n]] && [rows[n]][1..] == [];
    }
  }

  /** Their rows on the question are gone and every other row stays, in order. */
  ghost predicate Forgotten(rows: seq<Purchase>, rows': seq<Purchase>, q: Qid, who: Pid) {
    && (forall r :: r in rows' <==> r in rows && !(r.question == q && r.who == who))
    && (forall q', who' :: PaidFor(rows', q', who') == if q' == q && who' == who then 0 else PaidFor(rows, q', who'))
  }

  lemma {:induction false} WithoutForgetsRows(rows: seq<Purchase>, q: Qid, who: Pid)
    ensures forall r :: r in Without(rows, q, who) <==> r in rows && !(r.question == q && r.who == who)
  {
    if rows != [] {
      var n := |rows| - 1;
      WithoutForgetsRows(rows[..n], q, who);
      assert rows == rows[..n] + [rows[n]];
    }
  }

  lemma TakenRowsForgotten(rows: seq<Purchase>, q: Qid, who: Pid)
    ensures Forgotten(rows, Without(rows, q, who), q, who)
  {
    WithoutForgetsRows(rows, q, who);
    forall q', who'
      ensures PaidFor(Without(rows, q, who), q', who')
           == if q' == q && who' == who then 0 else PaidFor(rows, q', who')
    {
      WithoutForgets(rows, q, who, q', who');
      PaidIs(Without(rows, q, who), q', who');
      PaidIs(rows, q', who');
    }
  }

  /** A take-back goes through if and only if the question is owned. The ownership is void at once and the question can
      be sold again. What is refunded is the price if asked for, the hints if asked for, or both; and the hints are
      forgotten exactly when they are refunded. */
  lemma TakeBackDoes(b: Book, q: Qid, refundPrice: bool, refundHints: bool)
    requires SomebodyOwns(b, q) ==> b.owner[q].who in b.money.balance && b.money.balance[b.owner[q].who] >= 0
    ensures var r := TakenBack(b, q, refundPrice, refundHints);
            && (r.Ok? <==> q in b.status && SomebodyOwns(b, q))
            && (r.Err? ==> r.error == if q in b.status then NotOwned else NoSuchQuestion)
            && (r.Ok? ==>
                  && var b', own := r.value, b.owner[q];
                     var refund := (if refundPrice then own.price else 0)
                                   + (if refundHints then PaidFor(b.purchases, q, own.who) else 0);
                  && (if refund > 0 then MovedBy(b.money, b'.money, own.who, refund, Refund) else b'.money == b.money)
                  && b'.owner == b.owner[q := Owner(own.who, own.price, false)]
                  && b'.status == b.status[q := Unsold]
                  && (if refundHints then Forgotten(b.purchases, b'.purchases, q, own.who)
                      else b'.purchases == b.purchases))
  {
    if SomebodyOwns(b, q) {
      PaidIs(b.purchases, q, b.owner[q].who);
      TakenRowsForgotten(b.purchases, q, b.owner[q].who);
    }
    hide Forgotten;
    hide Without;
    hide PaidFor;
    hide Paid;
  }
}
