/** Selling a question and undoing the sale: `engine/auction/sales.py`, `engine/auction/takeback.py`
    and the hint purchases of `engine/coding/hints.py`, as values. */
module Sales {
  import opened Common
  import opened Ledger

  datatype Status = Unsold | Sold | Void

  /** The question's ownership row. A voided row stays until the next sale replaces it. */
  datatype Owner = Owner(who: Pid, price: int, live: bool)

  /** A row of `hint_purchase`. `pos` is the hint's place in the question's ordered hints. */
  datatype Purchase = Purchase(question: Qid, pos: nat, who: Pid, paid: nat)

  datatype Book = Book(
    money: Money,
    owner: map<Qid, Owner>,
    status: map<Qid, Status>,
    purchases: seq<Purchase>)

  /** The price of every hint, in the order they unlock. */
  type HintPrices = map<Qid, seq<nat>>

  datatype SaleError =
    | MoveRefused(error: MoveError)
    | AlreadyOwned
    | NoSuchQuestion
    | NoParticipant
    | NotUnsold
    | NotOwned
    | NotOwner
    | InsufficientBalance
    | NoMoreHints
    | HintOrder

  predicate HasLiveOwner(b: Book, q: Qid) {
    q in b.owner && b.owner[q].live
  }

  predicate Owns(b: Book, who: Pid, q: Qid) {
    HasLiveOwner(b, q) && b.owner[q].who == who
  }

  /** Charge the winner, make ownership sole, mark the question sold. All of it or none of it. */
  function Awarded(b: Book, q: Qid, who: Pid, price: int): Result<Book, SaleError> {
    var charged := Moved(b.money, who, -price, BidWon);
    if charged.Err? then Err(MoveRefused(charged.error))
    else if HasLiveOwner(b, q) then Err(AlreadyOwned)
    else Ok(b.(money := charged.value, owner := b.owner[q := Owner(who, price, true)], status := b.status[q := Sold]))
  }

  /** An organiser hands over a question that found no buyer. */
  function Assigned(b: Book, q: Qid, who: Pid, price: int): Result<Book, SaleError> {
    if q !in b.status then Err(NoSuchQuestion)
    else if b.status[q] != Unsold then Err(NotUnsold)
    else if who !in b.money.balance then Err(NoParticipant)
    else if price > b.money.balance[who] then Err(InsufficientBalance)
    else Awarded(b, q, who, price)
  }

  // ----- hints --------------------------------------------------------------------------

  function Bought(rows: seq<Purchase>, q: Qid, who: Pid): set<nat> {
    set r | r in rows && r.question == q && r.who == who :: r.pos
  }

  /** What one participant has paid for one question's hints. */
  function Paid(rows: seq<Purchase>, q: Qid, who: Pid): nat {
    if rows == [] then 0
    else
      var last := rows[|rows| - 1];
      Paid(rows[..|rows| - 1], q, who) + if last.question == q && last.who == who then last.paid else 0
  }

  /** The rows left when one participant's purchases on one question are deleted. */
  function Without(rows: seq<Purchase>, q: Qid, who: Pid): seq<Purchase> {
    if rows == [] then []
    else
      var last := rows[|rows| - 1];
      Without(rows[..|rows| - 1], q, who) + if last.question == q && last.who == who then [] else [last]
  }

  /** The first hint from `from` on that is not bought, or `total` when every one is. */
  function NextHint(bought: set<nat>, from: nat, total: nat): (n: nat)
    requires from <= total
    ensures from <= n <= total && (n < total ==> n !in bought)
    ensures forall i :: from <= i < n ==> i in bought
    decreases total - from
  {
    if from < total && from in bought then NextHint(bought, from + 1, total) else from
  }

  datatype HintSale = HintSale(book: Book, pos: nat, replayed: bool)

  function WithHint(b: Book, hints: HintPrices, who: Pid, q: Qid, wanted: Option<nat>): Result<HintSale, SaleError> {
    if who !in b.money.balance then Err(NoParticipant)
    else if !Owns(b, who, q) then Err(NotOwner)
    else
      var prices := if q in hints then hints[q] else [];
      var bought := Bought(b.purchases, q, who);
      if wanted.Some? && wanted.value in bought then Ok(HintSale(b, wanted.value, true))
      else
        var next := NextHint(bought, 0, |prices|);
        if next == |prices| then Err(NoMoreHints)
        else if wanted.Some? && wanted.value != next then Err(HintOrder)
        else if prices[next] > b.money.balance[who] then Err(InsufficientBalance)
        else
          var charged := Moved(b.money, who, 0 - prices[next], HintBought);
          if charged.Err? then Err(MoveRefused(charged.error))
          else
            var row := Purchase(q, next, who, prices[next]);
            Ok(HintSale(b.(money := charged.value, purchases := b.purchases + [row]), next, false))
  }

  // ----- taking a question back -----------------------------------------------------------

  function RefundDue(b: Book, own: Owner, q: Qid, refundPrice: bool, refundHints: bool): int {
    (if refundPrice then own.price else 0) + if refundHints then Paid(b.purchases, q, own.who) else 0
  }

  function TakenBack(b: Book, q: Qid, refundPrice: bool, refundHints: bool): Result<Book, SaleError> {
    if q !in b.status then Err(NoSuchQuestion)
    else if !HasLiveOwner(b, q) then Err(NotOwned)
    else
      var own := b.owner[q];
      var refund := RefundDue(b, own, q, refundPrice, refundHints);
      var credited := if refund > 0 then Moved(b.money, own.who, refund, Refund) else Ok(b.money);
      if credited.Err? then Err(MoveRefused(credited.error))
      else
        Ok(Book(
          credited.value,
          b.owner[q := own.(live := false)],
          b.status[q := Unsold],
          if refundHints then Without(b.purchases, q, own.who) else b.purchases))
  }

  // ----- what every operation keeps ---------------------------------------------------------

  /** A question is sold exactly when it has a live owner, who is a participant. */
  ghost predicate SoldIffOwned(b: Book) {
    && (forall q :: q in b.status ==> (b.status[q] == Sold <==> HasLiveOwner(b, q)))
    && (forall q :: q in b.owner ==> q in b.status && b.owner[q].who in b.money.balance)
  }

  /** Whoever bought hints on a question bought its first ones, with none skipped. */
  ghost predicate InOrder(b: Book) {
    forall q, who, i, j :: 0 <= i < j && j in Bought(b.purchases, q, who) ==> i in Bought(b.purchases, q, who)
  }

  ghost predicate Good(b: Book) {
    Balanced(b.money) && SoldIffOwned(b) && InOrder(b)
  }

  lemma PaidAppend(rows: seq<Purchase>, r: Purchase, q: Qid, who: Pid)
    ensures Paid(rows + [r], q, who)
         == Paid(rows, q, who) + if r.question == q && r.who == who then r.paid else 0
    ensures Bought(rows + [r], q, who)
         == Bought(rows, q, who) + if r.question == q && r.who == who then {r.pos} else {}
  {
    assert (rows + [r])[..|rows|] == rows;
    assert forall x :: x in rows + [r] <==> x in rows || x == r;
  }

  /** Deleting one participant's rows on a question forgets exactly those. */
  lemma {:induction false} WithoutForgets(rows: seq<Purchase>, q: Qid, who: Pid, q': Qid, who': Pid)
    ensures Bought(Without(rows, q, who), q', who')
         == if q' == q && who' == who then {} else Bought(rows, q', who')
    ensures Paid(Without(rows, q, who), q', who')
         == if q' == q && who' == who then 0 else Paid(rows, q', who')
  {
    if rows != [] {
      var last := rows[|rows| - 1];
      var front := rows[..|rows| - 1];
      assert rows == front + [last];
      WithoutForgets(front, q, who, q', who');
      PaidAppend(front, last, q', who');
      if last.question == q && last.who == who {
        assert Without(rows, q, who) == Without(front, q, who);
      } else {
        PaidAppend(Without(front, q, who), last, q', who');
      }
    }
  }

  lemma AwardKeepsGood(b: Book, q: Qid, who: Pid, price: int)
    requires Good(b) && Awarded(b, q, who, price).Ok?
    ensures Good(Awarded(b, q, who, price).value)
  {
    MoveKeepsBalanced(b.money, who, -price, BidWon);
  }

  lemma BuyHintKeepsGood(b: Book, hints: HintPrices, who: Pid, q: Qid, wanted: Option<nat>)
    requires Good(b) && WithHint(b, hints, who, q, wanted).Ok?
    ensures Good(WithHint(b, hints, who, q, wanted).value.book)
  {
    var sale := WithHint(b, hints, who, q, wanted).value;
    if !sale.replayed {
      var row := sale.book.purchases[|b.purchases|];
      MoveKeepsBalanced(b.money, who, 0 - row.paid, HintBought);
      forall q', who', i, j | 0 <= i < j && j in Bought(sale.book.purchases, q', who')
        ensures i in Bought(sale.book.purchases, q', who')
      {
        PaidAppend(b.purchases, row, q', who');
      }
    }
  }

  lemma TakeBackKeepsGood(b: Book, q: Qid, refundPrice: bool, refundHints: bool)
    requires Good(b) && TakenBack(b, q, refundPrice, refundHints).Ok?
    ensures Good(TakenBack(b, q, refundPrice, refundHints).value)
  {
    var own := b.owner[q];
    var refund := RefundDue(b, own, q, refundPrice, refundHints);
    if refund > 0 {
      MoveKeepsBalanced(b.money, own.who, refund, Refund);
    }
    var b' := TakenBack(b, q, refundPrice, refundHints).value;
    forall q', who', i, j | 0 <= i < j && j in Bought(b'.purchases, q', who')
      ensures i in Bought(b'.purchases, q', who')
    {
      WithoutForgets(b.purchases, q, own.who, q', who');
    }
  }

  /** When an award is refused: the price is more than the balance, or somebody already owns it. */
  lemma AwardRefusedIff(b: Book, q: Qid, who: Pid, price: int)
    requires who in b.money.balance
    ensures Awarded(b, q, who, price).Err? <==> price > b.money.balance[who] || HasLiveOwner(b, q)
  {
  }

  // ----- the refund round trip ----------------------------------------------------------------

  datatype HintRequest = HintRequest(who: Pid, question: Qid, wanted: Option<nat>)

  /** Any run of hint requests, refused ones included. */
  function BuyHints(b: Book, hints: HintPrices, requests: seq<HintRequest>): Book
    decreases |requests|
  {
    if requests == [] then b
    else
      var n := |requests| - 1;
      var before := BuyHints(b, hints, requests[..n]);
      var sale := WithHint(before, hints, requests[n].who, requests[n].question, requests[n].wanted);
      if sale.Ok? then sale.value.book else before
  }

  /** Whatever hints are bought, a holder's balance plus what they paid on the question stays put. */
  lemma {:induction false} HintsKeepOutlay(b: Book, hints: HintPrices, requests: seq<HintRequest>, w: Pid, q: Qid)
    requires Good(b) && w in b.money.balance
    requires forall r :: r in requests ==> r.who == w ==> r.question == q
    ensures var b' := BuyHints(b, hints, requests);
            && Good(b')
            && b'.money.balance.Keys == b.money.balance.Keys
            && b'.money.balance[w] + Paid(b'.purchases, q, w) == b.money.balance[w] + Paid(b.purchases, q, w)
            && b'.owner == b.owner && b'.status == b.status
    decreases |requests|
  {
    if requests != [] {
      var n := |requests| - 1;
      var r := requests[n];
      HintsKeepOutlay(b, hints, requests[..n], w, q);
      var before := BuyHints(b, hints, requests[..n]);
      if WithHint(before, hints, r.who, r.question, r.wanted).Ok? {
        OneHintKeepsOutlay(before, hints, r, w, q);
      }
      hide WithHint;
      hide Good;
      hide Paid;
    }
  }

  lemma OneHintKeepsOutlay(b: Book, hints: HintPrices, r: HintRequest, w: Pid, q: Qid)
    requires Good(b) && w in b.money.balance && (r.who == w ==> r.question == q)
    requires WithHint(b, hints, r.who, r.question, r.wanted).Ok?
    ensures var b' := WithHint(b, hints, r.who, r.question, r.wanted).value.book;
            && Good(b')
            && b'.money.balance.Keys == b.money.balance.Keys
            && b'.money.balance[w] + Paid(b'.purchases, q, w) == b.money.balance[w] + Paid(b.purchases, q, w)
            && b'.owner == b.owner && b'.status == b.status
  {
    var sale := WithHint(b, hints, r.who, r.question, r.wanted).value;
    BuyHintKeepsGood(b, hints, r.who, r.question, r.wanted);
    if !sale.replayed {
      PaidAppend(b.purchases, sale.book.purchases[|b.purchases|], q, w);
    }
    hide Good;
  }

  /** Award, then any hint purchases, then take back with both refunds: the owner's balance is what it
      was, plus whatever hints of this question an earlier ownership left unrefunded; the hints are
      forgotten; and the question can be sold again to anyone who can pay. */
  lemma RefundRoundTrip(b: Book, hints: HintPrices, w: Pid, q: Qid, price: int, requests: seq<HintRequest>)
    requires Good(b) && q in b.status && price >= 0
    requires Awarded(b, q, w, price).Ok?
    requires forall r :: r in requests ==> r.who == w ==> r.question == q
    ensures var owned := BuyHints(Awarded(b, q, w, price).value, hints, requests);
            && TakenBack(owned, q, true, true).Ok?
            && var back := TakenBack(owned, q, true, true).value;
               back.money.balance.Keys == b.money.balance.Keys
               && back.money.balance[w] == b.money.balance[w] + Paid(b.purchases, q, w)
               && Bought(back.purchases, q, w) == {}
               && (forall q', w' :: q' != q || w' != w ==>
                     Bought(back.purchases, q', w') == Bought(owned.purchases, q', w'))
               && back.status[q] == Unsold && !HasLiveOwner(back, q)
               && (forall w', price' :: w' in back.money.balance && price' <= back.money.balance[w'] ==>
                     Awarded(back, q, w', price').Ok?)
  {
    var sold := Awarded(b, q, w, price).value;
    AwardKeepsGood(b, q, w, price);
    HintsKeepOutlay(sold, hints, requests, w, q);
    hide Good;
    hide BuyHints;
    hide Paid;
    var owned := BuyHints(sold, hints, requests);
    forall q', w'
      ensures Bought(Without(owned.purchases, q, w), q', w')
           == if q' == q && w' == w then {} else Bought(owned.purchases, q', w')
    {
      WithoutForgets(owned.purchases, q, w, q', w');
    }
  }

  /** The balance comes back exactly if and only if no earlier ownership left hints unrefunded. */
  lemma RoundTripExactIff(b: Book, hints: HintPrices, w: Pid, q: Qid, price: int, requests: seq<HintRequest>)
    requires Good(b) && q in b.status && price >= 0
    requires Awarded(b, q, w, price).Ok?
    requires forall r :: r in requests ==> r.who == w ==> r.question == q
    ensures var owned := BuyHints(Awarded(b, q, w, price).value, hints, requests);
            && TakenBack(owned, q, true, true).Ok?
            && w in TakenBack(owned, q, true, true).value.money.balance
            && (TakenBack(owned, q, true, true).value.money.balance[w] == b.money.balance[w]
                <==> Paid(b.purchases, q, w) == 0)
  {
    RefundRoundTrip(b, hints, w, q, price, requests);
  }

  // ----- any run of sales -----------------------------------------------------------------------

  datatype Sale =
    | Winning(question: Qid, who: Pid, price: int)
    | Assigning(question: Qid, who: Pid, price: int)
    | Hinting(request: HintRequest)
    | TakingBack(question: Qid, refundPrice: bool, refundHints: bool)
    | Moving(move: Request)

  function AfterSale(b: Book, hints: HintPrices, sale: Sale): Book {
    match sale
    case Winning(q, who, price) =>
      var r := if q in b.status then Awarded(b, q, who, price) else Err(NoSuchQuestion);
      if r.Ok? then r.value else b
    case Assigning(q, who, price) =>
      var r := Assigned(b, q, who, price);
      if r.Ok? then r.value else b
    case Hinting(h) =>
      var r := WithHint(b, hints, h.who, h.question, h.wanted);
      if r.Ok? then r.value.book else b
    case TakingBack(q, refundPrice, refundHints) =>
      var r := TakenBack(b, q, refundPrice, refundHints);
      if r.Ok? then r.value else b
    case Moving(m) =>
      var r := Moved(b.money, m.who, m.delta, m.reason);
      if r.Ok? then b.(money := r.value) else b
  }

  function AfterSales(b: Book, hints: HintPrices, sales: seq<Sale>): Book
    decreases |sales|
  {
    if sales == [] then b
    else
      var n := |sales| - 1;
      AfterSale(AfterSales(b, hints, sales[..n]), hints, sales[n])
  }

  /** Over any run of sales, hints, refunds and other movements: the books balance, a question is sold
      exactly when it has a live owner, and hints are only ever bought in order. */
  lemma {:induction false} AnyRunIsGood(b: Book, hints: HintPrices, sales: seq<Sale>)
    requires Good(b)
    ensures Good(AfterSales(b, hints, sales))
    decreases |sales|
  {
    if sales != [] {
      var n := |sales| - 1;
      AnyRunIsGood(b, hints, sales[..n]);
      var before := AfterSales(b, hints, sales[..n]);
      match sales[n]
      case Winning(q, who, price) =>
        if q in before.status && Awarded(before, q, who, price).Ok? {
          AwardKeepsGood(before, q, who, price);
        }
      case Assigning(q, who, price) =>
        if Assigned(before, q, who, price).Ok? {
          AwardKeepsGood(before, q, who, price);
        }
      case Hinting(h) =>
        if WithHint(before, hints, h.who, h.question, h.wanted).Ok? {
          BuyHintKeepsGood(before, hints, h.who, h.question, h.wanted);
        }
      case TakingBack(q, refundPrice, refundHints) =>
        if TakenBack(before, q, refundPrice, refundHints).Ok? {
          TakeBackKeepsGood(before, q, refundPrice, refundHints);
        }
      case Moving(m) =>
        if Moved(before.money, m.who, m.delta, m.reason).Ok? {
          MoveKeepsBalanced(before.money, m.who, m.delta, m.reason);
        }
    }
  }

  const START := Book(Money(map[7 := 100], [Entry(7, 100, 100, Grant)]), map[], map[0 := Unsold], [])
  const ONE_HINT: HintPrices := map[0 := [5]]
  const UNREFUNDED := [Winning(0, 7, 10), Hinting(HintRequest(7, 0, None)), TakingBack(0, true, false)]

  /** Sold at 10, a hint bought at 5, and taken back with the price alone refunded. */
  lemma HintLeftUnrefunded()
    ensures var b := AfterSales(START, ONE_HINT, UNREFUNDED);
            b.money.balance == map[7 := 95] && b.purchases == [Purchase(0, 0, 7, 5)]
            && b.owner == map[0 := Owner(7, 10, false)] && b.status == map[0 := Unsold]
  {
    var sold := Awarded(START, 0, 7, 10).value;
    var hinted := WithHint(sold, ONE_HINT, 7, 0, None);
    assert UNREFUNDED[..2][..1] == UNREFUNDED[..1] && UNREFUNDED[..1][..0] == [];
    assert AfterSales(START, ONE_HINT, UNREFUNDED[..1]) == sold;
    assert sold.money.balance == map[7 := 90];
    assert Bought(sold.purchases, 0, 7) == {};
    assert hinted.Ok? && hinted.value.book.money.balance == map[7 := 85];
    assert hinted.value.book.purchases == [Purchase(0, 0, 7, 5)];
    assert AfterSales(START, ONE_HINT, UNREFUNDED[..2]) == hinted.value.book;
  }

  lemma StartIsGood()
    ensures Good(START)
  {
    var lines := START.money.lines;
    EveryReason(Grant);
    assert lines[..0] == [] && lines[..1] == lines;
    assert Net(lines, 7, EVERY_REASON) == 100;
  }

  /** The hint stays unrefunded: sold to the same participant again and taken back with both refunds, the question
      pays for it after all, and the balance is not what it was. */
  lemma UnrefundedHintComesBack()
    ensures var b := AfterSales(START, ONE_HINT, UNREFUNDED);
            && Good(b) && 7 in b.money.balance && b.money.balance[7] == 95 && Awarded(b, 0, 7, 10).Ok?
            && var again := Awarded(b, 0, 7, 10).value;
               TakenBack(again, 0, true, true).Ok?
               && 7 in TakenBack(again, 0, true, true).value.money.balance
               && TakenBack(again, 0, true, true).value.money.balance[7] == 100
  {
    var b := AfterSales(START, ONE_HINT, UNREFUNDED);
    StartIsGood();
    AnyRunIsGood(START, ONE_HINT, UNREFUNDED);
    HintLeftUnrefunded();
    assert Paid([Purchase(0, 0, 7, 5)], 0, 7) == 5;
    RefundRoundTrip(b, ONE_HINT, 7, 0, 10, []);
  }

  // ----- the transactions -----------------------------------------------------------------------

  class SalesDesk {
    const wallet: Wallet
    const hints: HintPrices
    var owner: map<Qid, Owner>
    var status: map<Qid, Status>
    var purchases: seq<Purchase>

    function View(): Book
      reads this, wallet
    {
      Book(wallet.View(), owner, status, purchases)
    }

    constructor (wallet: Wallet, hints: HintPrices, questions: set<Qid>)
      requires Balanced(wallet.View())
      ensures this.wallet == wallet && this.hints == hints
      ensures Good(View())
    {
      this.wallet := wallet;
      this.hints := hints;
      owner := map[];
      status := map q | q in questions :: Unsold;
      purchases := [];
    }

    method Award(q: Qid, who: Pid, price: int) returns (refused: Option<SaleError>)
      modifies this, wallet
      ensures match Awarded(old(View()), q, who, price)
              case Ok(b) => refused == None && View() == b
              case Err(e) => refused == Some(e) && View() == old(View())
    {
      var saved := wallet.View();
      var paid := wallet.Move(who, -price, BidWon);
      if paid.Err? {
        return Some(MoveRefused(paid.error));
      }
      var granted := GrantOwnership(q, who, price);
      if !granted {
        wallet.Rollback(saved);
        return Some(AlreadyOwned);
      }
      status := status[q := Sold];
      refused := None;
    }

    /** The upsert that only ever replaces a voided row. */
    method GrantOwnership(q: Qid, who: Pid, price: int) returns (granted: bool)
      modifies this`owner
      ensures granted == !old(HasLiveOwner(View(), q))
      ensures owner == if granted then old(owner)[q := Owner(who, price, true)] else old(owner)
    {
      if q in owner && owner[q].live {
        return false;
      }
      owner := owner[q := Owner(who, price, true)];
      granted := true;
    }

    method AssignQuestion(q: Qid, who: Pid, price: int) returns (refused: Option<SaleError>)
      modifies this, wallet
      ensures match Assigned(old(View()), q, who, price)
              case Ok(b) => refused == None && View() == b
              case Err(e) => refused == Some(e) && View() == old(View())
    {
      if q !in status {
        return Some(NoSuchQuestion);
      }
      if status[q] != Unsold {
        return Some(NotUnsold);
      }
      if who !in wallet.balance {
        return Some(NoParticipant);
      }
      if price > wallet.balance[who] {
        return Some(InsufficientBalance);
      }
      refused := Award(q, who, price);
    }

    /** Buying the next hint. Sent twice, the second copy is answered without a charge. */
    method BuyHint(who: Pid, q: Qid, wanted: Option<nat>) returns (r: Result<(nat, bool), SaleError>)
      modifies this, wallet
      ensures match WithHint(old(View()), hints, who, q, wanted)
              case Ok(sale) => r == Ok((sale.pos, sale.replayed)) && View() == sale.book
              case Err(e) => r == Err(e) && View() == old(View())
    {
      if who !in wallet.balance {
        return Err(NoParticipant);
      }
      if q !in owner || !owner[q].live || owner[q].who != who {
        return Err(NotOwner);
      }
      var prices := if q in hints then hints[q] else [];
      var bought := Bought(purchases, q, who);
      if wanted.Some? && wanted.value in bought {
        return Ok((wanted.value, true));
      }
      var next := 0;
      while next < |prices| && next in bought
        invariant 0 <= next <= |prices|
        invariant NextHint(bought, 0, |prices|) == NextHint(bought, next, |prices|)
      {
        next := next + 1;
      }
      if next == |prices| {
        return Err(NoMoreHints);
      }
      if wanted.Some? && wanted.value != next {
        return Err(HintOrder);
      }
      if prices[next] > wallet.balance[who] {
        return Err(InsufficientBalance);
      }
      var paid := wallet.Move(who, 0 - prices[next], HintBought);
      if paid.Err? {
        return Err(MoveRefused(paid.error));
      }
      purchases := purchases + [Purchase(q, next, who, prices[next])];
      r := Ok((next, false));
    }

    method TakeBackQuestion(q: Qid, refundPrice: bool, refundHints: bool) returns (refused: Option<SaleError>)
      modifies this, wallet
      ensures match TakenBack(old(View()), q, refundPrice, refundHints)
              case Ok(b) => refused == None && View() == b
              case Err(e) => refused == Some(e) && View() == old(View())
    {
      if q !in status {
        return Some(NoSuchQuestion);
      }
      if q !in owner || !owner[q].live {
        return Some(NotOwned);
      }
      var own, savedOwner, savedPurchases := owner[q], owner, purchases;
      owner := owner[q := own.(live := false)];
      var refunded := if refundPrice then own.price else 0;
      if refundHints {
        refunded := refunded + Paid(purchases, q, own.who);
        purchases := Without(purchases, q, own.who);
      }
      if refunded > 0 {
        var credited := wallet.Move(own.who, refunded, Refund);
        if credited.Err? {
          owner, purchases := savedOwner, savedPurchases;
          return Some(MoveRefused(credited.error));
        }
      }
      status := status[q := Unsold];
      refused := None;
    }
  }
}
