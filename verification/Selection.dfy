/** Choosing the Phase 2 field, and the starting coins that follow the choice:
    `engine/phase1/selection.py` and the starting balance of `engine/accounts/wallet.py`. */
module Selection {
  import opened Common
  import opened Ledger

  const STARTING: set<Reason> := {Grant, Clawback}

  /** Whether one participant still has their starting coins, read from their own ledger lines. */
  predicate HoldsStartingBalance(lines: seq<Entry>, p: Pid) {
    Net(lines, p, STARTING) > 0
  }

  /** The same question for everybody, in one grouped read of the ledger. */
  function PaidAlready(lines: seq<Entry>): set<Pid> {
    set e | e in lines && e.reason in STARTING && Net(lines, e.who, STARTING) > 0 :: e.who
  }

  lemma NoLinesNoNet(lines: seq<Entry>, p: Pid)
    requires forall e :: e in lines && e.reason in STARTING ==> e.who != p
    ensures Net(lines, p, STARTING) == 0
  {
    if lines != [] {
      NoLinesNoNet(lines[..|lines| - 1], p);
    }
  }

  /** The bulk read and the per-person read answer alike for every participant. */
  lemma BulkReadAgrees(lines: seq<Entry>, p: Pid)
    ensures p in PaidAlready(lines) <==> HoldsStartingBalance(lines, p)
  {
    if HoldsStartingBalance(lines, p) && p !in PaidAlready(lines) {
      NoLinesNoNet(lines, p);
    }
  }

  /** Grant, claw back, or leave alone one participant's starting coins. */
  function SettleStarting(m: Money, p: Pid, entitled: bool, amount: int, held: bool): Result<Money, MoveError> {
    if amount == 0 then Ok(m)
    else if entitled && !held then Moved(m, p, amount, Grant)
    else if !entitled && held then Moved(m, p, -amount, Clawback)
    else Ok(m)
  }

  /** The loop over everyone. The first refusal refuses the whole selection. */
  function SettleAll(m: Money, everyone: seq<Pid>, chosen: set<Pid>, amount: nat, paid: set<Pid>)
    : Result<Money, MoveError>
  {
    if everyone == [] then Ok(m)
    else
      var n := |everyone| - 1;
      match SettleAll(m, everyone[..n], chosen, amount, paid)
      case Err(e) => Err(e)
      case Ok(before) =>
        SettleStarting(before, everyone[n], everyone[n] in chosen, amount, everyone[n] in paid)
  }

  function Select(m: Money, everyone: seq<Pid>, chosen: set<Pid>, amount: nat): Result<Money, MoveError> {
    SettleAll(m, everyone, chosen, amount, PaidAlready(m.lines))
  }

  ghost predicate Distinct(s: seq<Pid>) {
    forall i, j :: 0 <= i < j < |s| ==> s[i] != s[j]
  }

  /** Nobody was ever paid twice, or had more taken back than given. */
  ghost predicate PaidOnce(m: Money, amount: nat) {
    forall p :: p in m.balance ==> Net(m.lines, p, STARTING) == 0 || Net(m.lines, p, STARTING) == amount
  }

  /** Exactly `holders` have one starting amount; everybody else has none. */
  ghost predicate HeldExactlyBy(m: Money, holders: set<Pid>, amount: nat) {
    forall p :: p in m.balance ==> Net(m.lines, p, STARTING) == if p in holders then amount else 0
  }

  lemma SettleOneNets(m: Money, p: Pid, entitled: bool, amount: nat, held: bool, q: Pid)
    requires SettleStarting(m, p, entitled, amount, held).Ok?
    requires held <==> HoldsStartingBalance(m.lines, p)
    requires Net(m.lines, p, STARTING) == 0 || Net(m.lines, p, STARTING) == amount
    ensures var m' := SettleStarting(m, p, entitled, amount, held).value;
            && m'.balance.Keys == m.balance.Keys
            && Net(m'.lines, q, STARTING)
               == if q != p then Net(m.lines, q, STARTING) else if entitled then amount else 0
  {
    var m' := SettleStarting(m, p, entitled, amount, held).value;
    if m'.lines != m.lines {
      NetAppend(m.lines, m'.lines[|m.lines|], q, STARTING);
    }
  }

  lemma {:induction false} SettleAllNets(
    m: Money, everyone: seq<Pid>, chosen: set<Pid>, amount: nat, paid: set<Pid>, q: Pid)
    requires Distinct(everyone)
    requires SettleAll(m, everyone, chosen, amount, paid).Ok?
    requires forall p :: p in everyone ==> (p in paid <==> HoldsStartingBalance(m.lines, p))
    requires forall p :: p in everyone ==> Net(m.lines, p, STARTING) == 0 || Net(m.lines, p, STARTING) == amount
    ensures var m' := SettleAll(m, everyone, chosen, amount, paid).value;
            && m'.balance.Keys == m.balance.Keys
            && Net(m'.lines, q, STARTING)
               == if q !in everyone then Net(m.lines, q, STARTING) else if q in chosen then amount else 0
    decreases |everyone|
  {
    if everyone != [] {
      var n := |everyone| - 1;
      var p := everyone[n];
      assert everyone == everyone[..n] + [p];
      SettleAllNets(m, everyone[..n], chosen, amount, paid, q);
      SettleAllNets(m, everyone[..n], chosen, amount, paid, p);
      var before := SettleAll(m, everyone[..n], chosen, amount, paid).value;
      SettleOneNets(before, p, p in chosen, amount, p in paid, q);
    }
  }

  /** A selection that goes through leaves the coins with exactly the chosen participants. */
  lemma SelectionPaysTheChosen(m: Money, everyone: seq<Pid>, chosen: set<Pid>, amount: nat)
    requires Distinct(everyone) && (forall p :: p in everyone <==> p in m.balance)
    requires PaidOnce(m, amount)
    requires Select(m, everyone, chosen, amount).Ok?
    ensures HeldExactlyBy(Select(m, everyone, chosen, amount).value, chosen, amount)
    ensures Select(m, everyone, chosen, amount).value.balance.Keys == m.balance.Keys
  {
    var m' := Select(m, everyone, chosen, amount).value;
    forall p | p in everyone
      ensures p in PaidAlready(m.lines) <==> HoldsStartingBalance(m.lines, p)
    {
      BulkReadAgrees(m.lines, p);
    }
    SettleAllNets(m, everyone, chosen, amount, PaidAlready(m.lines), 0);
    forall p | p in m'.balance
      ensures Net(m'.lines, p, STARTING) == if p in chosen then amount else 0
    {
      SettleAllNets(m, everyone, chosen, amount, PaidAlready(m.lines), p);
    }
  }

  lemma {:induction false} NothingToSettle(
    m: Money, everyone: seq<Pid>, chosen: set<Pid>, amount: nat, paid: set<Pid>)
    requires forall p :: p in everyone ==> (p in paid <==> p in chosen)
    ensures SettleAll(m, everyone, chosen, amount, paid) == Ok(m)
    decreases |everyone|
  {
    if everyone != [] {
      NothingToSettle(m, everyone[..|everyone| - 1], chosen, amount, paid);
    }
  }

  /** Choosing the same people again moves nothing: no balance and no ledger line. */
  lemma RepeatedSelectionMovesNothing(m: Money, everyone: seq<Pid>, chosen: set<Pid>, amount: nat)
    requires forall p :: p in everyone ==> p in m.balance
    requires HeldExactlyBy(m, chosen, amount) && amount > 0
    ensures Select(m, everyone, chosen, amount) == Ok(m)
  {
    forall p | p in everyone
      ensures p in PaidAlready(m.lines) <==> p in chosen
    {
      BulkReadAgrees(m.lines, p);
    }
    NothingToSettle(m, everyone, chosen, amount, PaidAlready(m.lines));
  }

  // ----- whole runs -------------------------------------------------------------------

  /** A selection, any other movement of money, or a registration with or without coins. */
  datatype Step =
    | Choose(everyone: seq<Pid>, chosen: set<Pid>)
    | Other(request: Request)
    | Enrol(who: Pid, entitled: bool)

  /** The books, and who ought to be holding the starting coins. */
  datatype Course = Course(money: Money, holders: set<Pid>)

  ghost predicate Allowed(c: Course, step: Step) {
    match step
    case Choose(everyone, _) =>
      Distinct(everyone) && forall p :: p in everyone <==> p in c.money.balance
    case Other(r) => r.reason !in STARTING
    case Enrol(who, _) => who !in c.money.balance
  }

  function Next(c: Course, amount: nat, step: Step): Course {
    match step
    case Choose(everyone, chosen) =>
      var picked := Select(c.money, everyone, chosen, amount);
      if picked.Ok? then Course(picked.value, chosen) else c
    case Other(r) =>
      var moved := Moved(c.money, r.who, r.delta, r.reason);
      if moved.Ok? then c.(money := moved.value) else c
    case Enrol(who, entitled) =>
      var joined := Money(c.money.balance[who := 0], c.money.lines);
      var paid := SettleStarting(joined, who, entitled, amount, false);
      if paid.Ok? then Course(paid.value, if entitled then c.holders + {who} else c.holders - {who}) else c
  }

  function Run(c: Course, amount: nat, steps: seq<Step>): Course
    decreases |steps|
  {
    if steps == [] then c
    else
      var n := |steps| - 1;
      Next(Run(c, amount, steps[..n]), amount, steps[n])
  }

  ghost predicate AllAllowed(c: Course, amount: nat, steps: seq<Step>)
    decreases |steps|
  {
    steps == [] ||
    var n := |steps| - 1;
    AllAllowed(c, amount, steps[..n]) && Allowed(Run(c, amount, steps[..n]), steps[n])
  }

  /** Ledger lines only ever belong to registered participants. */
  ghost predicate Registered(m: Money) {
    forall e :: e in m.lines ==> e.who in m.balance
  }

  ghost predicate Inv(c: Course, amount: nat) {
    HeldExactlyBy(c.money, c.holders, amount) && Registered(c.money)
  }

  lemma SettleAllRegistered(m: Money, everyone: seq<Pid>, chosen: set<Pid>, amount: nat, paid: set<Pid>)
    requires Registered(m)
    requires SettleAll(m, everyone, chosen, amount, paid).Ok?
    ensures Registered(SettleAll(m, everyone, chosen, amount, paid).value)
    ensures SettleAll(m, everyone, chosen, amount, paid).value.balance.Keys == m.balance.Keys
  {
  }

  lemma StepKeepsInv(c: Course, amount: nat, step: Step)
    requires amount > 0 && Inv(c, amount) && Allowed(c, step)
    ensures Inv(Next(c, amount, step), amount)
  {
    match step
    case Choose(everyone, chosen) =>
      if Select(c.money, everyone, chosen, amount).Ok? {
        SelectionPaysTheChosen(c.money, everyone, chosen, amount);
        SettleAllRegistered(c.money, everyone, chosen, amount, PaidAlready(c.money.lines));
      }
    case Other(r) =>
      var moved := Moved(c.money, r.who, r.delta, r.reason);
      if moved.Ok? {
        forall p | p in c.money.balance
          ensures Net(moved.value.lines, p, STARTING) == Net(c.money.lines, p, STARTING)
        {
          NetAppend(c.money.lines, moved.value.lines[|c.money.lines|], p, STARTING);
        }
      }
    case Enrol(who, entitled) =>
      var joined := Money(c.money.balance[who := 0], c.money.lines);
      NoLinesNoNet(c.money.lines, who);
      forall p | p in joined.balance
        ensures Net(Next(c, amount, step).money.lines, p, STARTING)
             == if p != who then Net(c.money.lines, p, STARTING) else if entitled then amount else 0
      {
        SettleOneNets(joined, who, entitled, amount, false, p);
      }
  }

  /** After any run of selections, purchases, refunds, adjustments and registrations, the participants
      whose grant lines net positive are exactly the last set that went through (and whoever was
      enrolled with coins since), and each nets exactly one amount. */
  lemma {:induction false} CoinsFollowTheSelection(c: Course, amount: nat, steps: seq<Step>)
    requires amount > 0 && Inv(c, amount) && AllAllowed(c, amount, steps)
    ensures Inv(Run(c, amount, steps), amount)
    ensures var c' := Run(c, amount, steps);
            forall p :: p in c'.money.balance ==> (HoldsStartingBalance(c'.money.lines, p) <==> p in c'.holders)
    decreases |steps|
  {
    if steps != [] {
      var n := |steps| - 1;
      CoinsFollowTheSelection(c, amount, steps[..n]);
      StepKeepsInv(Run(c, amount, steps[..n]), amount, steps[n]);
    }
  }

  // ----- the transaction ----------------------------------------------------------------

  class Phase1Selection {
    const wallet: Wallet
    /** The `advanced` column of each participant's `p1_advancement` row. */
    var advanced: map<Pid, bool>

    constructor (wallet: Wallet)
      ensures this.wallet == wallet && advanced == map[]
    {
      this.wallet := wallet;
      advanced := map[];
    }

    method SettleStartingBalance(p: Pid, entitled: bool, amount: int, held: bool)
      returns (refused: Option<MoveError>)
      modifies wallet
      ensures match SettleStarting(old(wallet.View()), p, entitled, amount, held)
              case Ok(m) => refused == None && wallet.View() == m
              case Err(e) => refused == Some(e) && wallet.View() == old(wallet.View())
    {
      if amount == 0 {
        return None;
      }
      if entitled && !held {
        var r := wallet.Move(p, amount, Grant);
        return if r.Err? then Some(r.error) else None;
      } else if !entitled && held {
        var r := wallet.Move(p, -amount, Clawback);
        return if r.Err? then Some(r.error) else None;
      }
      refused := None;
    }

    /** Leaves exactly `chosen` advanced, each with one starting amount; or, refused, leaves everything as it was. */
    method SetAdvancement(everyone: seq<Pid>, chosen: set<Pid>, amount: nat)
      returns (refused: Option<MoveError>)
      modifies this, wallet
      ensures match Select(old(wallet.View()), everyone, chosen, amount)
              case Err(e) => refused == Some(e) && wallet.View() == old(wallet.View()) && advanced == old(advanced)
              case Ok(m) =>
                && refused == None && wallet.View() == m
                && advanced.Keys == old(advanced.Keys) + set p | p in everyone
                && (forall p :: p in everyone ==> p in advanced && advanced[p] == (p in chosen))
                && (forall p :: p in old(advanced) && p !in everyone ==> p in advanced && advanced[p] == old(advanced)[p])
    {
      var saved, savedRows := wallet.View(), advanced;
      var paid := PaidAlready(wallet.lines);
      var i := 0;
      while i < |everyone|
        invariant 0 <= i <= |everyone|
        invariant SettleAll(saved, everyone[..i], chosen, amount, paid) == Ok(wallet.View())
        invariant advanced.Keys == savedRows.Keys + set p | p in everyone[..i]
        invariant forall p :: p in everyone[..i] ==> advanced[p] == (p in chosen)
        invariant forall p :: p in savedRows && p !in everyone[..i] ==> advanced[p] == savedRows[p]
      {
        var p := everyone[i];
        assert everyone[..i + 1][..i] == everyone[..i];
        advanced := advanced[p := p in chosen];
        refused := SettleStartingBalance(p, p in chosen, amount, p in paid);
        if refused.Some? {
          SettleAllPrefix(saved, everyone, chosen, amount, paid, i + 1);
          wallet.Rollback(saved);
          advanced := savedRows;
          return;
        }
        i := i + 1;
      }
      assert everyone[..i] == everyone;
      refused := None;
    }
  }

  lemma {:induction false} SettleAllPrefix(
    m: Money, everyone: seq<Pid>, chosen: set<Pid>, amount: nat, paid: set<Pid>, k: nat)
    requires k <= |everyone|
    requires SettleAll(m, everyone[..k], chosen, amount, paid).Err?
    ensures SettleAll(m, everyone, chosen, amount, paid) == SettleAll(m, everyone[..k], chosen, amount, paid)
    decreases |everyone|
  {
    if k == |everyone| {
      assert everyone[..k] == everyone;
    } else {
      var n := |everyone| - 1;
      assert everyone[..n][..k] == everyone[..k];
      SettleAllPrefix(m, everyone[..n], chosen, amount, paid, k);
    }
  }
}
