/** Section B: hack attempts, the judge's answers to them, and what they score.
    `phase1/hacking.py` and `phase1/hack_jobs.py`. */
module Hacking {
  import opened Common

  datatype State = Pending | Queued | Running | Done

  /** A row of the attempt table. Its id is its place in the sequence. */
  datatype Attempt = Attempt(
    who: Pid,
    question: Qid,
    state: State,
    job: Option<Job>,
    hacked: Option<bool>,
    points: int,
    ended: Option<Time>)

  /** What the judge says of an input: whether it obeys the constraints, and whether it broke the code. */
  datatype HackResult = HackResult(valid: bool, hacked: Option<bool>)

  datatype Price = Price(hack: int, penalty: int)

  const COOLDOWN := 3000

  datatype Refusal = InFlight | CoolingDown

  /** The newest attempt of a participant. */
  function Newest(attempts: seq<Attempt>, who: Pid): (i: Option<nat>)
    ensures i.None? ==> forall k :: 0 <= k < |attempts| ==> attempts[k].who != who
    ensures i.Some? ==> i.value < |attempts| && attempts[i.value].who == who
    ensures i.Some? ==> forall k :: i.value < k < |attempts| ==> attempts[k].who != who
  {
    if attempts == [] then None
    else
      var n := |attempts| - 1;
      if attempts[n].who == who then Some(n) else Newest(attempts[..n], who)
  }

  /** Under the participant's lock: the newest attempt is settled, and its cooldown over. */
  function SubmitRefusal(attempts: seq<Attempt>, who: Pid, now: Time): Option<Refusal> {
    var newest := Newest(attempts, who);
    if newest.None? then None
    else
      var last := attempts[newest.value];
      if last.state != Done then Some(InFlight)
      else if last.ended.Some? && last.ended.value + COOLDOWN > now then Some(CoolingDown)
      else None
  }

  function Fresh(who: Pid, question: Qid): Attempt {
    Attempt(who, question, Pending, None, None, 0, None)
  }

  /** The attempt closed without an outcome, worth no points either way. */
  function Broken(a: Attempt, now: Time): Attempt {
    a.(state := Done, hacked := None, ended := Some(now))
  }

  predicate OnJob(a: Attempt, job: Job) {
    a.job == Some(job) && (a.state == Queued || a.state == Running)
  }

  predicate Hit(a: Attempt, who: Pid, question: Qid) {
    a.who == who && a.question == question && a.hacked == Some(true)
  }

  predicate AnyHit(attempts: seq<Attempt>, who: Pid, question: Qid) {
    exists i :: 0 <= i < |attempts| && Hit(attempts[i], who, question)
  }

  /** What an attempt is worth, given whether its author has `already` hacked the question. */
  function Points(price: Price, result: HackResult, already: bool): int {
    if !result.valid then 0
    else if result.hacked == Some(false) then 0 - price.penalty
    else if result.hacked != Some(true) then 0
    else if already then 0
    else price.hack
  }

  function Settled(a: Attempt, price: Price, result: HackResult, already: bool, now: Time): Attempt {
    a.(state := Done, hacked := result.hacked, points := Points(price, result, already), ended := Some(now))
  }

  // ----- the world ---------------------------------------------------------------------------------

  /** A settle in progress holds its row, and has read whether the participant had hacked the question. */
  datatype Settling = Settling(result: HackResult, already: bool)

  /** `claimed`: rows a sender holds. `orphans`: attempts whose copy of the code was removed. `asked`: polls of
      a row's job. `issued`: what each job was sent for. `answers`: what the judge says of a finished job. */
  datatype World = World(
    attempts: seq<Attempt>,
    claimed: set<nat>,
    orphans: set<nat>,
    settling: map<nat, Settling>,
    asked: set<(nat, Job)>,
    issued: map<Job, nat>,
    answers: set<(Job, HackResult)>)

  datatype Step =
    | Submit(who: Pid, question: Qid, now: Time)
    | RemoveCopy(row: nat)
    | Claim(row: nat)
    | SendOk(row: nat, job: Job)
    | SendBusy(row: nat)
    | SendRefused(row: nat, now: Time)
    | Ask(row: nat)
    | Finish(job: Job, result: HackResult)
    | Lose(row: nat, job: Job)
    | Report(row: nat, job: Job, running: bool)
    | SettleRead(row: nat, job: Job, result: HackResult)
    | SettleWrite(row: nat, now: Time)

  /** What the judge promises of its results: an input that broke the constraints was not run. */
  predicate Honest(result: HackResult) {
    !result.valid ==> result.hacked.None?
  }

  predicate Enabled(w: World, step: Step) {
    match step
    case Submit(_, _, _) => true
    case RemoveCopy(row) => row < |w.attempts|
    case Claim(row) => row < |w.attempts| && w.attempts[row].state == Pending && row !in w.claimed && row !in w.settling
    case SendOk(row, job) => row < |w.attempts| && row in w.claimed && job !in w.issued
    case SendBusy(row) => row in w.claimed
    case SendRefused(row, _) => row < |w.attempts| && row in w.claimed
    case Ask(row) => row < |w.attempts| && w.attempts[row].job.Some? && OnJob(w.attempts[row], w.attempts[row].job.value)
    case Finish(job, result) => job in w.issued && Honest(result)
    case Lose(row, job) => row < |w.attempts| && (row, job) in w.asked && row !in w.settling
    case Report(row, job, _) => row < |w.attempts| && (row, job) in w.asked && row !in w.settling
    case SettleRead(row, job, result) =>
      && row < |w.attempts| && (row, job) in w.asked && (job, result) in w.answers
      && row !in w.settling && row !in w.claimed
      && w.attempts[row].job == Some(job) && w.attempts[row].state != Done
    case SettleWrite(row, _) => row < |w.attempts| && row in w.settling
  }

  function WithRow(w: World, row: nat, a: Attempt): World
    requires row < |w.attempts|
  {
    w.(attempts := w.attempts[row := a])
  }

  function Next(prices: Qid -> Price, w: World, step: Step): World
    requires Enabled(w, step)
  {
    match step
    case Submit(who, question, now) =>
      if SubmitRefusal(w.attempts, who, now).Some? then w else w.(attempts := w.attempts + [Fresh(who, question)])
    case RemoveCopy(row) => w.(orphans := w.orphans + {row})
    case Claim(row) =>
      // With no code to send the sender fails, and its transaction is undone.
      if row in w.orphans then w else w.(claimed := w.claimed + {row})
    case SendOk(row, job) =>
      WithRow(w, row, w.attempts[row].(state := Queued, job := Some(job)))
        .(claimed := w.claimed - {row}, issued := w.issued[job := row])
    case SendBusy(row) => w.(claimed := w.claimed - {row})
    case SendRefused(row, now) => WithRow(w, row, Broken(w.attempts[row], now)).(claimed := w.claimed - {row})
    case Ask(row) => w.(asked := w.asked + {(row, w.attempts[row].job.value)})
    case Finish(job, result) => w.(answers := w.answers + {(job, result)})
    case Lose(row, job) =>
      if OnJob(w.attempts[row], job) then WithRow(w, row, w.attempts[row].(state := Pending, job := None)) else w
    case Report(row, job, running) =>
      if OnJob(w.attempts[row], job)
      then WithRow(w, row, w.attempts[row].(state := if running then Running else Queued))
      else w
    case SettleRead(row, _, result) =>
      var a := w.attempts[row];
      w.(settling := w.settling[row := Settling(result, AnyHit(w.attempts, a.who, a.question))])
    case SettleWrite(row, now) =>
      var a, s := w.attempts[row], w.settling[row];
      WithRow(w, row, Settled(a, prices(a.question), s.result, s.already, now)).(settling := w.settling - {row})
  }

  // ----- what a participant has earned on a question -----------------------------------------------------

  function Total(attempts: seq<Attempt>, who: Pid, question: Qid): int {
    if attempts == [] then 0
    else
      var n := |attempts| - 1;
      Total(attempts[..n], who, question)
      + if attempts[n].who == who && attempts[n].question == question then attempts[n].points else 0
  }

  predicate Missed(a: Attempt, who: Pid, question: Qid) {
    a.who == who && a.question == question && a.hacked == Some(false)
  }

  function Misses(attempts: seq<Attempt>, who: Pid, question: Qid): nat {
    if attempts == [] then 0
    else
      var n := |attempts| - 1;
      Misses(attempts[..n], who, question) + if Missed(attempts[n], who, question) then 1 else 0
  }

  /** The hack's points once if any attempt succeeded, less one penalty for each that failed. */
  function Earned(attempts: seq<Attempt>, price: Price, who: Pid, question: Qid): int {
    (if AnyHit(attempts, who, question) then price.hack else 0) - price.penalty * Misses(attempts, who, question)
  }

  lemma {:induction false} TotalWithRow(attempts: seq<Attempt>, i: nat, a: Attempt, who: Pid, question: Qid)
    requires i < |attempts| && a.who == attempts[i].who && a.question == attempts[i].question
    ensures var mine := a.who == who && a.question == question;
            && Total(attempts[i := a], who, question)
               == Total(attempts, who, question) + (if mine then a.points - attempts[i].points else 0)
            && Misses(attempts[i := a], who, question) + (if Missed(attempts[i], who, question) then 1 else 0)
               == Misses(attempts, who, question) + (if Missed(a, who, question) then 1 else 0)
  {
    var n := |attempts| - 1;
    if i == n {
      assert attempts[i := a][..n] == attempts[..n];
    } else {
      assert attempts[i := a][..n] == attempts[..n][i := a];
      TotalWithRow(attempts[..n], i, a, who, question);
    }
  }

  lemma TotalAppend(attempts: seq<Attempt>, a: Attempt, who: Pid, question: Qid)
    requires a.points == 0 && a.hacked.None?
    ensures Total(attempts + [a], who, question) == Total(attempts, who, question)
    ensures Misses(attempts + [a], who, question) == Misses(attempts, who, question)
    ensures AnyHit(attempts + [a], who, question) == AnyHit(attempts, who, question)
  {
    assert (attempts + [a])[..|attempts|] == attempts;
    if AnyHit(attempts, who, question) {
      var i :| 0 <= i < |attempts| && Hit(attempts[i], who, question);
      assert Hit((attempts + [a])[i], who, question);
    }
  }

  lemma HitWithRow(attempts: seq<Attempt>, i: nat, a: Attempt, who: Pid, question: Qid)
    requires i < |attempts| && attempts[i].hacked.None?
    ensures AnyHit(attempts[i := a], who, question) <==> AnyHit(attempts, who, question) || Hit(a, who, question)
  {
    if AnyHit(attempts, who, question) {
      var k :| 0 <= k < |attempts| && Hit(attempts[k], who, question);
      assert Hit(attempts[i := a][k], who, question);
    }
    if Hit(a, who, question) {
      assert Hit(attempts[i := a][i], who, question);
    }
  }
}
