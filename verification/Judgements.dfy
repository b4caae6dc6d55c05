/** Phase 2 judging: submissions, the judgements made of them, and the transactions on the two tables.
    `coding/submissions.py`, `coding/judging.py` and `coding/rejudge.py`. */
module Judgements {
  import opened Common

  datatype State = Pending | Queued | Running | Done

  /** A row of the judgement table. Its id is its place in the sequence. */
  datatype Row = Row(
    sub: nat,
    attempt: nat,
    superseded: bool,
    state: State,
    job: Option<Job>,
    verdict: Option<Verdict>,
    cancelled: bool,
    ended: Option<Time>)

  const COOLDOWN := 3000

  datatype Refusal = InFlightAlready | CoolingDown

  /** A judgement nobody has sent yet. */
  function NewRow(sub: nat, attempt: nat): Row {
    Row(sub, attempt, false, Pending, None, None, false, None)
  }

  predicate RowsHaveSubs(subs: seq<Pid>, rows: seq<Row>) {
    forall i :: 0 <= i < |rows| ==> rows[i].sub < |subs|
  }

  /** Not finished, and still the submission's current judgement. */
  predicate InFlight(r: Row) {
    r.state != Done && !r.superseded
  }

  predicate InFlightOf(subs: seq<Pid>, r: Row, who: Pid) {
    r.sub < |subs| && subs[r.sub] == who && InFlight(r)
  }

  predicate Busy(subs: seq<Pid>, rows: seq<Row>, who: Pid) {
    exists i :: 0 <= i < |rows| && InFlightOf(subs, rows[i], who)
  }

  /** Under the participant's lock: nothing of theirs in flight, and the cooldown over. */
  function SubmitRefusal(subs: seq<Pid>, rows: seq<Row>, lastEnded: map<Pid, Time>, who: Pid, now: Time)
    : Option<Refusal>
  {
    if Busy(subs, rows, who) then Some(InFlightAlready)
    else if who in lastEnded && lastEnded[who] + COOLDOWN > now then Some(CoolingDown)
    else None
  }

  predicate Claimable(r: Row) {
    r.state == Pending && !r.superseded
  }

  function Sent(r: Row, job: Job): Row {
    r.(state := Queued, job := Some(job))
  }

  /** Still waiting for a result: of that job, or of any when the judge refused the submission outright. */
  predicate Waiting(r: Row, job: Option<Job>) {
    InFlight(r) && (job.Some? ==> r.job == job)
  }

  function Finished(r: Row, verdict: Verdict, now: Time): Row {
    r.(state := Done, verdict := Some(verdict), ended := Some(now))
  }

  predicate OnJob(r: Row, job: Job) {
    r.job == Some(job) && (r.state == Queued || r.state == Running)
  }

  /** A row that waits on this job goes back to waiting to be sent. */
  function Resent(r: Row, job: Job): Row {
    if OnJob(r, job) then r.(state := Pending, job := None) else r
  }

  function Progressed(r: Row, job: Job, running: bool): Row {
    if OnJob(r, job) then r.(state := if running then Running else Queued) else r
  }

  function Cancelled(r: Row, now: Time): Row {
    Finished(r, IE, now).(cancelled := true)
  }

  predicate CurrentOf(rows: seq<Row>, sub: nat, i: nat) {
    i < |rows| && rows[i].sub == sub && !rows[i].superseded
  }

  /** Supersede a submission's current judgement `i` and add a fresh one. */
  function Rejudged(rows: seq<Row>, i: nat): seq<Row>
    requires i < |rows|
  {
    rows[i := rows[i].(superseded := true)] + [NewRow(rows[i].sub, rows[i].attempt + 1)]
  }

  // ----- the world: the two tables, the locks held on them, and the judge ------------------------------

  /** A cancel in progress holds its participant's lock. `todo`: what it read as in flight and has yet to mark. */
  datatype Cancel = Cancel(todo: set<nat>, any: bool, at: Time)

  /** `claimed`: rows a sender holds while it talks to the judge. `refused`: rows whose claim is released, the
      refusal yet to be written. `asked`: polls of a row's job, made at some time. `issued`: what each job was
      sent for. `answers`: what the judge will say of a finished job. */
  datatype World = World(
    subs: seq<Pid>,
    rows: seq<Row>,
    lastEnded: map<Pid, Time>,
    claimed: set<nat>,
    refused: set<nat>,
    cancels: map<Pid, Cancel>,
    asked: set<(nat, Job)>,
    issued: map<Job, nat>,
    answers: set<(Job, Verdict)>,
    clock: Time)

  datatype Step =
    | Submit(who: Pid, now: Time)
    | Claim(row: nat)
    | SendOk(row: nat, job: Job)
    | SendBusy(row: nat)
    | SendRefused(row: nat)
    | WriteRefusal(row: nat, now: Time)
    | Ask(row: nat)
    | Finish(job: Job, verdict: Verdict)
    | Lose(row: nat, job: Job)
    | Report(row: nat, job: Job, running: bool)
    | Record(row: nat, job: Job, verdict: Verdict, now: Time)
    | Rejudge(row: nat)
    | CancelRead(who: Pid, now: Time)
    | CancelOne(who: Pid, row: nat)
    | CancelEnd(who: Pid)

  function Owner(w: World, row: nat): Pid
    requires RowsHaveSubs(w.subs, w.rows) && row < |w.rows|
  {
    w.subs[w.rows[row].sub]
  }

  /** What the locks and the program order allow. Each of submit, write and cancel takes its participant's
      lock; a sender holds the row it claimed; the judge never gives out a job id twice. */
  predicate Enabled(w: World, step: Step)
    requires RowsHaveSubs(w.subs, w.rows)
  {
    match step
    case Submit(who, now) => who !in w.cancels && w.clock <= now
    case Claim(row) => row < |w.rows| && Claimable(w.rows[row]) && row !in w.claimed
    case SendOk(row, job) => row < |w.rows| && row in w.claimed && job !in w.issued
    case SendBusy(row) => row in w.claimed
    case SendRefused(row) => row in w.claimed
    case WriteRefusal(row, now) =>
      && row < |w.rows| && row in w.refused && row !in w.claimed
      && Owner(w, row) !in w.cancels && w.clock <= now
    case Ask(row) => row < |w.rows| && w.rows[row].job.Some? && OnJob(w.rows[row], w.rows[row].job.value)
    case Finish(job, _) => job in w.issued
    case Lose(row, job) => row < |w.rows| && (row, job) in w.asked
    case Report(row, job, _) => row < |w.rows| && (row, job) in w.asked
    case Record(row, job, verdict, now) =>
      && row < |w.rows| && (row, job) in w.asked && (job, verdict) in w.answers
      && Owner(w, row) !in w.cancels && w.clock <= now
    case Rejudge(row) => row < |w.rows| && !w.rows[row].superseded && row !in w.claimed
    case CancelRead(who, now) => who !in w.cancels && w.clock <= now
    case CancelOne(who, row) => row < |w.rows| && who in w.cancels && row in w.cancels[who].todo && row !in w.claimed
    case CancelEnd(who) => who in w.cancels && w.cancels[who].todo == {}
  }

  function WithRow(w: World, row: nat, r: Row): World
    requires row < |w.rows|
  {
    w.(rows := w.rows[row := r])
  }

  /** A result lands only while the row still waits for it, and starts its owner's cooldown. */
  function Written(w: World, row: nat, job: Option<Job>, verdict: Verdict, now: Time): World
    requires RowsHaveSubs(w.subs, w.rows) && row < |w.rows|
  {
    if Waiting(w.rows[row], job)
    then WithRow(w, row, Finished(w.rows[row], verdict, now)).(lastEnded := w.lastEnded[Owner(w, row) := now], clock := now)
    else w.(clock := now)
  }

  function Submitted(w: World, who: Pid, now: Time): Result<World, Refusal> {
    var refusal := SubmitRefusal(w.subs, w.rows, w.lastEnded, who, now);
    if refusal.Some? then Err(refusal.value)
    else Ok(w.(subs := w.subs + [who], rows := w.rows + [NewRow(|w.subs|, 1)], clock := now))
  }

  function Next(w: World, step: Step): World
    requires RowsHaveSubs(w.subs, w.rows) && Enabled(w, step)
  {
    match step
    case Submit(who, now) => if Submitted(w, who, now).Ok? then Submitted(w, who, now).value else w.(clock := now)
    case Claim(row) => w.(claimed := w.claimed + {row})
    case SendOk(row, job) =>
      WithRow(w, row, Sent(w.rows[row], job)).(claimed := w.claimed - {row}, issued := w.issued[job := row])
    case SendBusy(row) => w.(claimed := w.claimed - {row})
    case SendRefused(row) => w.(claimed := w.claimed - {row}, refused := w.refused + {row})
    case WriteRefusal(row, now) => Written(w, row, None, IE, now).(refused := w.refused - {row})
    case Ask(row) => w.(asked := w.asked + {(row, w.rows[row].job.value)})
    case Finish(job, verdict) => w.(answers := w.answers + {(job, verdict)})
    case Lose(row, job) => WithRow(w, row, Resent(w.rows[row], job))
    case Report(row, job, running) => WithRow(w, row, Progressed(w.rows[row], job, running))
    case Record(row, job, verdict, now) => Written(w, row, Some(job), verdict, now)
    case Rejudge(row) => w.(rows := Rejudged(w.rows, row))
    case CancelRead(who, now) =>
      var found := set i | 0 <= i < |w.rows| && InFlightOf(w.subs, w.rows[i], who);
      w.(cancels := w.cancels[who := Cancel(found, found != {}, now)], clock := now)
    case CancelOne(who, row) =>
      var c := w.cancels[who];
      WithRow(w, row, Cancelled(w.rows[row], c.at)).(cancels := w.cancels[who := c.(todo := c.todo - {row})])
    case CancelEnd(who) =>
      var c := w.cancels[who];
      w.(cancels := w.cancels - {who}, lastEnded := if c.any then w.lastEnded[who := c.at] else w.lastEnded)
  }
}
