/** Section A closing, and its validator-graded answers being scored.
    `phase1/puzzles.py`, `contest/phases.py` and `phase1/validator_jobs.py` */
module Validation {
  import opened Common
  import opened Answers

  datatype Phase = Registration | Puzzles | HackingRound | Review | Auction1 | Coding1 | Auction2 | Final | Ended

  function NextPhase(phase: Phase): Option<Phase> {
    match phase
    case Registration => Some(Puzzles)
    case Puzzles => Some(HackingRound)
    case HackingRound => Some(Review)
    case Review => Some(Auction1)
    case Auction1 => Some(Coding1)
    case Coding1 => Some(Auction2)
    case Auction2 => Some(Final)
    case Final => Some(Ended)
    case Ended => None
  }

  datatype Grading = Auto | ByValidator | Manual

  /** A puzzle as published. `key` scores an answer of an auto-graded one. */
  datatype Question = Question(
    grading: Grading,
    published: bool,
    hasValidator: bool,
    perEntry: Option<int>,
    maxEntries: int,
    telling: Telling,
    key: seq<string> -> int)

  datatype ScoreState = Pending | Queued | Scored | Failed

  /** One participant's answer to one question, as its raw entries. */
  datatype Row = Row(
    answer: Option<seq<string>>,
    score: Option<int>,
    state: Option<ScoreState>,
    job: Option<Job>)

  type Key = (Pid, Qid)

  /** What a validator scores. */
  function EntriesOf(q: Question, row: Row): seq<string> {
    if row.answer.None? then [] else Distinct(q.telling, row.answer.value, q.maxEntries)
  }

  predicate Validated(questions: map<Qid, Question>, key: Key) {
    key.1 in questions && questions[key.1].grading == ByValidator && questions[key.1].published
  }

  // ----- saving --------------------------------------------------------------------------------------

  predicate SectionOpen(phase: Phase, endsAt: Option<Time>, now: Time) {
    phase == Puzzles && !(endsAt.Some? && endsAt.value <= now)
  }

  /** More time for the current round, from its deadline or from now if that has passed. */
  function Extended(endsAt: Option<Time>, minutes: int, now: Time): Option<Time> {
    if endsAt.None? then None
    else Some((if endsAt.value < now then now else endsAt.value) + minutes * 60 * SECOND)
  }

  const BLANK := Row(None, None, None, None)

  /** The row after a save; with no answer given, the old one. An auto-graded answer carries its score. */
  function Saved(q: Question, row: Option<Row>, answer: Option<seq<string>>): Row {
    var before := if row.Some? then row.value else BLANK;
    if answer.None? then before
    else before.(answer := answer, score := if q.grading == Auto then Some(q.key(answer.value)) else None)
  }

  // ----- scoring -------------------------------------------------------------------------------------

  /** What the validator said of each entry, or that it could not be run. */
  datatype Reply = CouldNotRun | Checked(valid: seq<bool>)

  function Accepted(valid: seq<bool>): (n: nat)
    ensures n <= |valid|
  {
    if valid == [] then 0
    else
      var last := |valid| - 1;
      Accepted(valid[..last]) + if valid[last] then 1 else 0
  }

  function PerEntry(q: Question): int {
    if q.perEntry.Some? then q.perEntry.value else 0
  }

  /** The rows with each unscored answer of a validator-graded question pending. */
  function AllQueued(questions: map<Qid, Question>, rows: map<Key, Row>): (queued: map<Key, Row>)
    ensures queued.Keys == rows.Keys
    ensures forall key :: key in rows ==>
              queued[key] == if Validated(questions, key) && rows[key].state != Some(Scored)
                             then rows[key].(state := Some(Pending), job := None) else rows[key]
  {
    map key | key in rows ::
      if Validated(questions, key) && rows[key].state != Some(Scored)
      then rows[key].(state := Some(Pending), job := None) else rows[key]
  }

  predicate WaitsOn(row: Row, job: Job) {
    row.state == Some(Queued) && row.job == Some(job)
  }

  /** A result is recorded only while the answer still waits on that job. A failed validator flags it. */
  function Collected(q: Question, row: Row, job: Job, reply: Reply): Row {
    if !WaitsOn(row, job) then row
    else
      match reply
      case CouldNotRun => row.(state := Some(Failed))
      case Checked(valid) => row.(state := Some(Scored), score := Some(Accepted(valid) * PerEntry(q)))
  }

  function Lost(row: Row, job: Job): Row {
    if WaitsOn(row, job) then row.(state := Some(Pending), job := None) else row
  }

  // ----- the world -----------------------------------------------------------------------------------

  datatype Batch = Batch(key: Key, entries: seq<string>)

  /** `saving`: saves in progress, each holding the contest row shared. `claimed`: answers a sender holds.
      `asked`: polls made. `issued`: what each job was sent. `replies`: what the judge answers for it. */
  datatype World = World(
    phase: Phase,
    endsAt: Option<Time>,
    saving: map<nat, Key>,
    rows: map<Key, Row>,
    claimed: set<Key>,
    asked: set<(Key, Job)>,
    issued: map<Job, Batch>,
    replies: map<Job, Reply>)

  datatype Step =
    | SaveBegin(tx: nat, key: Key, allowed: bool, now: Time)
    | SaveCommit(tx: nat, answer: Option<seq<string>>)
    | SaveAbort(tx: nat)
    | Advance(from: Phase, endsAt: Option<Time>)
    | Extend(minutes: int, now: Time)
    | Claim(key: Key)
    | SendNothing(key: Key)
    | SendOk(key: Key, job: Job)
    | SendFailed(key: Key)
    | Ask(key: Key)
    | Answer(job: Job, reply: Reply)
    | Lose(key: Key, job: Job)
    | Collect(key: Key, job: Job)

  /** Whether sending this answer would give the judge nothing to do. */
  predicate NothingToCheck(q: Question, row: Row) {
    !q.hasValidator || EntriesOf(q, row) == []
  }

  /** What the locks, the program order and the judge allow. No phase change or extension comes
      while a save is in progress. A validator that ran answered for every entry it was sent. */
  predicate Enabled(questions: map<Qid, Question>, w: World, step: Step) {
    match step
    case SaveBegin(tx, key, allowed, now) =>
      tx !in w.saving && SectionOpen(w.phase, w.endsAt, now) && allowed && key.1 in questions && questions[key.1].published
    case SaveCommit(tx, _) => tx in w.saving && w.saving[tx].1 in questions
    case SaveAbort(tx) => tx in w.saving
    case Advance(_, _) => w.saving == map[]
    case Extend(_, _) => w.saving == map[]
    case Claim(key) => key in w.rows && w.rows[key].state == Some(Pending) && key !in w.claimed
    case SendNothing(key) =>
      key in w.claimed && key in w.rows && key.1 in questions && NothingToCheck(questions[key.1], w.rows[key])
    case SendOk(key, job) =>
      && key in w.claimed && key in w.rows && key.1 in questions && !NothingToCheck(questions[key.1], w.rows[key])
      && job !in w.issued
    case SendFailed(key) => key in w.claimed
    case Ask(key) => key in w.rows && w.rows[key].job.Some? && WaitsOn(w.rows[key], w.rows[key].job.value)
    case Answer(job, reply) =>
      && job in w.issued && job !in w.replies
      && (reply.Checked? ==> |reply.valid| == |w.issued[job].entries|)
    case Lose(key, job) => key in w.rows && (key, job) in w.asked
    case Collect(key, job) => key in w.rows && key.1 in questions && (key, job) in w.asked && job in w.replies
  }

  function Next(questions: map<Qid, Question>, w: World, step: Step): World
    requires Enabled(questions, w, step)
  {
    match step
    case SaveBegin(tx, key, _, _) => w.(saving := w.saving[tx := key])
    case SaveCommit(tx, answer) =>
      var key := w.saving[tx];
      var row := if key in w.rows then Some(w.rows[key]) else None;
      w.(saving := w.saving - {tx}, rows := w.rows[key := Saved(questions[key.1], row, answer)])
    case SaveAbort(tx) => w.(saving := w.saving - {tx})
    case Advance(from, endsAt) =>
      // Refused when the phase is no longer the one the organiser confirmed.
      if w.phase != from || NextPhase(from).None? then w
      else
        w.(phase := NextPhase(from).value, endsAt := endsAt,
           rows := if from == Puzzles then AllQueued(questions, w.rows) else w.rows)
    case Extend(minutes, now) => w.(endsAt := Extended(w.endsAt, minutes, now))
    case Claim(key) => w.(claimed := w.claimed + {key})
    case SendNothing(key) =>
      w.(rows := w.rows[key := w.rows[key].(state := Some(Scored), score := Some(0))], claimed := w.claimed - {key})
    case SendOk(key, job) =>
      w.(rows := w.rows[key := w.rows[key].(state := Some(Queued), job := Some(job))], claimed := w.claimed - {key},
         issued := w.issued[job := Batch(key, EntriesOf(questions[key.1], w.rows[key]))])
    case SendFailed(key) => w.(claimed := w.claimed - {key})
    case Ask(key) => w.(asked := w.asked + {(key, w.rows[key].job.value)})
    case Answer(job, reply) => w.(replies := w.replies[job := reply])
    case Lose(key, job) => w.(rows := w.rows[key := Lost(w.rows[key], job)])
    case Collect(key, job) =>
      w.(rows := w.rows[key := Collected(questions[key.1], w.rows[key], job, w.replies[job])])
  }
}
