/** The submission and judgement tables, and the transactions on them, as the engine carries them out. */
module JudgementTable {
  import opened Common
  import opened Judgements
  import opened JudgingRuns

  /** Every judgement of a participant that is in flight, marked cancelled. */
  function AllCancelled(subs: seq<Pid>, rows: seq<Row>, who: Pid, now: Time): (marked: seq<Row>)
    ensures |marked| == |rows|
    ensures forall i :: 0 <= i < |rows| ==>
              marked[i] == if InFlightOf(subs, rows[i], who) then Cancelled(rows[i], now) else rows[i]
  {
    seq(|rows|, i requires 0 <= i < |rows| =>
      if InFlightOf(subs, rows[i], who) then Cancelled(rows[i], now) else rows[i])
  }

  /** The job that superseding this row would leave without a use. */
  function Stale(r: Row): Option<Job> {
    if r.state != Done then r.job else None
  }

  /** What the judge answers when a judgement is sent. */
  datatype Reply = Given(job: Job) | Refused | NoAnswer

  /** The same attempt at the same submission, with the same outcome so far. */
  predicate SameJudgement(r: Row, s: Row) {
    && r.sub == s.sub && r.attempt == s.attempt && r.superseded == s.superseded
    && r.verdict == s.verdict && r.cancelled == s.cancelled && r.ended == s.ended
  }

  class Tables {
    var subs: seq<Pid>
    var questions: seq<Qid>
    var rows: seq<Row>
    var lastEnded: map<Pid, Time>

    ghost function View(now: Time): World
      reads this
    {
      World(subs, rows, lastEnded, {}, {}, map[], {}, map[], {}, now)
    }

    ghost predicate Valid()
      reads this
    {
      |questions| == |subs| && HistoryOk(View(0))
    }

    constructor ()
      ensures Valid() && subs == [] && rows == [] && lastEnded == map[]
    {
      subs, questions, rows, lastEnded := [], [], [], map[];
    }

    /** Store a submission, to be judged. */
    method Submit(who: Pid, question: Qid, now: Time) returns (r: Result<nat, Refusal>)
      requires Valid()
      modifies this
      ensures Valid()
      ensures match Submitted(old(View(now)), who, now)
              case Ok(w) =>
                && View(now) == w && questions == old(questions) + [question]
                && r == Ok(|old(subs)|) && CurrentOf(rows, |old(subs)|, |old(rows)|)
              case Err(e) => View(now) == old(View(now)) && questions == old(questions) && r == Err(e)
    {
      if Busy(subs, rows, who) {
        return Err(InFlightAlready);
      }
      if who in lastEnded && lastEnded[who] + COOLDOWN > now {
        return Err(CoolingDown);
      }
      SubmitKeepsHistory(subs, rows, who);
      r := Ok(|subs|);
      rows := rows + [NewRow(|subs|, 1)];
      subs, questions := subs + [who], questions + [question];
    }

    /** The lowest row that is due to be sent and not in `held`; None when there is no such row. */
    method ClaimPending(held: set<nat>) returns (row: Option<nat>)
      ensures row.None? ==> forall i :: 0 <= i < |rows| && Claimable(rows[i]) ==> i in held
      ensures row.Some? ==> row.value < |rows| && Claimable(rows[row.value]) && row.value !in held
      ensures row.Some? ==> forall i :: 0 <= i < row.value && Claimable(rows[i]) ==> i in held
    {
      var i := 0;
      while i < |rows|
        invariant 0 <= i <= |rows|
        invariant forall k :: 0 <= k < i && Claimable(rows[k]) ==> k in held
      {
        if Claimable(rows[i]) && i !in held {
          return Some(i);
        }
        i := i + 1;
      }
      row := None;
    }

    /** A claimed row is sent: it waits on this job and on no other, and no sender may claim it again. */
    method RecordSent(row: nat, job: Job)
      requires Valid() && row < |rows| && Claimable(rows[row])
      modifies this`rows
      ensures Valid() && |rows| == |old(rows)|
      ensures forall j :: Waiting(rows[row], Some(j)) <==> j == job
      ensures !Claimable(rows[row]) && SameJudgement(rows[row], old(rows)[row])
      ensures forall i :: 0 <= i < |rows| && i != row ==> rows[i] == old(rows)[i]
    {
      SameHistoryKeeps(subs, rows, rows[row := Sent(rows[row], job)]);
      rows := rows[row := rows[row].(state := Queued, job := Some(job))];
    }

    /** Sends the lowest row that is due and not in `held`. A job for it: it waits on that. A refusal: it is done,
        an internal error, and its author's cooldown starts. No answer: nothing changes. `more` tells a batch
        whether to go on. */
    method SendOne(held: set<nat>, reply: Reply, now: Time) returns (more: bool, ghost sent: Option<nat>)
      requires Valid()
      modifies this`rows, this`lastEnded
      ensures Valid() && |rows| == |old(rows)|
      ensures more <==> sent.Some? && !reply.NoAnswer?
      ensures sent.None? ==> forall i :: 0 <= i < |rows| && Claimable(rows[i]) ==> i in held
      ensures sent.Some? ==> sent.value < |rows| && Claimable(old(rows)[sent.value]) && sent.value !in held
      ensures sent.Some? ==> forall i :: 0 <= i < sent.value && Claimable(old(rows)[i]) ==> i in held
      ensures sent.Some? ==> SameJudgement(rows[sent.value], old(rows)[sent.value]) || reply.Refused?
      ensures forall i :: 0 <= i < |rows| && sent != Some(i) ==> rows[i] == old(rows)[i]
      ensures more && reply.Given? ==>
                lastEnded == old(lastEnded) && forall j :: Waiting(rows[sent.value], Some(j)) <==> j == reply.job
      ensures more && reply.Refused? ==> View(now) == Written(old(View(now)), sent.value, None, IE, now)
      ensures !more ==> rows == old(rows) && lastEnded == old(lastEnded)
    {
      sent := None;
      var row := ClaimPending(held);
      if row.None? {
        return false, sent;
      }
      sent := row;
      match reply
      case Given(job) =>
        RecordSent(row.value, job);
        more := true;
      case Refused =>
        var _ := WriteResult(row.value, None, IE, now);
        more := true;
      case NoAnswer =>
        more := false;
    }

    /** Takes a verdict for a row that waits on exactly this job; any other row keeps what it has. */
    method WriteResult(row: nat, job: Option<Job>, verdict: Verdict, now: Time) returns (updated: bool)
      requires Valid() && row < |rows|
      modifies this`rows, this`lastEnded
      ensures Valid() && View(now) == Written(old(View(now)), row, job, verdict, now)
      ensures updated <==> old(rows)[row].state != Done && !old(rows)[row].superseded
                           && (job.None? || old(rows)[row].job == job)
      ensures updated ==> rows[row].state == Done && rows[row].verdict == Some(verdict) && rows[row].ended == Some(now)
      ensures updated ==> subs[rows[row].sub] in lastEnded && lastEnded[subs[rows[row].sub]] == now
      ensures !updated ==> rows == old(rows) && lastEnded == old(lastEnded)
    {
      var r := rows[row];
      updated := r.state != Done && !r.superseded && (job.None? || r.job == job);
      if updated {
        SameHistoryKeeps(subs, rows, rows[row := Finished(r, verdict, now)]);
        rows := rows[row := r.(state := Done, verdict := Some(verdict), ended := Some(now))];
        lastEnded := lastEnded[subs[r.sub] := now];
      }
    }

    method Resubmit(row: nat, job: Job)
      requires Valid() && row < |rows|
      modifies this`rows
      ensures Valid() && rows == old(rows)[row := Resent(old(rows)[row], job)]
      ensures old(rows)[row].job == Some(job) && (old(rows)[row].state == Queued || old(rows)[row].state == Running) ==>
                rows[row].state == Pending && rows[row].job == None
    {
      SameHistoryKeeps(subs, rows, rows[row := Resent(rows[row], job)]);
      if OnJob(rows[row], job) {
        rows := rows[row := rows[row].(state := Pending, job := None)];
      }
    }

    /** Note how far a job has got. Says whether there is anything for the page to hear. */
    method WriteProgress(row: nat, job: Job, running: bool) returns (updated: bool)
      requires Valid() && row < |rows|
      modifies this`rows
      ensures Valid() && rows == old(rows)[row := Progressed(old(rows)[row], job, running)]
      ensures updated <==> old(rows)[row].job == Some(job)
                           && (old(rows)[row].state == Queued || old(rows)[row].state == Running)
      ensures updated ==> (rows[row].state == Running <==> running) && (rows[row].state == Queued <==> !running)
    {
      SameHistoryKeeps(subs, rows, rows[row := Progressed(rows[row], job, running)]);
      updated := OnJob(rows[row], job);
      if updated {
        rows := rows[row := rows[row].(state := if running then Running else Queued)];
      }
    }

    /** Leaves nothing of a participant's in flight; their rows alone change. `any` tells whether one did. */
    method CancelInFlight(who: Pid, now: Time) returns (any: bool, jobs: seq<Job>)
      requires Valid()
      modifies this`rows, this`lastEnded
      ensures Valid() && rows == AllCancelled(subs, old(rows), who, now)
      ensures any == Busy(subs, old(rows), who)
      ensures forall i :: 0 <= i < |rows| && rows[i].sub < |subs| && subs[rows[i].sub] == who ==>
                rows[i].state == Done || rows[i].superseded
      ensures forall i :: 0 <= i < |rows| && rows[i] != old(rows)[i] ==>
                rows[i].state == Done && rows[i].verdict == Some(IE) && rows[i].cancelled && rows[i].ended == Some(now)
      ensures lastEnded == if any then old(lastEnded)[who := now] else old(lastEnded)
      ensures forall i :: 0 <= i < |old(rows)| && InFlightOf(subs, old(rows)[i], who) && old(rows)[i].job.Some? ==>
                old(rows)[i].job.value in jobs
    {
      any, jobs := false, [];
      hide Ordered;
      hide Complete;
      ghost var was := rows;
      var i := 0;
      while i < |rows|
        invariant 0 <= i <= |rows| == |was| && lastEnded == old(lastEnded)
        invariant forall k :: i <= k < |rows| ==> rows[k] == was[k]
        invariant forall k :: 0 <= k < i ==>
                    rows[k] == if InFlightOf(subs, was[k], who) then Cancelled(was[k], now) else was[k]
        invariant any == exists k :: 0 <= k < i && InFlightOf(subs, was[k], who)
        invariant forall k :: 0 <= k < i && InFlightOf(subs, was[k], who) && was[k].job.Some? ==>
                    was[k].job.value in jobs
      {
        var r := rows[i];
        if InFlightOf(subs, r, who) {
          rows := rows[i := r.(state := Done, cancelled := true, verdict := Some(IE), ended := Some(now))];
          any := true;
          if r.job.Some? {
            jobs := jobs + [r.job.value];
          }
        }
        i := i + 1;
      }
      if any {
        lastEnded := lastEnded[who := now];
      }
      SameHistoryKeeps(subs, was, rows);
    }

    /** Gives a submission a new current judgement, the next attempt; `stale` is the job this leaves without use. */
    method SupersedeCurrent(sub: nat) returns (stale: Option<Job>, ghost current: nat)
      requires Valid() && sub < |subs|
      modifies this`rows
      ensures Valid() && CurrentOf(old(rows), sub, current) && rows == Rejudged(old(rows), current)
      ensures stale == Stale(old(rows)[current])
    {
      assert HasCurrent(rows, sub);
      var i := 0;
      while rows[i].sub != sub || rows[i].superseded
        invariant 0 <= i < |rows| && exists k :: i <= k && CurrentOf(rows, sub, k)
        decreases |rows| - i
      {
        i := i + 1;
      }
      current := i;
      AttemptsFromOne(View(0), i);
      RejudgeKeepsOrder(rows, i);
      RejudgeKeepsComplete(subs, rows, i);
      var r := rows[i];
      rows := rows[i := r.(superseded := true)];
      rows := rows + [NewRow(sub, r.attempt + 1)];
      stale := if r.job.Some? && r.state != Done then r.job else None;
    }

    /** Gives each of a question's submissions a fresh current judgement. `jobs` are those no row waits on now. */
    method RejudgeQuestion(question: Qid) returns (count: nat, jobs: seq<Job>)
      requires Valid()
      modifies this`rows
      ensures Valid() && |rows| == |old(rows)| + count
      ensures forall i :: 0 <= i < |old(rows)| ==> Touched(old(rows)[i], questions, question, |subs|, rows[i])
      ensures forall i :: |old(rows)| <= i < |rows| ==> MadeFor(rows[i], questions, question, |subs|)
      ensures forall i :: 0 <= i < |old(rows)| && Dropped(old(rows)[i], questions, question, |subs|) ==>
                old(rows)[i].job.value in jobs
    {
      count, jobs := 0, [];
      var s := 0;
      while s < |subs|
        invariant 0 <= s <= |subs| && Valid() && |rows| == |old(rows)| + count
        invariant forall i :: 0 <= i < |old(rows)| ==> Touched(old(rows)[i], questions, question, s, rows[i])
        invariant forall i :: |old(rows)| <= i < |rows| ==> MadeFor(rows[i], questions, question, s)
        invariant forall i :: 0 <= i < |old(rows)| && Dropped(old(rows)[i], questions, question, s) ==>
                    old(rows)[i].job.value in jobs
      {
        if questions[s] == question {
          var stale := RejudgeOne(s);
          if stale.Some? {
            jobs := jobs + [stale.value];
          }
          count := count + 1;
        }
        s := s + 1;
      }
    }

    /** One submission's current judgement superseded, whichever row that is; every other row stays. */
    method RejudgeOne(sub: nat) returns (stale: Option<Job>)
      requires Valid() && sub < |subs|
      modifies this`rows
      ensures Valid() && |rows| == |old(rows)| + 1
      ensures forall i :: 0 <= i < |old(rows)| ==>
                rows[i] == old(rows)[i].(superseded := old(rows)[i].superseded || old(rows)[i].sub == sub)
      ensures rows[|old(rows)|].sub == sub && rows[|old(rows)|] == NewRow(sub, rows[|old(rows)|].attempt)
      ensures forall i :: 0 <= i < |old(rows)| && CurrentOf(old(rows), sub, i) && Stale(old(rows)[i]).Some? ==>
                stale == Stale(old(rows)[i])
    {
      ghost var before := rows;
      ghost var current;
      stale, current := SupersedeCurrent(sub);
      OnlyOneCurrent(before, sub, current);
    }
  }

  /** What rejudging a question's submissions below `n` does to a row that was there before. */
  ghost predicate Touched(r: Row, questions: seq<Qid>, question: Qid, n: nat, r': Row) {
    && r.sub < |questions|
    && r' == r.(superseded := r.superseded || (r.sub < n && questions[r.sub] == question))
  }

  /** A fresh judgement of one of those submissions. */
  ghost predicate MadeFor(r: Row, questions: seq<Qid>, question: Qid, n: nat) {
    && r.sub < n && r.sub < |questions| && questions[r.sub] == question
    && r == NewRow(r.sub, r.attempt)
  }

  /** A row whose job the rejudge leaves without a use. */
  ghost predicate Dropped(r: Row, questions: seq<Qid>, question: Qid, n: nat) {
    && r.sub < n && r.sub < |questions| && questions[r.sub] == question
    && !r.superseded && Stale(r).Some?
  }

  lemma OnlyOneCurrent(rows: seq<Row>, sub: nat, current: nat)
    requires Ordered(rows) && CurrentOf(rows, sub, current)
    ensures forall i :: 0 <= i < |rows| && rows[i].sub == sub && !rows[i].superseded ==> i == current
  {
    forall i | 0 <= i < |rows| && rows[i].sub == sub && !rows[i].superseded
      ensures i == current
    {
      assert i < current ==> SameSub(rows, i, current);
      assert current < i ==> SameSub(rows, current, i);
    }
  }

  // ----- cancelling is a run of the steps every other transaction sees --------------------------------------

  /** Where some steps lead, if each may be taken. */
  function After(w: World, steps: seq<Step>): Option<World>
    decreases |steps|
  {
    if steps == [] then Some(w)
    else if RowsHaveSubs(w.subs, w.rows) && Enabled(w, steps[0]) then After(Next(w, steps[0]), steps[1..])
    else None
  }

  function Marked(rows: seq<Row>, todo: set<nat>, at: Time): seq<Row> {
    seq(|rows|, i requires 0 <= i < |rows| => if i in todo then Cancelled(rows[i], at) else rows[i])
  }

  lemma MarkNone(rows: seq<Row>, at: Time)
    ensures Marked(rows, {}, at) == rows
  {
  }

  lemma MarkRest(rows: seq<Row>, todo: set<nat>, row: nat, at: Time)
    requires row < |rows| && row in todo
    ensures Marked(rows[row := Cancelled(rows[row], at)], todo - {row}, at) == Marked(rows, todo, at)
  {
  }

  ghost predicate CanMark(w: World, who: Pid) {
    && RowsHaveSubs(w.subs, w.rows) && who in w.cancels
    && forall i :: i in w.cancels[who].todo ==> i < |w.rows| && i !in w.claimed
  }

  lemma MarkOne(w: World, who: Pid, row: nat)
    requires CanMark(w, who) && row in w.cancels[who].todo
    ensures var c := w.cancels[who];
            var w' := w.(rows := w.rows[row := Cancelled(w.rows[row], c.at)],
                         cancels := w.cancels[who := c.(todo := c.todo - {row})]);
            IsStep(w, CancelOne(who, row), w') && CanMark(w', who)
  {
  }

  lemma {:induction false} MarkAll(w: World, who: Pid) returns (steps: seq<Step>)
    requires CanMark(w, who)
    ensures var c := w.cancels[who];
            After(w, steps)
            == Some(w.(rows := Marked(w.rows, c.todo, c.at), cancels := w.cancels[who := c.(todo := {})]))
    decreases |w.cancels[who].todo|
  {
    hide Next;
    hide Enabled;
    hide Marked;
    var c := w.cancels[who];
    if c.todo == {} {
      steps := [];
      MarkNone(w.rows, c.at);
      assert w.cancels[who := c] == w.cancels;
    } else {
      var row :| row in c.todo;
      MarkOne(w, who, row);
      var c' := c.(todo := c.todo - {row});
      var w' := w.(rows := w.rows[row := Cancelled(w.rows[row], c.at)], cancels := w.cancels[who := c']);
      var rest := MarkAll(w', who);
      steps := [CancelOne(who, row)] + rest;
      assert steps[1..] == rest;
      MarkRest(w.rows, c.todo, row, c.at);
      assert w'.cancels[who := c'.(todo := {})] == w.cancels[who := c.(todo := {})];
    }
  }

  lemma {:induction false} AfterJoins(w: World, first: seq<Step>, mid: World, rest: seq<Step>)
    requires After(w, first) == Some(mid)
    ensures After(w, first + rest) == After(mid, rest)
    decreases |first|
  {
    hide Next;
    hide Enabled;
    if first == [] {
      assert first + rest == rest;
    } else {
      assert (first + rest)[1..] == first[1..] + rest;
      AfterJoins(Next(w, first[0]), first[1..], mid, rest);
    }
  }

  lemma Chain(w: World, first: Step, w1: World, middle: seq<Step>, w2: World, last: Step, w3: World)
    requires IsStep(w, first, w1) && After(w1, middle) == Some(w2) && IsStep(w2, last, w3)
    ensures After(w, [first] + middle + [last]) == Some(w3)
  {
    hide Next;
    hide Enabled;
    var steps := [first] + middle + [last];
    assert steps[1..] == middle + [last];
    assert [last][1..] == [];
    AfterJoins(w1, middle, w2, [last]);
  }

  lemma CancelReads(w: World, who: Pid, now: Time)
    requires RowsHaveSubs(w.subs, w.rows) && who !in w.cancels && w.clock <= now
    ensures var c := Next(w, CancelRead(who, now)).cancels[who];
            && (forall i :: i in c.todo <==> 0 <= i < |w.rows| && InFlightOf(w.subs, w.rows[i], who))
            && c.any == Busy(w.subs, w.rows, who) && c.at == now
            && Marked(w.rows, c.todo, now) == AllCancelled(w.subs, w.rows, who, now)
  {
    var c := Next(w, CancelRead(who, now)).cancels[who];
    if Busy(w.subs, w.rows, who) {
      var i :| 0 <= i < |w.rows| && InFlightOf(w.subs, w.rows[i], who);
      assert i in c.todo;
    }
  }

  /** With no sender holding any of the rows, a whole cancel is: read, mark each, let go. */
  lemma CancelIsARun(w: World, who: Pid, now: Time) returns (steps: seq<Step>)
    requires RowsHaveSubs(w.subs, w.rows) && w.claimed == {} && who !in w.cancels && w.clock <= now
    ensures After(w, steps) == Some(w.(
              rows := AllCancelled(w.subs, w.rows, who, now),
              lastEnded := if Busy(w.subs, w.rows, who) then w.lastEnded[who := now] else w.lastEnded,
              clock := now))
  {
    hide Busy;
    hide AllCancelled;
    hide Marked;
    hide After;
    hide InFlightOf;
    CancelReads(w, who, now);
    var w1 := Next(w, CancelRead(who, now));
    var c := w1.cancels[who];
    var marks := MarkAll(w1, who);
    var w2 := w1.(rows := Marked(w1.rows, c.todo, c.at), cancels := w1.cancels[who := c.(todo := {})]);
    var w3 := w.(
      rows := AllCancelled(w.subs, w.rows, who, now),
      lastEnded := if Busy(w.subs, w.rows, who) then w.lastEnded[who := now] else w.lastEnded,
      clock := now);
    assert w1.cancels[who := c.(todo := {})] - {who} == w.cancels;
    MarkedHaveSubs(w1.subs, w1.rows, c.todo, c.at);
    assert IsStep(w2, CancelEnd(who), w3);
    steps := [CancelRead(who, now)] + marks + [CancelEnd(who)];
    Chain(w, CancelRead(who, now), w1, marks, w2, CancelEnd(who), w3);
  }

  lemma MarkedHaveSubs(subs: seq<Pid>, rows: seq<Row>, todo: set<nat>, at: Time)
    requires RowsHaveSubs(subs, rows)
    ensures RowsHaveSubs(subs, Marked(rows, todo, at))
  {
  }
}
