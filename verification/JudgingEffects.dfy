/** What each judging step does, told by the columns of the rows alone. */
module JudgingEffects {
  import opened Common
  import opened Judgements
  import opened JudgingRuns

  /** Nothing but this row, its owner's cooldown and the clock. */
  ghost predicate OnlyRow(w: World, w': World, row: nat)
    requires RowsHaveSubs(w.subs, w.rows)
  {
    && w'.subs == w.subs && |w'.rows| == |w.rows|
    && (forall i :: 0 <= i < |w.rows| && i != row ==> w'.rows[i] == w.rows[i])
    && (forall p :: row < |w.rows| && p != Owner(w, row) ==>
          (p in w'.lastEnded <==> p in w.lastEnded) && (p in w.lastEnded ==> w'.lastEnded[p] == w.lastEnded[p]))
  }

  /** The row is finished here and now: this verdict, this moment, and its owner's cooldown running from it. */
  ghost predicate FinishedNow(w: World, w': World, row: nat, verdict: Verdict, now: Time)
    requires RowsHaveSubs(w.subs, w.rows)
  {
    && row < |w.rows| && row < |w'.rows|
    && w.rows[row].state != Done && w'.rows[row].state == Done
    && w'.rows[row].verdict == Some(verdict) && w'.rows[row].ended == Some(now)
    && w'.rows[row].sub == w.rows[row].sub && w'.rows[row].attempt == w.rows[row].attempt
    && w'.rows[row].job == w.rows[row].job && w'.rows[row].cancelled == w.rows[row].cancelled
    && !w'.rows[row].superseded
    && Owner(w, row) in w'.lastEnded && w'.lastEnded[Owner(w, row)] == now
  }

  /** A verdict a poll brings is put on record if and only if the row is not done, is current and has that very job,
      whether it is queued or running; otherwise nothing changes. */
  lemma RecordLandsIff(w: World, row: nat, job: Job, verdict: Verdict, now: Time)
    requires RowsHaveSubs(w.subs, w.rows) && Enabled(w, Record(row, job, verdict, now))
    ensures var w' := Next(w, Record(row, job, verdict, now));
            && OnlyRow(w, w', row)
            && (FinishedNow(w, w', row, verdict, now) <==>
                  w.rows[row].state != Done && !w.rows[row].superseded && w.rows[row].job == Some(job))
            && (!FinishedNow(w, w', row, verdict, now) ==> w'.rows == w.rows && w'.lastEnded == w.lastEnded)
  {
  }

  /** A refusal is put on record, as an internal error, if and only if the row is not done and is current. */
  lemma RefusalLandsIff(w: World, row: nat, now: Time)
    requires RowsHaveSubs(w.subs, w.rows) && Enabled(w, WriteRefusal(row, now))
    ensures var w' := Next(w, WriteRefusal(row, now));
            && OnlyRow(w, w', row) && w'.refused == w.refused - {row}
            && (FinishedNow(w, w', row, IE, now) <==> w.rows[row].state != Done && !w.rows[row].superseded)
            && (!FinishedNow(w, w', row, IE, now) ==> w'.rows == w.rows && w'.lastEnded == w.lastEnded)
  {
  }

  /** In every run: a verdict brought to a current row that has that job and is not done is on record from then on. */
  lemma BroughtVerdictStays(states: seq<World>, steps: seq<Step>, k: nat, later: nat, row: nat, job: Job,
                            verdict: Verdict, now: Time)
    requires IsRun(states, steps) && k < later < |states| && steps[k] == Record(row, job, verdict, now)
    requires row < |states[k].rows| && states[k].rows[row].state != Done
    requires !states[k].rows[row].superseded && states[k].rows[row].job == Some(job)
    ensures row < |states[later].rows| && states[later].rows[row].state == Done
    ensures states[later].rows[row].verdict == Some(verdict) && states[later].rows[row].ended == Some(now)
  {
    assert IsStep(states[k], steps[k], states[k + 1]);
    RecordLandsIff(states[k], row, job, verdict, now);
    hide Next;
    hide Enabled;
    DoneIsFinal(states, steps, k + 1, later, row);
  }

  // ----- sending and polling --------------------------------------------------------------------------------

  /** The row is back to waiting to be sent if and only if it was queued or running on the lost job. */
  lemma LoseSendsBackIff(w: World, row: nat, job: Job)
    requires RowsHaveSubs(w.subs, w.rows) && Enabled(w, Lose(row, job))
    ensures var r, r' := w.rows[row], Next(w, Lose(row, job)).rows[row];
            if r.job == Some(job) && (r.state == Queued || r.state == Running)
            then r' == Row(r.sub, r.attempt, r.superseded, Pending, None, r.verdict, r.cancelled, r.ended)
            else r' == r
    ensures OnlyRow(w, Next(w, Lose(row, job)), row) && Next(w, Lose(row, job)).lastEnded == w.lastEnded
  {
  }

  /** A progress report tells queued from running, for a row on that job, and nothing else. */
  lemma ReportMovesIff(w: World, row: nat, job: Job, running: bool)
    requires RowsHaveSubs(w.subs, w.rows) && Enabled(w, Report(row, job, running))
    ensures var r, r' := w.rows[row], Next(w, Report(row, job, running)).rows[row];
            && r'.job == r.job && r'.verdict == r.verdict && r'.superseded == r.superseded && r'.ended == r.ended
            && if r.job == Some(job) && (r.state == Queued || r.state == Running)
               then (r'.state == Running <==> running) && (r'.state == Queued <==> !running)
               else r' == r
    ensures OnlyRow(w, Next(w, Report(row, job, running)), row)
  {
  }

  /** A claimed row that is accepted is queued on its new job, which the judge has for that row. */
  lemma SentIsQueued(w: World, row: nat, job: Job)
    requires RowsHaveSubs(w.subs, w.rows) && Enabled(w, SendOk(row, job))
    ensures var w' := Next(w, SendOk(row, job));
            && w'.rows[row].state == Queued && w'.rows[row].job == Some(job)
            && job in w'.issued && w'.issued[job] == row && row !in w'.claimed
            && OnlyRow(w, w', row) && w'.lastEnded == w.lastEnded
  {
  }

  // ----- submitting ------------------------------------------------------------------------------------------

  /** A submission is taken if and only if its author has nothing in flight and three seconds have passed since the
      last end; and it adds one submission with one first judgement, waiting to be sent. */
  lemma SubmitTakenIff(w: World, who: Pid, now: Time)
    requires RowsHaveSubs(w.subs, w.rows) && Enabled(w, Submit(who, now))
    ensures var w' := Next(w, Submit(who, now));
            && (|w'.subs| > |w.subs| <==>
                  && (forall i :: 0 <= i < |w.rows| && Owner(w, i) == who ==>
                        w.rows[i].state == Done || w.rows[i].superseded)
                  && (who in w.lastEnded ==> now >= w.lastEnded[who] + 3000))
            && (|w'.subs| > |w.subs| ==>
                  && w'.subs == w.subs + [who]
                  && w'.rows == w.rows + [Row(|w.subs|, 1, false, Pending, None, None, false, None)])
            && (|w'.subs| <= |w.subs| ==> w'.subs == w.subs && w'.rows == w.rows)
            && w'.lastEnded == w.lastEnded
  {
    if i :| 0 <= i < |w.rows| && Owner(w, i) == who && w.rows[i].state != Done && !w.rows[i].superseded {
      assert InFlightOf(w.subs, w.rows[i], who);
    }
  }

  // ----- cancelling and rejudging ------------------------------------------------------------------------------

  /** A cancel marks what it read: done, an internal error, cancelled, at the moment of its read. */
  lemma CancelMarks(w: World, who: Pid, row: nat)
    requires RowsHaveSubs(w.subs, w.rows) && Enabled(w, CancelOne(who, row))
    ensures var r, r' := w.rows[row], Next(w, CancelOne(who, row)).rows[row];
            r' == Row(r.sub, r.attempt, r.superseded, Done, r.job, Some(IE), true, Some(w.cancels[who].at))
    ensures OnlyRow(w, Next(w, CancelOne(who, row)), row)
  {
  }

  /** What it reads is exactly what its participant has in flight; and if that is anything, their cooldown runs
      from the read once it ends. */
  lemma CancelReadsInFlight(w: World, who: Pid, now: Time, i: nat)
    requires RowsHaveSubs(w.subs, w.rows) && Enabled(w, CancelRead(who, now)) && i < |w.rows|
    ensures var c := Next(w, CancelRead(who, now)).cancels;
            && who in c && c[who].at == now
            && (i in c[who].todo <==> Owner(w, i) == who && w.rows[i].state != Done && !w.rows[i].superseded)
            && (c[who].any <==> c[who].todo != {})
  {
  }

  lemma CancelEndStartsCooldown(w: World, who: Pid)
    requires RowsHaveSubs(w.subs, w.rows) && Enabled(w, CancelEnd(who))
    ensures var w' := Next(w, CancelEnd(who));
            && who !in w'.cancels && w'.rows == w.rows
            && (w.cancels[who].any ==> who in w'.lastEnded && w'.lastEnded[who] == w.cancels[who].at)
            && (!w.cancels[who].any ==> w'.lastEnded == w.lastEnded)
  {
  }

  /** A rejudge retires the current judgement as it stands and adds the next attempt, waiting to be sent. */
  lemma RejudgeAddsNext(w: World, row: nat)
    requires RowsHaveSubs(w.subs, w.rows) && Enabled(w, Rejudge(row))
    ensures var r, w' := w.rows[row], Next(w, Rejudge(row));
            && |w'.rows| == |w.rows| + 1 && w'.subs == w.subs && w'.lastEnded == w.lastEnded
            && w'.rows[row] == Row(r.sub, r.attempt, true, r.state, r.job, r.verdict, r.cancelled, r.ended)
            && w'.rows[|w.rows|] == Row(r.sub, r.attempt + 1, false, Pending, None, None, false, None)
            && forall i :: 0 <= i < |w.rows| && i != row ==> w'.rows[i] == w.rows[i]
  {
  }
}
