/** When a claim began, over whole histories, and what recovery makes of it. */
module JobRecovery {
  import opened Wrappers
  import opened Jobs
  import JobStore
  import P = JobProtocol
  import I = Ingest

  predicate OnOffer(row: Row) {
    row.status == Available || row.status == Retryable
  }

  // ---- Workers -------------------------------------------------------------

  /** Whether the event claims job `id`, and when. */
  ghost function ClaimTime(s: P.Sys, e: P.Event, id: Id): Option<int> {
    match e
    case ClaimAtomic(ids, now) => if id in ids then Some(now) else None
    case MarkRunning(k, now) =>
      if k < |s.picked| && s.picked[k].id == id && id in s.rows && OnOffer(s.rows[id]) then Some(now) else None
    case _ => None
  }

  /** The time of the last claim of job `id`; `before` when the history has none. */
  ghost function LastClaim(s: P.Sys, events: seq<P.Event>, id: Id, before: Option<int>): Option<int>
    requires P.History(s, events)
    decreases |events|
  {
    if |events| == 0 then before
    else
      var time := ClaimTime(s, events[0], id);
      LastClaim(P.Next(s, events[0]), events[1..], id, if time.Some? then time else before)
  }

  ghost predicate StartedAt(rows: Table, id: Id, time: Option<int>) {
    id in rows && rows[id].status == Running ==> time.Some? && rows[id].startedAt == time
  }

  lemma EventStarts(s: P.Sys, e: P.Event, id: Id, before: Option<int>)
    requires P.Enabled(s, e) && StartedAt(s.rows, id, before)
    ensures
      var time := ClaimTime(s, e, id);
      StartedAt(P.Next(s, e).rows, id, if time.Some? then time else before)
  {
  }

  lemma {:induction false} HistoryStarts(s: P.Sys, events: seq<P.Event>, id: Id, before: Option<int>)
    requires P.History(s, events) && StartedAt(s.rows, id, before)
    ensures StartedAt(P.Exec(s, events).rows, id, LastClaim(s, events, id, before))
    decreases |events|
  {
    if |events| > 0 {
      var time := ClaimTime(s, events[0], id);
      EventStarts(s, events[0], id, before);
      HistoryStarts(P.Next(s, events[0]), events[1..], id, if time.Some? then time else before);
    }
  }

  /** Over every history of workers, a running row carries the time of its last claim. */
  lemma StartIsLastClaim(events: seq<P.Event>, id: Id)
    requires P.History(P.EMPTY, events)
    ensures
      var rows := P.Exec(P.EMPTY, events).rows;
      id in rows && rows[id].status == Running ==>
        rows[id].startedAt.Some? && rows[id].startedAt == LastClaim(P.EMPTY, events, id, None)
  {
    HistoryStarts(P.EMPTY, events, id, None);
  }

  /**
   * So the recovery of stale jobs puts a running push row back, due at once, if and only if its
   * last claim is at least `secs` seconds ago; else the row keeps running as it is.
   */
  lemma WorkerRecovered(events: seq<P.Event>, id: Id, later: int, secs: int)
    requires P.History(P.EMPTY, events) && id in P.Exec(P.EMPTY, events).rows
    requires P.Exec(P.EMPTY, events).rows[id].status == Running && !("queue/" <= P.Exec(P.EMPTY, events).rows[id].handler)
    ensures
      var row := P.Exec(P.EMPTY, events).rows[id];
      var rows := P.Next(P.Exec(P.EMPTY, events), P.Recover(later, secs)).rows;
      && LastClaim(P.EMPTY, events, id, None).Some?
      && id in rows
      && if later - LastClaim(P.EMPTY, events, id, None).value >= 1000 * secs
         then rows[id] == row.(status := Retryable, scheduledAt := later) && id in JobStore.PushDueIds(rows, later)
         else rows[id] == row && forall now :: id !in JobStore.PushDueIds(rows, now)
  {
    StartIsLastClaim(events, id);
  }

  /**
   * A delivery that ends well completes its row; one that the circuit breaker rejects puts it back
   * for ten seconds. No other row changes.
   */
  lemma DeliveryColumns(s: P.Sys, k: nat, now: int)
    requires k < |s.live| && s.live[k].id in s.rows
    ensures
      var id := s.live[k].id;
      var row := s.rows[id];
      && P.Next(s, P.Finish(k, P.Succeeded, now)).rows == s.rows[id := row.(status := Completed, completedAt := Some(now))]
      && P.Next(s, P.Finish(k, P.Rejected, now)).rows == s.rows[id := row.(status := Retryable, scheduledAt := now + 10000)]
  {
  }

  // ---- Push and pull -------------------------------------------------------

  /** The time of the last statement that claimed row `id`, for push delivery or by a consumer; `before` when there is none. */
  ghost function LastClaimed(ops: seq<I.Op>, id: Id, before: Option<int>): Option<int>
    decreases |ops|
  {
    if |ops| == 0 then before
    else
      var claims := ops[0].Sql? && ops[0].statement.Claim? && id in ops[0].statement.ids;
      LastClaimed(ops[1..], id, if claims then Some(ops[0].statement.now) else before)
  }

  lemma StatementStarts(t: Table, st: I.Statement, id: Id, before: Option<int>)
    requires StartedAt(t, id, before)
    ensures StartedAt(I.Apply(t, st), id, if st.Claim? && id in st.ids then Some(st.now) else before)
  {
  }

  lemma ArrivalStarts(t: Table, a: I.Arrival, id: Id, before: Option<int>)
    requires StartedAt(t, id, before) && (forall i, k :: 0 <= i < k < |a.jobs| ==> a.jobs[i].0 != a.jobs[k].0)
    ensures StartedAt(I.InsertJobs(t, a, |a.jobs|), id, before)
  {
    I.InsertedRows(t, a, |a.jobs|);
  }

  lemma {:induction false} StatementsStart(db: I.Db, ops: seq<I.Op>, id: Id, before: Option<int>)
    requires I.History(db, ops) && StartedAt(db.jobs, id, before)
    ensures StartedAt(I.Exec(db, ops).jobs, id, LastClaimed(ops, id, before))
    decreases |ops|
  {
    if |ops| > 0 {
      var time := before;
      match ops[0] {
        case Accept(r, a, crashed) => ArrivalStarts(db.jobs, a, id, before);
        case Sql(st) =>
          StatementStarts(db.jobs, st, id, before);
          time := if st.Claim? && id in st.ids then Some(st.now) else before;
      }
      StatementsStart(I.Next(db, ops[0]), ops[1..], id, time);
    }
  }

  /** Over every history of statements, a running row, of push or pull, carries the time of its last claim. */
  lemma StartIsLastStatement(ops: seq<I.Op>, id: Id)
    requires I.History(I.EMPTY, ops)
    ensures
      var jobs := I.Exec(I.EMPTY, ops).jobs;
      id in jobs && jobs[id].status == Running ==> jobs[id].startedAt.Some? && jobs[id].startedAt == LastClaimed(ops, id, None)
  {
    StatementsStart(I.EMPTY, ops, id, None);
  }

  /**
   * The visibility time-out of a queue puts a running message back, due at once, if and only if its
   * last claim is at least `secs` seconds ago; else the message stays with its consumer.
   */
  lemma MessageRecovered(ops: seq<I.Op>, id: Id, later: int, secs: int)
    requires I.History(I.EMPTY, ops) && id in I.Exec(I.EMPTY, ops).jobs && I.Exec(I.EMPTY, ops).jobs[id].status == Running
    ensures
      var row := I.Exec(I.EMPTY, ops).jobs[id];
      var jobs := I.Next(I.Exec(I.EMPTY, ops), I.Sql(I.QueueTimeout(row.handler, later, secs))).jobs;
      && LastClaimed(ops, id, None).Some?
      && id in jobs
      && if later - LastClaimed(ops, id, None).value >= 1000 * secs
         then jobs[id] == row.(status := Retryable, scheduledAt := later) && id in JobStore.QueueDueIds(jobs, row.handler, later)
         else jobs[id] == row && forall now :: id !in JobStore.QueueDueIds(jobs, row.handler, now)
  {
    StartIsLastStatement(ops, id);
  }

  /** After the recovery of a queue, each of its running messages was claimed less than its time-out ago. */
  lemma NothingInvisibleForLong(ops: seq<I.Op>, handler: string, now: int, secs: int)
    requires I.History(I.EMPTY, ops)
    ensures
      var jobs := I.Next(I.Exec(I.EMPTY, ops), I.Sql(I.QueueTimeout(handler, now, secs))).jobs;
      forall id | id in jobs && jobs[id].handler == handler && jobs[id].status == Running ::
        LastClaimed(ops, id, None).Some? && now - LastClaimed(ops, id, None).value < 1000 * secs
  {
    var jobs := I.Next(I.Exec(I.EMPTY, ops), I.Sql(I.QueueTimeout(handler, now, secs))).jobs;
    forall id | id in jobs && jobs[id].handler == handler && jobs[id].status == Running
      ensures LastClaimed(ops, id, None).Some? && now - LastClaimed(ops, id, None).value < 1000 * secs
    {
      StartIsLastStatement(ops, id);
    }
  }

  /** The same for push jobs and the recovery of stale ones. */
  lemma NothingStaleForLong(ops: seq<I.Op>, now: int, secs: int)
    requires I.History(I.EMPTY, ops)
    ensures
      var jobs := I.Next(I.Exec(I.EMPTY, ops), I.Sql(I.Stale(now, secs))).jobs;
      forall id | id in jobs && !("queue/" <= jobs[id].handler) && jobs[id].status == Running ::
        LastClaimed(ops, id, None).Some? && now - LastClaimed(ops, id, None).value < 1000 * secs
  {
    var jobs := I.Next(I.Exec(I.EMPTY, ops), I.Sql(I.Stale(now, secs))).jobs;
    forall id | id in jobs && !("queue/" <= jobs[id].handler) && jobs[id].status == Running
      ensures LastClaimed(ops, id, None).Some? && now - LastClaimed(ops, id, None).value < 1000 * secs
    {
      StartIsLastStatement(ops, id);
    }
  }
}
