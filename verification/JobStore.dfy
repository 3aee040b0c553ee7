/**
 * The database methods on the jobs table: fetching for push delivery, the marks, recovery, and the
 * pull-mode queue with its acknowledgements.
 */
module JobStore {
  import opened Wrappers
  import opened Jobs
  import opened JobProtocol

  // ---- What the statements select ------------------------------------------

  function PushDueIds(t: Table, now: int): set<Id> {
    set id | id in t && PushDue(t[id], now)
  }

  function QueueDueIds(t: Table, handler: string, now: int): set<Id> {
    set id | id in t && QueueDue(t[id], handler, now)
  }

  /** `ids` are the first `limit` of `due` in order of scheduled time. */
  ghost predicate IsBatch(t: Table, due: set<Id>, limit: nat, ids: seq<Id>)
    requires due <= t.Keys
  {
    && Distinct(ids)
    && (forall id | id in ids :: id in due)
    && |ids| == Min(limit, |due|)
    && (forall i, j :: 0 <= i < j < |ids| ==> t[ids[i]].scheduledAt <= t[ids[j]].scheduledAt)
    && (forall i, id :: 0 <= i < |ids| && id in due && id !in ids ==> t[ids[i]].scheduledAt <= t[id].scheduledAt)
  }

  predicate OutUnder(t: Table, handler: string, id: Id) {
    id in t && t[id].handler == handler && t[id].status == Running
  }

  /** The listed rows that are out for delivery under `handler`. */
  function Listed(t: Table, handler: string, ids: seq<Id>): set<Id> {
    set id | id in ids && OutUnder(t, handler, id)
  }

  function Acked(t: Table, handler: string, ids: seq<Id>, now: int): Table {
    map id | id in t :: if id in Listed(t, handler, ids) then Finished(t[id], now) else t[id]
  }

  /** A negatively acknowledged row: back with a delay in whole seconds around its base, or dead. */
  ghost predicate Nacked(before: Row, after: Row, now: int) {
    if before.attempt < before.maxAttempts then
      var delay := (after.scheduledAt - now) / 1000;
      after == Rescheduled(before, now + 1000 * delay) && Near(QueueBackoff(before.attempt), delay)
    else after == Buried(before, now)
  }

  ghost predicate NackedAll(before: Table, after: Table, handler: string, ids: seq<Id>, now: int) {
    && after.Keys == before.Keys
    && (forall id | id in before && id !in Listed(before, handler, ids) :: after[id] == before[id])
    && (forall id | id in Listed(before, handler, ids) :: Nacked(before[id], after[id], now))
  }

  /** The row after its negative acknowledgement. */
  function NackedRow(row: Row, j: real, now: int): (after: Row)
    requires IsJitter(j)
    ensures Nacked(row, after, now) && (after.status == Retryable <==> row.attempt < row.maxAttempts)
  {
    if row.attempt < row.maxAttempts then
      NackedAgain(row, j, now);
      Rescheduled(row, now + 1000 * Jittered(QueueBackoff(row.attempt), j))
    else Buried(row, now)
  }

  /** The same in terms of the columns: the delay lies within a fifth of its base in the table. */
  ghost predicate PutBackOrBuried(before: Row, after: Row, now: int) {
    if before.attempt < before.maxAttempts then
      var base := QUEUE_SECONDS[if before.attempt < 7 then before.attempt else 7];
      exists delay ::
        && after == before.(status := Retryable, scheduledAt := now + 1000 * delay)
        && 4 * base < 5 * delay + 5 && 5 * delay < 6 * base
    else after == before.(status := Dead, completedAt := Some(now))
  }

  lemma NackedColumns(before: Row, after: Row, now: int)
    requires Nacked(before, after, now)
    ensures PutBackOrBuried(before, after, now)
  {
    QueueBackoffTable(before.attempt);
  }

  class Store {
    var rows: Table

    constructor ()
      ensures rows == map[]
    {
      rows := map[];
    }

    method Earliest(todo: set<Id>) returns (first: Id)
      requires todo != {} && todo <= rows.Keys
      ensures first in todo
      ensures forall id | id in todo :: rows[first].scheduledAt <= rows[id].scheduledAt
    {
      first :| first in todo;
      var rest := todo - {first};
      while rest != {}
        invariant rest <= todo && first in todo
        invariant forall id | id in todo && id !in rest :: rows[first].scheduledAt <= rows[id].scheduledAt
        decreases rest
      {
        var id :| id in rest;
        if rows[id].scheduledAt < rows[first].scheduledAt {
          first := id;
        }
        rest := rest - {id};
      }
    }

    /** ORDER BY scheduled_at LIMIT limit. */
    method SelectBatch(due: set<Id>, limit: nat) returns (ids: seq<Id>)
      requires due <= rows.Keys
      ensures IsBatch(rows, due, limit, ids)
    {
      ids := [];
      var rest := due;
      while |ids| < limit && rest != {}
        invariant rest <= due && Distinct(ids) && |ids| <= limit
        invariant forall id :: id in ids <==> id in due && id !in rest
        invariant |ids| + |rest| == |due|
        invariant forall i, j :: 0 <= i < j < |ids| ==> rows[ids[i]].scheduledAt <= rows[ids[j]].scheduledAt
        invariant forall i, id :: 0 <= i < |ids| && id in rest ==> rows[ids[i]].scheduledAt <= rows[id].scheduledAt
        decreases rest
      {
        var id := Earliest(rest);
        ids := ids + [id];
        rest := rest - {id};
      }
    }

    /** Push delivery, one statement: select and claim. */
    method FetchAndClaim(now: int, limit: nat) returns (ids: seq<Id>)
      modifies this
      ensures
        var due := set id | id in old(rows) && old(rows)[id].status in {Available, Retryable} && old(rows)[id].scheduledAt <= now
                            && !("queue/" <= old(rows)[id].handler);
        IsBatch(old(rows), due, limit, ids)
      ensures DueBatch(old(rows), ids, now)
      ensures rows == map id | id in old(rows) ::
        var row := old(rows)[id];
        if id in ids then row.(status := Running, startedAt := Some(now), attempt := row.attempt + 1) else row
    {
      assert PushDueIds(rows, now) == set id | id in rows && rows[id].status in {Available, Retryable} && rows[id].scheduledAt <= now
                                               && !("queue/" <= rows[id].handler);
      ids := SelectBatch(PushDueIds(rows, now), limit);
      rows := ClaimAll(rows, (set id | id in ids), now);
    }

    /** Push delivery, select only; each row is marked later. */
    method FetchAvailable(now: int, limit: nat) returns (jobs: seq<Delivery>)
      ensures exists ids :: IsBatch(rows, PushDueIds(rows, now), limit, ids) && DueBatch(rows, ids, now) && jobs == Copies(rows, ids)
    {
      var ids := SelectBatch(PushDueIds(rows, now), limit);
      jobs := Copies(rows, ids);
    }

    method MarkJobRunning(id: Id, now: int) returns (ok: bool)
      modifies this
      ensures ok <==> id in old(rows) && old(rows)[id].status in {Available, Retryable}
      ensures !ok ==> rows == old(rows)
      ensures ok ==> var row := old(rows)[id];
                     rows == old(rows)[id := row.(status := Running, startedAt := Some(now), attempt := row.attempt + 1)]
    {
      ok := id in rows && Claimable(rows[id]);
      if ok {
        rows := rows[id := Claimed(rows[id], now)];
      }
    }

    method MarkJobCompleted(id: Id, now: int)
      modifies this
      ensures rows == if id in old(rows) then old(rows)[id := old(rows)[id].(status := Completed, completedAt := Some(now))] else old(rows)
    {
      if id in rows {
        rows := rows[id := Finished(rows[id], now)];
      }
    }

    method MarkJobRetryable(id: Id, at: int)
      modifies this
      ensures rows == if id in old(rows) then old(rows)[id := old(rows)[id].(status := Retryable, scheduledAt := at)] else old(rows)
    {
      if id in rows {
        rows := rows[id := Rescheduled(rows[id], at)];
      }
    }

    method MarkJobDead(id: Id, now: int)
      modifies this
      ensures rows == if id in old(rows) then old(rows)[id := old(rows)[id].(status := Dead, completedAt := Some(now))] else old(rows)
    {
      if id in rows {
        rows := rows[id := Buried(rows[id], now)];
      }
    }

    /** The worker's end of a failed delivery; true when the job is now dead. */
    method HandleFailure(job: Delivery, maxAttempts: nat, retryAfter: Option<int>, jitter: real, now: int) returns (dead: bool)
      requires IsJitter(jitter) && (job.id in rows ==> rows[job.id].maxAttempts == maxAttempts)
      modifies this
      ensures rows == Settled(old(rows), job, FailedWith(retryAfter, jitter), now)
      ensures dead <==> job.attempt + 1 >= maxAttempts
      ensures job.id !in old(rows) ==> rows == old(rows)
      ensures job.id in old(rows) ==>
        var row := old(rows)[job.id];
        if job.attempt + 1 >= maxAttempts then rows == old(rows)[job.id := row.(status := Dead, completedAt := Some(now))]
        else
          exists delay :: DelayAfter(job.attempt + 1, retryAfter, jitter, delay)
                          && rows == old(rows)[job.id := row.(status := Retryable, scheduledAt := now + 1000 * delay)]
    {
      var currentAttempt := job.attempt + 1;
      RetryDelayTable(currentAttempt, retryAfter, jitter);
      if currentAttempt >= maxAttempts {
        MarkJobDead(job.id, now);
        dead := true;
      } else {
        MarkJobRetryable(job.id, now + 1000 * RetryDelay(currentAttempt, retryAfter, jitter));
        dead := false;
      }
    }

    /** Row by row: push rows that ran since the cutoff or longer are on offer again; the answer counts what changed. */
    method RecoverStaleJobs(now: int, staleSecs: int) returns (n: nat)
      modifies this
      ensures rows.Keys == old(rows).Keys
      ensures forall id | id in rows ::
        var row := old(rows)[id];
        if row.status == Running && !("queue/" <= row.handler) && row.startedAt.Some? && now - row.startedAt.value >= 1000 * staleSecs
        then rows[id] == row.(status := Retryable, scheduledAt := now)
        else rows[id] == row
      ensures n == |set id | id in old(rows) && rows[id] != old(rows)[id]|
      ensures forall id | id in rows && rows[id].status == Running && !("queue/" <= rows[id].handler) && rows[id].startedAt.Some? ::
        now - rows[id].startedAt.value < 1000 * staleSecs
    {
      ghost var before := rows;
      n := |StaleIds(rows, now, staleSecs)|;
      rows := RecoverStale(rows, now, staleSecs);
      assert StaleIds(before, now, staleSecs) == set id | id in before && rows[id] != before[id];
    }

    // ---- The pull-mode queue -----------------------------------------------

    /** Select, then mark one row after the other. */
    method FetchQueueMessages(handler: string, now: int, limit: nat) returns (ids: seq<Id>)
      modifies this
      ensures
        var due := set id | id in old(rows) && old(rows)[id].status in {Available, Retryable} && old(rows)[id].scheduledAt <= now
                            && old(rows)[id].handler == handler;
        IsBatch(old(rows), due, limit, ids)
      ensures rows == map id | id in old(rows) ::
        var row := old(rows)[id];
        if id in ids then row.(status := Running, startedAt := Some(now), attempt := row.attempt + 1) else row
    {
      assert QueueDueIds(rows, handler, now) == set id | id in rows && rows[id].status in {Available, Retryable}
                                                         && rows[id].scheduledAt <= now && rows[id].handler == handler;
      var chosen := SelectBatch(QueueDueIds(rows, handler, now), limit);
      ids := [];
      for k := 0 to |chosen|
        invariant ids == chosen[..k]
        invariant rows == ClaimAll(old(rows), (set id | id in chosen[..k]), now)
      {
        assert chosen[k] !in chosen[..k];
        var ok := MarkJobRunning(chosen[k], now);
        assert chosen[..k + 1] == chosen[..k] + [chosen[k]];
        if ok {
          ids := ids + [chosen[k]];
        }
      }
      assert chosen[..|chosen|] == chosen;
    }

    /** Acknowledge: the answer counts the distinct listed rows that were out under `handler`. */
    method AckQueueMessages(handler: string, ids: seq<Id>, now: int) returns (total: nat)
      modifies this
      ensures
        var out := set id | id in ids && id in old(rows) && old(rows)[id].handler == handler && old(rows)[id].status == Running;
        && rows == (map id | id in old(rows) ::
             if id in out then old(rows)[id].(status := Completed, completedAt := Some(now)) else old(rows)[id])
        && total == |out|
    {
      assert Listed(rows, handler, ids) ==
             set id | id in ids && id in rows && rows[id].handler == handler && rows[id].status == Running;
      total := 0;
      for k := 0 to |ids|
        invariant rows == Acked(old(rows), handler, ids[..k], now)
        invariant total == |Listed(old(rows), handler, ids[..k])|
      {
        var id := ids[k];
        ListedStep(old(rows), handler, ids, k);
        AckStep(old(rows), handler, ids, k, now);
        if id in rows && rows[id].handler == handler && rows[id].status == Running {
          rows := rows[id := Finished(rows[id], now)];
          total := total + 1;
        }
      }
      assert ids[..|ids|] == ids;
    }

    /**
     * Negative acknowledgement: each distinct listed row that was out under `handler` is put back
     * or buried once, and the two answers count them.
     */
    method NackQueueMessages(handler: string, ids: seq<Id>, now: int, jitter: seq<real>) returns (retried: nat, dead: nat)
      requires |jitter| == |ids| && forall k :: 0 <= k < |ids| ==> IsJitter(jitter[k])
      modifies this
      ensures
        var out := set id | id in ids && id in old(rows) && old(rows)[id].handler == handler && old(rows)[id].status == Running;
        && rows.Keys == old(rows).Keys
        && (forall id | id in old(rows) && id !in out :: rows[id] == old(rows)[id])
        && (forall id | id in out :: PutBackOrBuried(old(rows)[id], rows[id], now))
        && retried + dead == |out|
        && dead == |set id | id in out && old(rows)[id].attempt >= old(rows)[id].maxAttempts|
    {
      retried, dead := 0, 0;
      for k := 0 to |ids|
        invariant NackedAll(old(rows), rows, handler, ids[..k], now)
        invariant retried + dead == |Listed(old(rows), handler, ids[..k])|
        invariant dead == |Exhausted(old(rows), handler, ids[..k])|
      {
        var id := ids[k];
        ListedStep(old(rows), handler, ids, k);
        ExhaustedStep(old(rows), handler, ids, k);
        NackedStatus(old(rows), rows, handler, ids[..k], now, id);
        if id in rows && rows[id].handler == handler && rows[id].status == Running {
          var row := NackedRow(rows[id], jitter[k], now);
          if row.status == Retryable {
            retried := retried + 1;
          } else {
            dead := dead + 1;
          }
          NackStep(old(rows), rows, handler, ids, k, now, row);
          rows := rows[id := row];
        }
      }
      assert ids[..|ids|] == ids;
      NackedAllColumns(old(rows), rows, handler, ids, now);
    }

    /** Row by row: this queue's rows past their visibility time-out are on offer again; the answer counts what changed. */
    method RecoverExpiredQueueMessages(handler: string, now: int, timeoutSecs: nat) returns (n: nat)
      modifies this
      ensures rows.Keys == old(rows).Keys
      ensures forall id | id in rows ::
        var row := old(rows)[id];
        if row.status == Running && row.handler == handler && row.startedAt.Some? && now - row.startedAt.value >= 1000 * timeoutSecs
        then rows[id] == row.(status := Retryable, scheduledAt := now)
        else rows[id] == row
      ensures n == |set id | id in old(rows) && rows[id] != old(rows)[id]|
      ensures forall id | id in rows && rows[id].status == Running && rows[id].handler == handler && rows[id].startedAt.Some? ::
        now - rows[id].startedAt.value < 1000 * timeoutSecs
    {
      ghost var before := rows;
      var due := set id | id in rows && Invisible(rows[id], handler, now - 1000 * timeoutSecs);
      n := |due|;
      rows := RecoverQueue(rows, handler, now, timeoutSecs);
      assert due == set id | id in before && rows[id] != before[id];
    }
  }

  /** The same by columns. */
  lemma NackedAllColumns(before: Table, after: Table, handler: string, ids: seq<Id>, now: int)
    requires NackedAll(before, after, handler, ids, now)
    ensures
      var out := set id | id in ids && id in before && before[id].handler == handler && before[id].status == Running;
      && Listed(before, handler, ids) == out
      && Exhausted(before, handler, ids) == (set id | id in out && before[id].attempt >= before[id].maxAttempts)
      && after.Keys == before.Keys
      && (forall id | id in before && id !in out :: after[id] == before[id])
      && (forall id | id in out :: PutBackOrBuried(before[id], after[id], now))
  {
    var out := set id | id in ids && id in before && before[id].handler == handler && before[id].status == Running;
    assert Listed(before, handler, ids) == out;
    forall id | id in out
      ensures PutBackOrBuried(before[id], after[id], now)
    {
      NackedColumns(before[id], after[id], now);
    }
  }

  /** A row put back with the jittered delay counts as negatively acknowledged. */
  lemma NackedAgain(row: Row, j: real, now: int)
    requires IsJitter(j) && row.attempt < row.maxAttempts
    ensures Nacked(row, Rescheduled(row, now + 1000 * Jittered(QueueBackoff(row.attempt), j)), now)
  {
    Pow2Monotone(0, Min(row.attempt, 20));
    JitterBounds(QueueBackoff(row.attempt), j);
  }

  /** The listed rows that have no attempt left. */
  function Exhausted(t: Table, handler: string, ids: seq<Id>): set<Id> {
    set id | id in Listed(t, handler, ids) && t[id].attempt >= t[id].maxAttempts
  }

  /** One more id adds itself, unless it was listed before or is not out under `handler`. */
  lemma ListedStep(t: Table, handler: string, ids: seq<Id>, k: nat)
    requires k < |ids|
    ensures
      var before, after := Listed(t, handler, ids[..k]), Listed(t, handler, ids[..k + 1]);
      if OutUnder(t, handler, ids[k]) && ids[k] !in before then after == before + {ids[k]} && |after| == |before| + 1
      else after == before
  {
    assert ids[..k + 1] == ids[..k] + [ids[k]];
    var before, after := Listed(t, handler, ids[..k]), Listed(t, handler, ids[..k + 1]);
    if OutUnder(t, handler, ids[k]) {
      assert after == before + {ids[k]};
    } else {
      assert after == before;
    }
  }

  lemma AckStep(t: Table, handler: string, ids: seq<Id>, k: nat, now: int)
    requires k < |ids|
    ensures
      var rows := Acked(t, handler, ids[..k], now);
      && (OutUnder(rows, handler, ids[k]) <==> OutUnder(t, handler, ids[k]) && ids[k] !in Listed(t, handler, ids[..k]))
      && Acked(t, handler, ids[..k + 1], now)
         == if OutUnder(rows, handler, ids[k]) then rows[ids[k] := Finished(rows[ids[k]], now)] else rows
  {
    ListedStep(t, handler, ids, k);
  }

  lemma ExhaustedStep(t: Table, handler: string, ids: seq<Id>, k: nat)
    requires k < |ids|
    ensures
      var before, after := Exhausted(t, handler, ids[..k]), Exhausted(t, handler, ids[..k + 1]);
      if OutUnder(t, handler, ids[k]) && ids[k] !in Listed(t, handler, ids[..k]) && t[ids[k]].attempt >= t[ids[k]].maxAttempts
      then |after| == |before| + 1 else after == before
  {
    ListedStep(t, handler, ids, k);
    var before, after := Exhausted(t, handler, ids[..k]), Exhausted(t, handler, ids[..k + 1]);
    if OutUnder(t, handler, ids[k]) && ids[k] !in Listed(t, handler, ids[..k]) && t[ids[k]].attempt >= t[ids[k]].maxAttempts {
      assert after == before + {ids[k]};
    } else {
      assert after == before;
    }
  }

  /** Of the rows handled so far none is out any more; the others are as they were. */
  lemma NackedStatus(before: Table, after: Table, handler: string, ids: seq<Id>, now: int, id: Id)
    requires NackedAll(before, after, handler, ids, now)
    ensures OutUnder(after, handler, id) <==> OutUnder(before, handler, id) && id !in Listed(before, handler, ids)
    ensures OutUnder(after, handler, id) ==> after[id] == before[id]
  {
    if id in Listed(before, handler, ids) {
      assert Nacked(before[id], after[id], now);
    }
  }

  lemma NackStep(before: Table, after: Table, handler: string, ids: seq<Id>, k: nat, now: int, row: Row)
    requires k < |ids| && NackedAll(before, after, handler, ids[..k], now)
    requires OutUnder(after, handler, ids[k]) && Nacked(after[ids[k]], row, now)
    ensures NackedAll(before, after[ids[k] := row], handler, ids[..k + 1], now)
  {
    NackedStatus(before, after, handler, ids[..k], now, ids[k]);
    ListedStep(before, handler, ids, k);
  }

  // ---- Properties ----------------------------------------------------------

  /** A nack delay never exceeds one hour and a fifth. */
  lemma QueueDelayBounds(attempt: nat, j: real)
    requires IsJitter(j)
    ensures 30 <= QueueBackoff(attempt) <= 3600
    ensures 24 <= Jittered(QueueBackoff(attempt), j) < 4320
  {
    Pow2Monotone(0, Min(attempt, 20));
    JitterBounds(QueueBackoff(attempt), j);
  }

  /** Push claims and recoveries never touch a queue row, and queue ones never touch a push row. */
  lemma PushAndPullDisjoint(t: Table, name: string, now: int, secs: int, timeoutSecs: int)
    ensures
      var handler := QUEUE_PREFIX + name;
      && IsQueue(handler)
      && PushDueIds(t, now) !! QueueDueIds(t, handler, now)
      && StaleIds(t, now, secs) !! (set id | id in t && Invisible(t[id], handler, now - 1000 * timeoutSecs))
      && (forall id | id in t && IsQueue(t[id].handler) :: RecoverStale(t, now, secs)[id] == t[id])
      && (forall id | id in t && !IsQueue(t[id].handler) :: RecoverQueue(t, handler, now, timeoutSecs)[id] == t[id])
  {
  }

  /** An id that is acknowledged again is not counted again. */
  lemma AckOnce(t: Table, handler: string, ids: seq<Id>, now: int)
    ensures Listed(Acked(t, handler, ids, now), handler, ids) == {}
    ensures Acked(Acked(t, handler, ids, now), handler, ids, now) == Acked(t, handler, ids, now)
  {
    var once := Acked(t, handler, ids, now);
    assert forall id | id in once :: once[id].handler == t[id].handler;
  }
}
