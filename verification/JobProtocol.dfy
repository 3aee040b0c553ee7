/** Many workers over one jobs table, in either way of claiming, with their deliveries in flight as part of the state. */
module JobProtocol {
  import opened Wrappers
  import opened Jobs

  /** A worker's copy of a row: its id and its attempt column before the claim. */
  datatype Delivery = Delivery(id: Id, attempt: nat)

  /** How a delivery ends; a rejection is the circuit breaker's. */
  datatype Outcome = Succeeded | FailedWith(retryAfter: Option<int>, jitter: real) | Rejected

  /**
   * `picked` are rows selected but not yet marked (or dropped, when all permits are taken or the
   * mark errs), `live` the deliveries in flight. The rest is
   * history: ids ever inserted, and how often each id was revived, claimed, and failed.
   */
  datatype Sys = Sys(
    rows: Table,
    picked: seq<Delivery>,
    live: seq<Delivery>,
    born: set<Id>,
    revived: multiset<Id>,
    claims: multiset<Id>,
    failures: multiset<Id>)

  datatype Event =
    | Insert(id: Id, row: Row)
    | ClaimAtomic(ids: seq<Id>, now: int)
    | Select(ids: seq<Id>, now: int)
    | MarkRunning(k: nat, now: int)
    | Drop(k: nat)
    | Finish(k: nat, outcome: Outcome, now: int)
    | Lose(k: nat)
    | Recover(now: int, staleSecs: int)
    | Retry(chosen: set<Id>, now: int, reset: bool)
    | Expire(now: int, ttlSecs: int)
    | Clean(now: int, retentionHours: int)

  predicate Distinct(ids: seq<Id>) {
    forall i, j :: 0 <= i < j < |ids| ==> ids[i] != ids[j]
  }

  predicate DueBatch(rows: Table, ids: seq<Id>, now: int) {
    Distinct(ids) && forall id | id in ids :: id in rows && PushDue(rows[id], now)
  }

  predicate NewRow(row: Row) {
    (row.status == Available || row.status == Waiting) && row.attempt == 0
  }

  predicate Enabled(s: Sys, e: Event) {
    match e
    case Insert(id, row) => id !in s.born && NewRow(row)
    case ClaimAtomic(ids, now) => DueBatch(s.rows, ids, now)
    case Select(ids, now) => DueBatch(s.rows, ids, now)
    case MarkRunning(k, _) => k < |s.picked|
    case Drop(k) => k < |s.picked|
    case Finish(k, outcome, _) => k < |s.live| && (outcome.FailedWith? ==> IsJitter(outcome.jitter))
    case Lose(k) => k < |s.live|
    case _ => true
  }

  function Copies(rows: Table, ids: seq<Id>): (ds: seq<Delivery>)
    requires forall id | id in ids :: id in rows
    ensures |ds| == |ids| && forall i :: 0 <= i < |ids| ==> ds[i] == Delivery(ids[i], rows[ids[i]].attempt)
  {
    seq(|ids|, i requires 0 <= i < |ids| => Delivery(ids[i], rows[ids[i]].attempt))
  }

  function Without(ds: seq<Delivery>, k: nat): seq<Delivery>
    requires k < |ds|
  {
    ds[..k] + ds[k + 1..]
  }

  /** The row after a delivery of `d` ended at `now`; the marks are not guarded by its status. */
  function Settled(rows: Table, d: Delivery, outcome: Outcome, now: int): Table {
    match outcome
    case Succeeded => MarkCompleted(rows, d.id, now)
    case Rejected => MarkRetryable(rows, d.id, now + 10_000)
    case FailedWith(retryAfter, jitter) =>
      if d.id !in rows then rows
      else if d.attempt + 1 >= rows[d.id].maxAttempts then MarkDead(rows, d.id, now)
      else MarkRetryable(rows, d.id, now + 1000 * RetryDelay(d.attempt + 1, retryAfter, jitter))
  }

  function StaleIds(rows: Table, now: int, staleSecs: int): set<Id> {
    set id | id in rows && Stale(rows[id], now - 1000 * staleSecs)
  }

  function Next(s: Sys, e: Event): Sys
    requires Enabled(s, e)
  {
    match e
    case Insert(id, row) => s.(rows := s.rows[id := row], born := s.born + {id})
    case ClaimAtomic(ids, now) =>
      s.(rows := ClaimAll(s.rows, (set id | id in ids), now),
         live := s.live + Copies(s.rows, ids),
         claims := s.claims + multiset(ids))
    case Select(ids, now) => s.(picked := s.picked + Copies(s.rows, ids))
    case MarkRunning(k, now) =>
      var d := s.picked[k];
      var t := s.(picked := Without(s.picked, k));
      if d.id in s.rows && Claimable(s.rows[d.id]) then
        t.(rows := s.rows[d.id := Claimed(s.rows[d.id], now)],
           live := s.live + [d],
           claims := s.claims + multiset{d.id})
      else t
    case Drop(k) => s.(picked := Without(s.picked, k))
    case Finish(k, outcome, now) =>
      var d := s.live[k];
      s.(rows := Settled(s.rows, d, outcome, now),
         live := Without(s.live, k),
         failures := if outcome.FailedWith? then s.failures + multiset{d.id} else s.failures)
    case Lose(k) => s.(live := Without(s.live, k))
    case Recover(now, staleSecs) =>
      s.(rows := Jobs.RecoverStale(s.rows, now, staleSecs), revived := s.revived + multiset(StaleIds(s.rows, now, staleSecs)))
    case Retry(chosen, now, reset) =>
      s.(rows := RetryAll(s.rows, chosen, now, reset), revived := s.revived + multiset(chosen * s.rows.Keys))
    case Expire(now, ttlSecs) => s.(rows := ExpireOld(s.rows, now, ttlSecs))
    case Clean(now, retentionHours) => s.(rows := Cleanup(s.rows, now, retentionHours))
  }

  const EMPTY: Sys := Sys(map[], [], [], {}, multiset{}, multiset{}, multiset{})

  /** A history: every event was possible when it happened. */
  ghost predicate History(s: Sys, events: seq<Event>)
    decreases |events|
  {
    |events| == 0 || (Enabled(s, events[0]) && History(Next(s, events[0]), events[1..]))
  }

  ghost function Exec(s: Sys, events: seq<Event>): Sys
    requires History(s, events)
    decreases |events|
  {
    if |events| == 0 then s else Exec(Next(s, events[0]), events[1..])
  }

  // ---- Deliveries in flight ------------------------------------------------

  /** How many of `ds` are of job `id`. */
  function CountOf(ds: seq<Delivery>, id: Id): nat {
    if |ds| == 0 then 0 else CountOf(ds[..|ds| - 1], id) + if ds[|ds| - 1].id == id then 1 else 0
  }

  lemma {:induction false} CountAppend(xs: seq<Delivery>, ys: seq<Delivery>, id: Id)
    ensures CountOf(xs + ys, id) == CountOf(xs, id) + CountOf(ys, id)
  {
    if |ys| == 0 {
      assert xs + ys == xs;
    } else {
      var n := |ys| - 1;
      assert (xs + ys)[..|xs| + n] == xs + ys[..n];
      CountAppend(xs, ys[..n], id);
    }
  }

  lemma CountWithout(ds: seq<Delivery>, k: nat, id: Id)
    requires k < |ds|
    ensures CountOf(Without(ds, k), id) == CountOf(ds, id) - if ds[k].id == id then 1 else 0
  {
    assert ds == ds[..k] + ([ds[k]] + ds[k + 1..]);
    CountAppend(ds[..k], [ds[k]] + ds[k + 1..], id);
    CountAppend([ds[k]], ds[k + 1..], id);
    CountAppend(ds[..k], ds[k + 1..], id);
    assert CountOf([ds[k]], id) == CountOf([], id) + if ds[k].id == id then 1 else 0 by {
      assert [ds[k]][..0] == [];
    }
  }

  lemma {:induction false} CountCopies(rows: Table, ids: seq<Id>, id: Id)
    requires Distinct(ids) && forall i | i in ids :: i in rows
    ensures CountOf(Copies(rows, ids), id) == if id in ids then 1 else 0
  {
    if |ids| > 0 {
      var n := |ids| - 1;
      assert Copies(rows, ids)[..n] == Copies(rows, ids[..n]);
      CountCopies(rows, ids[..n], id);
      assert ids == ids[..n] + [ids[n]];
    }
  }

  lemma {:induction false} CountPositive(ds: seq<Delivery>, id: Id)
    ensures CountOf(ds, id) > 0 <==> exists k :: 0 <= k < |ds| && ds[k].id == id
  {
    if |ds| > 0 {
      var n := |ds| - 1;
      CountPositive(ds[..n], id);
      assert forall k :: 0 <= k < n ==> ds[..n][k] == ds[k];
      if CountOf(ds, id) == 0 {
        forall k | 0 <= k < |ds|
          ensures ds[k].id != id
        {
          assert k < n ==> ds[..n][k] == ds[k];
        }
      }
    }
  }

  // ---- Exclusion -----------------------------------------------------------

  function Offered(s: Sys, id: Id): nat {
    if id in s.rows && Claimable(s.rows[id]) then 1 else 0
  }

  /** What always holds of job `id`. */
  ghost predicate Excl(s: Sys, id: Id) {
    && CountOf(s.live, id) + Offered(s, id) <= 1 + s.revived[id]
    && (s.revived[id] == 0 && CountOf(s.live, id) > 0 ==> id in s.rows && s.rows[id].status == Running)
    && (id in s.rows ==> id in s.born)
    && (id !in s.born ==> CountOf(s.live, id) == 0 && CountOf(s.picked, id) == 0)
    && (id !in s.born ==> s.revived[id] == 0 && s.claims[id] == 0 && s.failures[id] == 0)
  }

  lemma FinishExcl(s: Sys, k: nat, outcome: Outcome, now: int, id: Id)
    requires Excl(s, id) && Enabled(s, Finish(k, outcome, now)) && Excl(s, s.live[k].id)
    ensures Excl(Next(s, Finish(k, outcome, now)), id)
  {
    CountWithout(s.live, k, id);
    CountPositive(s.live, s.live[k].id);
  }

  lemma ClaimExcl(s: Sys, ids: seq<Id>, now: int, id: Id)
    requires Excl(s, id) && Enabled(s, ClaimAtomic(ids, now))
    ensures Excl(Next(s, ClaimAtomic(ids, now)), id)
  {
    CountAppend(s.live, Copies(s.rows, ids), id);
    CountCopies(s.rows, ids, id);
  }

  lemma MarkExcl(s: Sys, k: nat, now: int, id: Id)
    requires Excl(s, id) && Enabled(s, MarkRunning(k, now)) && Excl(s, s.picked[k].id)
    ensures Excl(Next(s, MarkRunning(k, now)), id)
  {
    CountWithout(s.picked, k, id);
    CountAppend(s.live, [s.picked[k]], id);
    assert [s.picked[k]][..0] == [];
    CountPositive(s.picked, s.picked[k].id);
  }

  lemma EventExcl(s: Sys, e: Event, id: Id)
    requires Enabled(s, e) && forall i :: Excl(s, i)
    ensures Excl(Next(s, e), id)
  {
    assert Excl(s, id);
    match e
    case ClaimAtomic(ids, now) => ClaimExcl(s, ids, now, id);
    case Select(ids, now) =>
      CountAppend(s.picked, Copies(s.rows, ids), id);
      CountCopies(s.rows, ids, id);
    case MarkRunning(k, now) => MarkExcl(s, k, now, id);
    case Drop(k) => CountWithout(s.picked, k, id);
    case Finish(k, outcome, now) =>
      FinishExcl(s, k, outcome, now, id);
    case Lose(k) => CountWithout(s.live, k, id);
    case _ =>
  }

  lemma {:induction false} HistoryExcl(s: Sys, events: seq<Event>)
    requires History(s, events) && forall id :: Excl(s, id)
    ensures forall id :: Excl(Exec(s, events), id)
    decreases |events|
  {
    if |events| > 0 {
      forall id
        ensures Excl(Next(s, events[0]), id)
      {
        EventExcl(s, events[0], id);
      }
      HistoryExcl(Next(s, events[0]), events[1..]);
    }
  }

  /**
   * For any number of workers and either way of claiming: deliveries in flight plus one if the row
   * is on offer never exceed one plus the revivals (stale recoveries and manual retries). Without
   * revivals a job is delivered by at most one worker at a time, and only while its row is running.
   */
  lemma ClaimExclusion(events: seq<Event>, id: Id)
    requires History(EMPTY, events)
    ensures
      var t := Exec(EMPTY, events);
      && CountOf(t.live, id) + Offered(t, id) <= 1 + t.revived[id]
      && (t.revived[id] == 0 && CountOf(t.live, id) > 0 ==>
            CountOf(t.live, id) == 1 && id in t.rows && t.rows[id].status == Running)
  {
    HistoryExcl(EMPTY, events);
    assert Excl(Exec(EMPTY, events), id);
  }
}
