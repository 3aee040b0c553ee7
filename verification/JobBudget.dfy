/** Attempts and failures of a job over a whole history. */
module JobBudget {
  import opened Wrappers
  import opened Jobs
  import opened JobProtocol

  function AtLeastOne(n: nat): nat {
    if n == 0 then 1 else n
  }

  /** Failures that leave a job alive. */
  function Below(n: nat): nat {
    if n == 0 then 0 else n - 1
  }

  /**
   * A mark that succeeds although the row was claimed since its copy was taken: the worker can tell,
   * the row's attempt is no longer the copy's.
   */
  predicate StaleMark(s: Sys, e: Event, id: Id) {
    && e.MarkRunning?
    && e.k < |s.picked|
    && s.picked[e.k].id == id
    && id in s.rows
    && Claimable(s.rows[id])
    && s.rows[id].attempt != s.picked[e.k].attempt
  }

  ghost function StaleMarks(s: Sys, events: seq<Event>, id: Id): nat
    requires History(s, events)
    decreases |events|
  {
    if |events| == 0 then 0
    else (if StaleMark(s, events[0], id) then 1 else 0) + StaleMarks(Next(s, events[0]), events[1..], id)
  }

  /** The deliveries of `id` in flight carry the number of the last claim. */
  ghost predicate Numbered(s: Sys, id: Id) {
    forall k :: 0 <= k < |s.live| && s.live[k].id == id ==> s.live[k].attempt + 1 == s.claims[id]
  }

  /** After at most `stale` stale marks, for a job that was never revived. */
  ghost predicate Accounts(s: Sys, id: Id, stale: nat)
    requires id in s.rows
  {
    var row := s.rows[id];
    && row.attempt == s.claims[id]
    && s.failures[id] + CountOf(s.live, id) <= s.claims[id]
    && s.failures[id] <= AtLeastOne(row.maxAttempts) + stale
    && (row.maxAttempts <= 1 ==> s.failures[id] <= 1)
    && (row.status != Dead ==>
          && s.failures[id] + (if Numbered(s, id) then 0 else 1) <= Below(row.maxAttempts) + stale
          && (row.maxAttempts <= 1 ==> s.failures[id] == 0))
  }

  ghost predicate Bud(s: Sys, id: Id, stale: nat) {
    s.revived[id] == 0 && id in s.rows ==> Accounts(s, id, stale)
  }

  lemma WithoutElements(ds: seq<Delivery>, k: nat)
    requires k < |ds|
    ensures forall i :: 0 <= i < |Without(ds, k)| ==> Without(ds, k)[i] == ds[if i < k then i else i + 1]
    ensures forall i :: 0 <= i < |ds| && i != k ==> ds[i] in Without(ds, k)
  {
    forall i | 0 <= i < |ds| && i != k
      ensures ds[i] in Without(ds, k)
    {
      assert Without(ds, k)[if i < k then i else i - 1] == ds[i];
    }
  }

  lemma {:induction false} DistinctOnce(ids: seq<Id>, id: Id)
    requires Distinct(ids)
    ensures multiset(ids)[id] == if id in ids then 1 else 0
  {
    if |ids| > 0 {
      var n := |ids| - 1;
      assert ids == ids[..n] + [ids[n]];
      DistinctOnce(ids[..n], id);
    }
  }

  lemma ClaimCounts(s: Sys, ids: seq<Id>, now: int, id: Id)
    requires Enabled(s, ClaimAtomic(ids, now))
    ensures
      var t := Next(s, ClaimAtomic(ids, now));
      var taken := if id in ids then 1 else 0;
      && CountOf(t.live, id) == CountOf(s.live, id) + taken
      && t.claims[id] == s.claims[id] + taken
      && (id in ids && s.revived[id] == 0 && Excl(s, id) ==>
            CountOf(s.live, id) == 0 && forall k :: 0 <= k < |s.live| ==> s.live[k].id != id)
  {
    CountAppend(s.live, Copies(s.rows, ids), id);
    CountCopies(s.rows, ids, id);
    CountPositive(s.live, id);
    DistinctOnce(ids, id);
    if id in ids {
      assert PushDue(s.rows[id], now);
      assert Offered(s, id) == 1;
    }
  }

  lemma ClaimLayout(s: Sys, ids: seq<Id>, now: int)
    requires Enabled(s, ClaimAtomic(ids, now))
    ensures
      var t := Next(s, ClaimAtomic(ids, now));
      && |s.live| <= |t.live|
      && (forall k :: 0 <= k < |s.live| ==> t.live[k] == s.live[k])
      && (forall k :: |s.live| <= k < |t.live| ==>
            t.live[k].id in ids && t.live[k].id in s.rows && t.live[k].attempt == s.rows[t.live[k].id].attempt)
  {
    var t := Next(s, ClaimAtomic(ids, now));
    var copies := Copies(s.rows, ids);
    forall k | |s.live| <= k < |t.live|
      ensures t.live[k].id in ids && t.live[k].id in s.rows && t.live[k].attempt == s.rows[t.live[k].id].attempt
    {
      assert t.live[k] == copies[k - |s.live|];
    }
  }

  lemma ClaimBud(s: Sys, ids: seq<Id>, now: int, id: Id, stale: nat)
    requires Excl(s, id) && Bud(s, id, stale) && Enabled(s, ClaimAtomic(ids, now))
    ensures Bud(Next(s, ClaimAtomic(ids, now)), id, stale)
    ensures Numbered(s, id) && s.revived[id] == 0 ==> Numbered(Next(s, ClaimAtomic(ids, now)), id)
  {
    ClaimCounts(s, ids, now, id);
    ClaimLayout(s, ids, now);
  }

  lemma MarkCounts(s: Sys, k: nat, now: int, id: Id)
    requires Enabled(s, MarkRunning(k, now))
    ensures
      var t := Next(s, MarkRunning(k, now));
      var d := s.picked[k];
      var marked := d.id in s.rows && Claimable(s.rows[d.id]);
      && t.live == (if marked then s.live + [d] else s.live)
      && CountOf(t.live, id) == CountOf(s.live, id) + (if marked && d.id == id then 1 else 0)
      && (CountOf(s.live, id) == 0 ==> forall i :: 0 <= i < |s.live| ==> s.live[i].id != id)
  {
    var d := s.picked[k];
    CountAppend(s.live, [d], id);
    assert [d][..0] == [];
    CountPositive(s.live, id);
  }

  lemma MarkOther(s: Sys, k: nat, now: int, id: Id, stale: nat)
    requires Bud(s, id, stale) && Enabled(s, MarkRunning(k, now)) && s.picked[k].id != id
    ensures Bud(Next(s, MarkRunning(k, now)), id, stale)
    ensures Numbered(Next(s, MarkRunning(k, now)), id) <==> Numbered(s, id)
  {
    var t := Next(s, MarkRunning(k, now));
    MarkCounts(s, k, now, id);
    assert forall i :: 0 <= i < |s.live| ==> t.live[i] == s.live[i];
  }

  /** The row is claimed again by a copy that may be old. */
  lemma MarkClaims(s: Sys, k: nat, now: int, id: Id, stale: nat)
    requires Excl(s, id) && Enabled(s, MarkRunning(k, now)) && s.picked[k].id == id && s.revived[id] == 0
    requires id in s.rows && Claimable(s.rows[id]) && Accounts(s, id, stale)
    ensures
      var t := Next(s, MarkRunning(k, now));
      && id in t.rows
      && Accounts(t, id, stale + if s.picked[k].attempt == s.rows[id].attempt then 0 else 1)
      && (Numbered(t, id) <==> s.picked[k].attempt == s.rows[id].attempt)
  {
    var t := Next(s, MarkRunning(k, now));
    MarkCounts(s, k, now, id);
    assert Offered(s, id) == 1;
    assert t.live[|s.live|] == s.picked[k];
  }

  /** A mark keeps the accounts, and pays for an old copy. */
  lemma MarkBud(s: Sys, k: nat, now: int, id: Id, stale: nat)
    requires Excl(s, id) && Bud(s, id, stale) && Enabled(s, MarkRunning(k, now)) && s.picked[k].id == id
    ensures Bud(Next(s, MarkRunning(k, now)), id, stale + if StaleMark(s, MarkRunning(k, now), id) then 1 else 0)
    ensures s.revived[id] == 0 && Numbered(s, id) ==>
      (Numbered(Next(s, MarkRunning(k, now)), id) <==> !StaleMark(s, MarkRunning(k, now), id))
  {
    var t := Next(s, MarkRunning(k, now));
    if id in s.rows && Claimable(s.rows[id]) {
      assert t.revived == s.revived;
      if s.revived[id] == 0 {
        MarkClaims(s, k, now, id, stale);
      }
    } else {
      assert t == s.(picked := Without(s.picked, k));
    }
  }

  lemma FinishCounts(s: Sys, k: nat, id: Id)
    requires k < |s.live|
    ensures CountOf(Without(s.live, k), id) == CountOf(s.live, id) - (if s.live[k].id == id then 1 else 0)
    ensures CountOf(Without(s.live, k), id) == 0 ==> forall i :: 0 <= i < |Without(s.live, k)| ==> Without(s.live, k)[i].id != id
    ensures CountOf(s.live, s.live[k].id) > 0
  {
    CountWithout(s.live, k, id);
    CountPositive(Without(s.live, k), id);
    CountPositive(s.live, s.live[k].id);
  }

  lemma NumberedWithout(s: Sys, t: Sys, k: nat, id: Id)
    requires k < |s.live| && t.live == Without(s.live, k) && t.claims == s.claims
    ensures Numbered(s, id) ==> Numbered(t, id)
    ensures s.live[k].id != id ==> (Numbered(s, id) <==> Numbered(t, id))
  {
    WithoutElements(s.live, k);
  }

  lemma FinishBud(s: Sys, k: nat, outcome: Outcome, now: int, id: Id, stale: nat)
    requires Excl(s, id) && Bud(s, id, stale) && Enabled(s, Finish(k, outcome, now))
    ensures Bud(Next(s, Finish(k, outcome, now)), id, stale)
    ensures Numbered(s, id) ==> Numbered(Next(s, Finish(k, outcome, now)), id)
  {
    FinishCounts(s, k, id);
    NumberedWithout(s, Next(s, Finish(k, outcome, now)), k, id);
    if s.live[k].id == id && s.revived[id] == 0 {
      FinishSame(s, k, outcome, now, stale);
    }
  }

  lemma FinishSame(s: Sys, k: nat, outcome: Outcome, now: int, stale: nat)
    requires Enabled(s, Finish(k, outcome, now)) && Excl(s, s.live[k].id) && Bud(s, s.live[k].id, stale)
    requires s.revived[s.live[k].id] == 0
    ensures Bud(Next(s, Finish(k, outcome, now)), s.live[k].id, stale)
  {
    FinishCounts(s, k, s.live[k].id);
  }

  lemma LoseBud(s: Sys, k: nat, id: Id, stale: nat)
    requires Excl(s, id) && Bud(s, id, stale) && Enabled(s, Lose(k))
    ensures Bud(Next(s, Lose(k)), id, stale)
    ensures Numbered(s, id) ==> Numbered(Next(s, Lose(k)), id)
  {
    NumberedWithout(s, Next(s, Lose(k)), k, id);
    CountWithout(s.live, k, id);
  }

  lemma EventBud(s: Sys, e: Event, id: Id, stale: nat)
    requires Enabled(s, e) && Excl(s, id) && Bud(s, id, stale)
    ensures Bud(Next(s, e), id, stale + if StaleMark(s, e, id) then 1 else 0)
    ensures s.revived[id] <= Next(s, e).revived[id]
    ensures s.revived[id] == 0 && Numbered(s, id) ==> (Numbered(Next(s, e), id) <==> !StaleMark(s, e, id))
  {
    match e
    case Insert(_, _) => CountPositive(s.live, id);
    case ClaimAtomic(ids, now) => ClaimBud(s, ids, now, id, stale);
    case MarkRunning(k, now) =>
      if s.picked[k].id == id {
        MarkBud(s, k, now, id, stale);
      } else {
        MarkOther(s, k, now, id, stale);
      }
    case Finish(k, outcome, now) => FinishBud(s, k, outcome, now, id, stale);
    case Lose(k) => LoseBud(s, k, id, stale);
    case _ =>
  }

  lemma {:induction false} HistoryBud(s: Sys, events: seq<Event>, id: Id, stale: nat)
    requires History(s, events) && (forall i :: Excl(s, i)) && Bud(s, id, stale)
    ensures Bud(Exec(s, events), id, stale + StaleMarks(s, events, id))
    ensures s.revived[id] <= Exec(s, events).revived[id]
    decreases |events|
  {
    if |events| > 0 {
      var t := Next(s, events[0]);
      forall i
        ensures Excl(t, i)
      {
        EventExcl(s, events[0], i);
      }
      EventBud(s, events[0], id, stale);
      HistoryBud(t, events[1..], id, stale + if StaleMark(s, events[0], id) then 1 else 0);
    }
  }

  /**
   * Any number of workers, either way of claiming, for a job that was never recovered or retried by
   * hand: its attempt column is the number of its claims (circuit rejections included), and every
   * failure past max(1, max_attempts) is paid for by a mark with an old copy. A job with at most one
   * attempt never fails twice.
   */
  lemma FailureBudget(events: seq<Event>, id: Id)
    requires History(EMPTY, events)
    ensures
      var t := Exec(EMPTY, events);
      var stale := StaleMarks(EMPTY, events, id);
      t.revived[id] == 0 && id in t.rows ==>
        var row := t.rows[id];
        && row.attempt == t.claims[id]
        && t.failures[id] <= AtLeastOne(row.maxAttempts) + stale
        && (row.status != Dead && row.maxAttempts > 0 ==> t.failures[id] < row.maxAttempts + stale)
        && (row.maxAttempts <= 1 ==> t.failures[id] <= 1)
  {
    HistoryBud(EMPTY, events, id, 0);
  }

  // ---- Exactly when deliveries carry the number of their claim -------------

  ghost predicate NumberedAlong(s: Sys, events: seq<Event>, id: Id)
    requires History(s, events)
    decreases |events|
  {
    Numbered(s, id) && (|events| == 0 || NumberedAlong(Next(s, events[0]), events[1..], id))
  }

  lemma {:induction false} NumberedFrom(s: Sys, events: seq<Event>, id: Id, stale: nat)
    requires History(s, events) && (forall i :: Excl(s, i)) && Bud(s, id, stale) && Numbered(s, id)
    requires Exec(s, events).revived[id] == 0
    ensures NumberedAlong(s, events, id) <==> StaleMarks(s, events, id) == 0
    decreases |events|
  {
    HistoryBud(s, events, id, stale);
    if |events| > 0 {
      var t := Next(s, events[0]);
      forall i
        ensures Excl(t, i)
      {
        EventExcl(s, events[0], i);
      }
      EventBud(s, events[0], id, stale);
      if !StaleMark(s, events[0], id) {
        NumberedFrom(t, events[1..], id, stale);
      }
    }
  }

  /**
   * Throughout a history every delivery of the job carries the number of its claim, if and only if
   * every mark that succeeded found the row's attempt equal to its copy's.
   */
  lemma NumberedIffFresh(events: seq<Event>, id: Id)
    requires History(EMPTY, events) && Exec(EMPTY, events).revived[id] == 0
    ensures NumberedAlong(EMPTY, events, id) <==> StaleMarks(EMPTY, events, id) == 0
  {
    NumberedFrom(EMPTY, events, id, 0);
  }

  lemma {:induction false} NumberedAtEnd(s: Sys, events: seq<Event>, id: Id)
    requires History(s, events) && NumberedAlong(s, events, id)
    ensures Numbered(Exec(s, events), id)
    decreases |events|
  {
    if |events| > 0 {
      NumberedAtEnd(Next(s, events[0]), events[1..], id);
    }
  }

  /**
   * When no mark was stale, a failed delivery buries the job exactly when its claim number has
   * reached max_attempts; otherwise the job is put back with a delay within the bounds.
   */
  lemma FailureDecides(events: seq<Event>, k: nat, retryAfter: Option<int>, jitter: real, now: int)
    requires History(EMPTY, events) && k < |Exec(EMPTY, events).live| && IsJitter(jitter)
    requires Exec(EMPTY, events).revived[Exec(EMPTY, events).live[k].id] == 0
    requires StaleMarks(EMPTY, events, Exec(EMPTY, events).live[k].id) == 0
    ensures
      var s := Exec(EMPTY, events);
      var id := s.live[k].id;
      var t := Next(s, Finish(k, FailedWith(retryAfter, jitter), now));
      && id in s.rows
      && id in t.rows
      && var row := s.rows[id];
         if s.claims[id] >= row.maxAttempts then t.rows == s.rows[id := row.(status := Dead, completedAt := Some(now))]
         else
           exists delay ::
             && DelayAfter(s.claims[id], retryAfter, jitter, delay)
             && (retryAfter == Some(delay) || 48 <= delay < 36864)
             && t.rows == s.rows[id := row.(status := Retryable, scheduledAt := now + 1000 * delay)]
  {
    var s := Exec(EMPTY, events);
    var id := s.live[k].id;
    HistoryExcl(EMPTY, events);
    NumberedIffFresh(events, id);
    NumberedAtEnd(EMPTY, events, id);
    assert Excl(s, id);
    CountPositive(s.live, id);
    RetryDelayBounds(s.claims[id], retryAfter, jitter);
    RetryDelayTable(s.claims[id], retryAfter, jitter);
  }

  // ---- One poller ----------------------------------------------------------

  /**
   * One claimer at a time, or claims in one statement: rows are only picked or claimed while no
   * picked row is still unmarked. The rest of a batch may be dropped.
   */
  predicate OnePoller(s: Sys, e: Event) {
    e.Select? || e.ClaimAtomic? ==> s.picked == []
  }

  ghost predicate OnePollerHistory(s: Sys, events: seq<Event>)
    requires History(s, events)
    decreases |events|
  {
    |events| == 0 || (OnePoller(s, events[0]) && OnePollerHistory(Next(s, events[0]), events[1..]))
  }

  /** The poller's copy of a row on offer is the row; a row it has picked is nobody else's. */
  ghost predicate FreshCopies(s: Sys, id: Id) {
    s.revived[id] == 0 ==>
      && (forall k :: 0 <= k < |s.picked| && s.picked[k].id == id && id in s.rows && Claimable(s.rows[id]) ==>
            s.picked[k].attempt == s.rows[id].attempt)
      && (CountOf(s.picked, id) > 0 ==> CountOf(s.live, id) == 0)
      && CountOf(s.picked, id) <= 1
  }

  lemma SelectFresh(s: Sys, t: Sys, ids: seq<Id>, now: int, id: Id)
    requires Excl(s, id) && DueBatch(s.rows, ids, now) && t == s.(picked := Copies(s.rows, ids))
    ensures FreshCopies(t, id)
  {
    CountCopies(s.rows, ids, id);
    if s.revived[id] == 0 && id in ids {
      assert PushDue(s.rows[id], now);
      assert Offered(s, id) == 1;
    }
  }

  lemma ShrinkFresh(s: Sys, t: Sys, k: nat, id: Id)
    requires FreshCopies(s, id) && k < |s.picked| && t == s.(picked := Without(s.picked, k))
    ensures FreshCopies(t, id)
    ensures s.revived[id] == 0 && s.picked[k].id == id ==> CountOf(t.picked, id) == 0
  {
    WithoutElements(s.picked, k);
    CountWithout(s.picked, k, id);
  }

  lemma MarkFresh(s: Sys, k: nat, now: int, id: Id)
    requires FreshCopies(s, id) && Enabled(s, MarkRunning(k, now))
    ensures FreshCopies(Next(s, MarkRunning(k, now)), id)
  {
    var between := s.(picked := Without(s.picked, k));
    var t := Next(s, MarkRunning(k, now));
    ShrinkFresh(s, between, k, id);
    MarkCounts(s, k, now, id);
    CountPositive(t.picked, id);
  }

  /** Settling a delivery changes no attempt, and no row but its own. */
  lemma SettledAttempts(rows: Table, d: Delivery, outcome: Outcome, now: int)
    ensures Settled(rows, d, outcome, now).Keys == rows.Keys
    ensures forall id | id in rows :: Settled(rows, d, outcome, now)[id].attempt == rows[id].attempt
    ensures forall id | id in rows && id != d.id :: Settled(rows, d, outcome, now)[id] == rows[id]
  {
  }

  lemma SettledFresh(s: Sys, t: Sys, k: nat, id: Id)
    requires FreshCopies(s, id) && k < |s.live| && t.picked == s.picked && t.revived == s.revived && t.live == Without(s.live, k)
    requires t.rows.Keys == s.rows.Keys && (id in s.rows ==> t.rows[id].attempt == s.rows[id].attempt)
    requires id in s.rows && id != s.live[k].id ==> t.rows[id] == s.rows[id]
    ensures FreshCopies(t, id)
  {
    FinishCounts(s, k, id);
    CountPositive(s.picked, id);
  }

  lemma FinishFresh(s: Sys, k: nat, outcome: Outcome, now: int, id: Id)
    requires FreshCopies(s, id) && Enabled(s, Finish(k, outcome, now))
    ensures FreshCopies(Next(s, Finish(k, outcome, now)), id)
  {
    SettledAttempts(s.rows, s.live[k], outcome, now);
    SettledFresh(s, Next(s, Finish(k, outcome, now)), k, id);
  }

  lemma EventFresh(s: Sys, e: Event, id: Id)
    requires Enabled(s, e) && OnePoller(s, e) && Excl(s, id) && FreshCopies(s, id)
    ensures FreshCopies(Next(s, e), id)
    ensures s.revived[id] == 0 ==> !StaleMark(s, e, id)
  {
    match e
    case Insert(newId, _) => CountPositive(s.picked, id);
    case ClaimAtomic(ids, _) => CountPositive(s.picked, id);
    case Select(ids, now) =>
      assert s.picked + Copies(s.rows, ids) == Copies(s.rows, ids);
      SelectFresh(s, Next(s, e), ids, now, id);
    case MarkRunning(k, now) => MarkFresh(s, k, now, id);
    case Drop(k) => ShrinkFresh(s, Next(s, e), k, id);
    case Finish(k, outcome, now) => FinishFresh(s, k, outcome, now, id);
    case Lose(k) => CountWithout(s.live, k, id);
    case _ =>
  }

  lemma {:induction false} FreshFrom(s: Sys, events: seq<Event>, id: Id)
    requires History(s, events) && OnePollerHistory(s, events)
    requires (forall i :: Excl(s, i)) && FreshCopies(s, id)
    ensures Exec(s, events).revived[id] == 0 ==> s.revived[id] == 0 && StaleMarks(s, events, id) == 0
    decreases |events|
  {
    if |events| > 0 {
      var t := Next(s, events[0]);
      forall i
        ensures Excl(t, i)
      {
        EventExcl(s, events[0], i);
      }
      EventFresh(s, events[0], id);
      FreshFrom(t, events[1..], id);
    }
  }

  /** One poller that selects, marks and drops, or any number that claim in one statement, never marks a stale copy. */
  lemma OnePollerIsFresh(events: seq<Event>, id: Id)
    requires History(EMPTY, events) && OnePollerHistory(EMPTY, events)
    requires Exec(EMPTY, events).revived[id] == 0
    ensures StaleMarks(EMPTY, events, id) == 0
  {
    FreshFrom(EMPTY, events, id);
  }

  // ---- The bound is reached ------------------------------------------------

  lemma {:induction false} HistoryAppend(s: Sys, first: seq<Event>, second: seq<Event>, id: Id)
    requires History(s, first) && History(Exec(s, first), second)
    ensures History(s, first + second) && Exec(s, first + second) == Exec(Exec(s, first), second)
    ensures StaleMarks(s, first + second, id) == StaleMarks(s, first, id) + StaleMarks(Exec(s, first), second, id)
    decreases |first|
  {
    if |first| == 0 {
      assert first + second == second;
    } else {
      assert (first + second)[1..] == first[1..] + second;
      HistoryAppend(Next(s, first[0]), first[1..], second, id);
    }
  }

  lemma OneEvent(s: Sys, e: Event, id: Id)
    requires Enabled(s, e)
    ensures History(s, [e]) && Exec(s, [e]) == Next(s, e)
    ensures StaleMarks(s, [e], id) == if StaleMark(s, e, id) then 1 else 0
  {
    assert [e][1..] == [];
  }

  const FAIL: Outcome := FailedWith(None, 1.0)

  /** Only copies of row `id`, which is on offer after `attempt` claims and `failed` failures, are about. */
  ghost predicate OnOffer(s: Sys, id: Id, maxAttempts: nat, attempt: nat, failed: nat) {
    && s.live == []
    && s.revived[id] == 0
    && s.failures[id] == failed
    && id in s.rows
    && Claimable(s.rows[id])
    && !IsQueue(s.rows[id].handler)
    && s.rows[id].maxAttempts == maxAttempts
    && s.rows[id].attempt == attempt
  }

  /** The first picked copy is marked, delivered and fails. */
  lemma OneFailure(s: Sys, id: Id, m: nat, a: nat, f: nat) returns (events: seq<Event>)
    requires OnOffer(s, id, m, a, f) && |s.picked| > 0 && s.picked[0].id == id
    ensures History(s, events)
    ensures
      var t := Exec(s, events);
      && t.picked == s.picked[1..]
      && t.revived[id] == 0 && t.failures[id] == f + 1
      && id in t.rows && t.rows[id].maxAttempts == m
      && (s.picked[0].attempt + 1 < m ==> OnOffer(t, id, m, a + 1, f + 1))
    ensures StaleMarks(s, events, id) == if s.picked[0].attempt == a then 0 else 1
  {
    var mark := MarkRunning(0, 0);
    var marked := Next(s, mark);
    assert marked.live == [s.picked[0]];
    var finish := Finish(0, FAIL, 0);
    assert Without(marked.live, 0) == [];
    OneEvent(s, mark, id);
    OneEvent(marked, finish, id);
    HistoryAppend(s, [mark], [finish], id);
    events := [mark] + [finish];
  }

  /** `n` copies of the row are picked one after the other. */
  lemma {:induction false} PickCopies(s: Sys, id: Id, m: nat, a: nat, f: nat, n: nat) returns (events: seq<Event>)
    requires OnOffer(s, id, m, a, f)
    ensures History(s, events) && StaleMarks(s, events, id) == 0
    ensures
      var t := Exec(s, events);
      && OnOffer(t, id, m, a, f)
      && |t.picked| == |s.picked| + n
      && (forall k :: 0 <= k < |s.picked| ==> t.picked[k] == s.picked[k])
      && (forall k :: |s.picked| <= k < |t.picked| ==> t.picked[k] == Delivery(id, a))
    decreases n
  {
    if n == 0 {
      events := [];
    } else {
      var select := Select([id], s.rows[id].scheduledAt);
      OneEvent(s, select, id);
      var rest := PickCopies(Next(s, select), id, m, a, f, n - 1);
      HistoryAppend(s, [select], rest, id);
      events := [select] + rest;
    }
  }

  /** Copies taken before attempt `c` all fail without burying the job. */
  lemma {:induction false} FailCopies(s: Sys, id: Id, m: nat, a: nat, f: nat, c: nat) returns (events: seq<Event>)
    requires OnOffer(s, id, m, a, f) && c <= a && c + 1 < m
    requires forall k :: 0 <= k < |s.picked| ==> s.picked[k] == Delivery(id, c)
    ensures History(s, events)
    ensures OnOffer(Exec(s, events), id, m, a + |s.picked|, f + |s.picked|) && Exec(s, events).picked == []
    ensures StaleMarks(s, events, id) == if a == c && |s.picked| > 0 then |s.picked| - 1 else |s.picked|
    decreases |s.picked|
  {
    if |s.picked| == 0 {
      events := [];
    } else {
      var one := OneFailure(s, id, m, a, f);
      var rest := FailCopies(Exec(s, one), id, m, a + 1, f + 1, c);
      HistoryAppend(s, one, rest, id);
      events := one + rest;
    }
  }

  /** `n + 1` pollers pick the row at the same time; all their deliveries fail. */
  lemma Burst(s: Sys, id: Id, m: nat, a: nat, f: nat, n: nat) returns (events: seq<Event>)
    requires OnOffer(s, id, m, a, f) && s.picked == [] && a + 1 < m
    ensures History(s, events) && StaleMarks(s, events, id) == n
    ensures OnOffer(Exec(s, events), id, m, a + n + 1, f + n + 1) && Exec(s, events).picked == []
  {
    var pick := PickCopies(s, id, m, a, f, n + 1);
    var fail := FailCopies(Exec(s, pick), id, m, a, f, a);
    HistoryAppend(s, pick, fail, id);
    events := pick + fail;
  }

  /** Copies picked one at a time are delivered and fail, `n` times. */
  lemma {:induction false} Attempts(s: Sys, id: Id, m: nat, a: nat, n: nat) returns (events: seq<Event>)
    requires OnOffer(s, id, m, a, a) && s.picked == [] && a + n < m
    ensures History(s, events) && StaleMarks(s, events, id) == 0
    ensures OnOffer(Exec(s, events), id, m, a + n, a + n) && Exec(s, events).picked == []
    decreases n
  {
    if n == 0 {
      events := [];
    } else {
      var one := Burst(s, id, m, a, a, 0);
      var rest := Attempts(Exec(s, one), id, m, a + 1, n - 1);
      HistoryAppend(s, one, rest, id);
      events := one + rest;
    }
  }

  lemma LastAttempt(s: Sys, id: Id, m: nat, a: nat, f: nat) returns (events: seq<Event>)
    requires OnOffer(s, id, m, a, f) && s.picked == []
    ensures History(s, events) && StaleMarks(s, events, id) == 0
    ensures Exec(s, events).failures[id] == f + 1 && Exec(s, events).revived[id] == 0
    ensures id in Exec(s, events).rows && Exec(s, events).rows[id].maxAttempts == m
  {
    var pick := PickCopies(s, id, m, a, f, 1);
    var fail := OneFailure(Exec(s, pick), id, m, a, f);
    HistoryAppend(s, pick, fail, id);
    events := pick + fail;
  }

  /**
   * The bound of FailureBudget is the best possible: for every number of attempts from 2 and every
   * number `n` of stale marks there is a history with `n` stale marks, without revivals, in which
   * the job has failed `n` times more than its max_attempts. Two pollers are enough for one.
   */
  lemma StaleMarksOverrun(m: nat, n: nat) returns (events: seq<Event>, id: Id)
    requires m >= 2
    ensures History(EMPTY, events)
    ensures
      var t := Exec(EMPTY, events);
      && id in t.rows
      && t.rows[id].maxAttempts == m
      && t.revived[id] == 0
      && StaleMarks(EMPTY, events, id) == n
      && t.failures[id] == m + n
  {
    id := "j";
    var insert := Insert(id, Row("e", "h", Available, 0, m, 0, None, None, 0));
    OneEvent(EMPTY, insert, id);
    var s0 := Next(EMPTY, insert);
    var single := Attempts(s0, id, m, 0, m - 2);
    var s1 := Exec(s0, single);
    var double := Burst(s1, id, m, m - 2, m - 2, n);
    var s2 := Exec(s1, double);
    var last := LastAttempt(s2, id, m, m - 1 + n, m - 1 + n);
    HistoryAppend(s1, double, last, id);
    HistoryAppend(s0, single, double + last, id);
    HistoryAppend(EMPTY, [insert], single + (double + last), id);
    events := [insert] + (single + (double + last));
  }
}
