/** Accepting an event with its jobs, and every later history of both. */
module Ingest {
  import opened Wrappers
  import opened Jobs
  import opened JobStore

  // ---- Which jobs an event gets --------------------------------------------

  /**
   * A configured handler or queue as one event sees it. `key` is the configured idempotency key,
   * with the value found in the payload.
   */
  datatype Rule = Rule(name: string, matches: bool, passes: bool, maxAttempts: nat, key: Option<Option<string>>)

  datatype Planned = Planned(handler: string, maxAttempts: nat)

  function Matching(rules: seq<Rule>): seq<Rule> {
    if |rules| == 0 then []
    else Matching(rules[..|rules| - 1]) + if rules[|rules| - 1].matches then [rules[|rules| - 1]] else []
  }

  /** The jobs of the rules that match and whose filter passes, named with `prefix`. */
  function PlanOf(rules: seq<Rule>, prefix: string): seq<Planned> {
    if |rules| == 0 then []
    else
      var last := rules[|rules| - 1];
      PlanOf(rules[..|rules| - 1], prefix)
      + if last.matches && last.passes then [Planned(prefix + last.name, last.maxAttempts)] else []
  }

  /** A configured limit as the 32-bit column keeps it. */
  function Column(n: nat): nat {
    if n <= 0x7fff_ffff then n else 0x7fff_ffff
  }

  /** The key that makes an event a duplicate: the first matching handler's, else the first queue's. */
  function UniqueKey(handlers: seq<Rule>, queues: seq<Rule>): Option<string> {
    var hs, qs := Matching(handlers), Matching(queues);
    if |hs| > 0 && hs[0].key.Some? then hs[0].key.value
    else if |qs| > 0 && qs[0].key.Some? then qs[0].key.value
    else None
  }

  method CollectJobs(handlers: seq<Rule>, queues: seq<Rule>) returns (jobs: seq<Planned>)
    ensures jobs == PlanOf(handlers, "") + PlanOf(queues, QUEUE_PREFIX)
  {
    jobs := [];
    for k := 0 to |handlers|
      invariant jobs == PlanOf(handlers[..k], "")
    {
      assert handlers[..k + 1][..k] == handlers[..k];
      if handlers[k].matches && handlers[k].passes {
        jobs := jobs + [Planned("" + handlers[k].name, handlers[k].maxAttempts)];
      }
    }
    assert handlers[..|handlers|] == handlers;
    for k := 0 to |queues|
      invariant jobs == PlanOf(handlers, "") + PlanOf(queues[..k], QUEUE_PREFIX)
    {
      assert queues[..k + 1][..k] == queues[..k];
      if queues[k].matches && queues[k].passes {
        jobs := jobs + [Planned(QUEUE_PREFIX + queues[k].name, queues[k].maxAttempts)];
      }
    }
    assert queues[..|queues|] == queues;
  }

  /** Exactly the matching rules whose filter passes get a job. */
  lemma {:induction false} PlanIsComplete(rules: seq<Rule>, prefix: string, job: Planned)
    ensures job in PlanOf(rules, prefix) <==>
      exists k :: 0 <= k < |rules| && rules[k].matches && rules[k].passes && job == Planned(prefix + rules[k].name, rules[k].maxAttempts)
  {
    if |rules| > 0 {
      var n := |rules| - 1;
      PlanIsComplete(rules[..n], prefix, job);
      assert forall k :: 0 <= k < n ==> rules[..n][k] == rules[k];
      if k :| 0 <= k < |rules| && rules[k].matches && rules[k].passes && job == Planned(prefix + rules[k].name, rules[k].maxAttempts) {
        assert k < n ==> rules[..n][k] == rules[k];
      }
    }
  }

  // ---- The tables ----------------------------------------------------------

  datatype EventRow = EventRow(source: string, key: Option<string>)

  /** An event to accept: its fresh id, and its jobs with their fresh ids. */
  datatype Arrival = Arrival(id: Id, source: string, key: Option<string>, jobs: seq<(Id, Planned)>, now: int)

  function PlanOfJobs(jobs: seq<(Id, Planned)>): seq<Planned> {
    seq(|jobs|, k requires 0 <= k < |jobs| => jobs[k].1)
  }

  /** The configuration as one event sees it. */
  datatype Rules = Rules(handlers: seq<Rule>, queues: seq<Rule>)

  function Plan(r: Rules): seq<Planned> {
    PlanOf(r.handlers, "") + PlanOf(r.queues, QUEUE_PREFIX)
  }

  /** Key and jobs are those that the configuration gives the event. */
  predicate Follows(r: Rules, key: Option<string>, jobs: seq<(Id, Planned)>) {
    key == UniqueKey(r.handlers, r.queues) && PlanOfJobs(jobs) == Plan(r)
  }

  type Events = map<Id, EventRow>

  predicate Duplicate(events: Events, source: string, key: Option<string>) {
    key.Some? && exists e | e in events :: events[e].source == source && events[e].key == key
  }

  function JobRow(a: Arrival, k: nat): Row
    requires k < |a.jobs|
  {
    Row(a.id, a.jobs[k].1.handler, Available, 0, Column(a.jobs[k].1.maxAttempts), a.now, None, None, a.now)
  }

  /** The jobs table after the first `n` job inserts. */
  function InsertJobs(t: Table, a: Arrival, n: nat): Table
    requires n <= |a.jobs|
  {
    if n == 0 then t else InsertJobs(t, a, n - 1)[a.jobs[n - 1].0 := JobRow(a, n - 1)]
  }

  predicate FreshIds(events: Events, jobs: Table, a: Arrival) {
    && a.id !in events
    && (forall k :: 0 <= k < |a.jobs| ==> a.jobs[k].0 !in jobs)
    && (forall i, k :: 0 <= i < k < |a.jobs| ==> a.jobs[i].0 != a.jobs[k].0)
  }

  lemma {:induction false} InsertedRows(t: Table, a: Arrival, n: nat)
    requires n <= |a.jobs| && (forall i, k :: 0 <= i < k < |a.jobs| ==> a.jobs[i].0 != a.jobs[k].0)
    ensures forall k :: 0 <= k < n ==> a.jobs[k].0 in InsertJobs(t, a, n) && InsertJobs(t, a, n)[a.jobs[k].0] == JobRow(a, k)
    ensures forall id | id in InsertJobs(t, a, n) ::
      (exists k :: 0 <= k < n && id == a.jobs[k].0) || (id in t && InsertJobs(t, a, n)[id] == t[id])
    ensures forall id | id in t :: id in InsertJobs(t, a, n)
  {
    if n > 0 {
      InsertedRows(t, a, n - 1);
    }
  }

  /** The `k`th planned job is there: available, untried, and due from the arrival on. */
  ghost predicate Queued(jobs: Table, a: Arrival, k: nat)
    requires k < |a.jobs|
  {
    var (id, plan) := a.jobs[k];
    var limit := if plan.maxAttempts > 2147483647 then 2147483647 else plan.maxAttempts;
    id in jobs && jobs[id] == Row(a.id, plan.handler, Available, 0, limit, a.now, None, None, a.now)
  }

  /** `after` is `before` with the first `n` planned jobs. */
  ghost predicate Added(before: Table, after: Table, a: Arrival, n: nat)
    requires n <= |a.jobs|
  {
    && (forall id | id in before :: id in after && after[id] == before[id])
    && (forall id | id in after :: id in before || exists k :: 0 <= k < n && a.jobs[k].0 == id)
    && (forall k :: 0 <= k < n ==> Queued(after, a, k))
  }

  lemma InsertAdds(t: Table, a: Arrival, n: nat)
    requires n <= |a.jobs| && (forall i, k :: 0 <= i < k < |a.jobs| ==> a.jobs[i].0 != a.jobs[k].0)
    requires forall k :: 0 <= k < |a.jobs| ==> a.jobs[k].0 !in t
    ensures Added(t, InsertJobs(t, a, n), a, n)
  {
    InsertedRows(t, a, n);
  }

  class EventStore {
    var events: Events
    var jobs: Table

    constructor ()
      ensures events == map[] && jobs == map[]
    {
      events, jobs := map[], map[];
    }

    /**
     * One transaction; `crashAt` is the statement (counted from 0, the commit included) before
     * which the process dies. No answer means that it died.
     */
    method InsertEventAndJobs(a: Arrival, crashAt: Option<nat>) returns (created: Option<bool>)
      requires FreshIds(events, jobs, a)
      modifies this
      ensures created != Some(true) ==> events == old(events) && jobs == old(jobs)
      ensures created == Some(true) ==> events == old(events)[a.id := EventRow(a.source, a.key)] && Added(old(jobs), jobs, a, |a.jobs|)
      ensures
        var known := a.key != None && exists e | e in old(events) :: old(events)[e] == EventRow(a.source, a.key);
        && (created == None <==> crashAt == Some(0) || (!known && crashAt != None && crashAt.value <= |a.jobs| + 1))
        && (created == Some(false) <==> known && crashAt != Some(0))
    {
      if crashAt == Some(0) {
        return None;
      }
      if Duplicate(events, a.source, a.key) {
        return Some(false); // rollback
      }
      var txEvents := events[a.id := EventRow(a.source, a.key)];
      var txJobs := jobs;
      for k := 0 to |a.jobs|
        invariant events == old(events) && jobs == old(jobs)
        invariant txJobs == InsertJobs(jobs, a, k)
        invariant crashAt.Some? ==> crashAt.value > k
      {
        if crashAt == Some(k + 1) {
          return None;
        }
        txJobs := txJobs[a.jobs[k].0 := JobRow(a, k)];
      }
      if crashAt == Some(|a.jobs| + 1) {
        return None;
      }
      InsertAdds(jobs, a, |a.jobs|);
      events, jobs := txEvents, txJobs;
      return Some(true);
    }

    /** The HTTP backend: every statement is durable at once. */
    method InsertOneByOne(a: Arrival, crashAt: Option<nat>) returns (created: Option<bool>)
      requires FreshIds(events, jobs, a)
      modifies this
      ensures (events, jobs) == OneByOne(old(events), old(jobs), a, crashAt)
      ensures
        var known := a.key != None && exists e | e in old(events) :: old(events)[e] == EventRow(a.source, a.key);
        if crashAt == Some(0) || known then
          events == old(events) && jobs == old(jobs) && created == if crashAt == Some(0) then None else Some(false)
        else
          var n := if crashAt != None && crashAt.value <= |a.jobs| then crashAt.value - 1 else |a.jobs|;
          && events == old(events)[a.id := EventRow(a.source, a.key)]
          && Added(old(jobs), jobs, a, n)
          && created == if crashAt != None && crashAt.value <= |a.jobs| then None else Some(true)
    {
      if crashAt == Some(0) {
        return None;
      }
      if Duplicate(events, a.source, a.key) {
        return Some(false);
      }
      events := events[a.id := EventRow(a.source, a.key)];
      for k := 0 to |a.jobs|
        invariant events == old(events)[a.id := EventRow(a.source, a.key)]
        invariant jobs == InsertJobs(old(jobs), a, k)
        invariant crashAt.Some? ==> crashAt.value > k
      {
        if crashAt == Some(k + 1) {
          InsertAdds(old(jobs), a, k);
          return None;
        }
        jobs := jobs[a.jobs[k].0 := JobRow(a, k)];
      }
      InsertAdds(old(jobs), a, |a.jobs|);
      return Some(true);
    }
  }

  /** Tables after inserting one by one with a crash before statement `crashAt`. */
  function OneByOne(events: Events, jobs: Table, a: Arrival, crashAt: Option<nat>): (Events, Table) {
    if crashAt == Some(0) || Duplicate(events, a.source, a.key) then (events, jobs)
    else
      var n := if crashAt.Some? && crashAt.value <= |a.jobs| then crashAt.value - 1 else |a.jobs|;
      (events[a.id := EventRow(a.source, a.key)], InsertJobs(jobs, a, n))
  }

  // ---- Histories -----------------------------------------------------------

  /** Every statement that changes job rows, and the two that remove them. */
  datatype Statement =
    | Claim(ids: set<Id>, now: int)
    | Complete(id: Id, now: int)
    | Reschedule(id: Id, at: int)
    | Bury(id: Id, now: int)
    | Stale(now: int, secs: int)
    | QueueTimeout(handler: string, now: int, secs: int)
    | Expire(now: int, secs: int)
    | Retry(ids: set<Id>, now: int, reset: bool)
    | Ack(handler: string, listed: seq<Id>, now: int)
    | Clean(now: int, hours: int)
    | Drain(handler: string)

  function Apply(t: Table, st: Statement): Table {
    match st
    case Claim(ids, now) => ClaimAll(t, ids, now)
    case Complete(id, now) => MarkCompleted(t, id, now)
    case Reschedule(id, at) => MarkRetryable(t, id, at)
    case Bury(id, now) => MarkDead(t, id, now)
    case Stale(now, secs) => Jobs.RecoverStale(t, now, secs)
    case QueueTimeout(handler, now, secs) => RecoverQueue(t, handler, now, secs)
    case Expire(now, secs) => ExpireOld(t, now, secs)
    case Retry(ids, now, reset) => RetryAll(t, ids, now, reset)
    case Ack(handler, listed, now) => Acked(t, handler, listed, now)
    case Clean(now, hours) => Cleanup(t, now, hours)
    case Drain(handler) => DeleteByHandler(t, handler)
  }

  /**
   * The tables, with what was planned for each accepted event, for which rules, and which rows were
   * removed how.
   */
  datatype Db = Db(
    events: Events,
    jobs: Table,
    plan: map<Id, seq<(Id, Planned)>>,
    rules: map<Id, Rules>,
    cleaned: set<Id>,
    drained: set<Id>)

  datatype Op = Accept(rules: Rules, arrival: Arrival, crashed: bool) | Sql(statement: Statement)

  predicate Possible(db: Db, op: Op) {
    op.Accept? ==>
      && Follows(op.rules, op.arrival.key, op.arrival.jobs)
      && FreshIds(db.events, db.jobs, op.arrival)
      && forall k :: 0 <= k < |op.arrival.jobs| ==> op.arrival.jobs[k].0 !in db.cleaned + db.drained
  }

  function Next(db: Db, op: Op): Db
    requires Possible(db, op)
  {
    match op
    case Accept(r, a, crashed) =>
      if crashed || Duplicate(db.events, a.source, a.key) then db
      else
        db.(events := db.events[a.id := EventRow(a.source, a.key)],
            jobs := InsertJobs(db.jobs, a, |a.jobs|),
            plan := db.plan[a.id := a.jobs],
            rules := db.rules[a.id := r])
    case Sql(st) =>
      var after := Apply(db.jobs, st);
      var gone := db.jobs.Keys - after.Keys;
      match st
      case Clean(_, _) => db.(jobs := after, cleaned := db.cleaned + gone)
      case Drain(_) => db.(jobs := after, drained := db.drained + gone)
      case _ => db.(jobs := after)
  }

  ghost predicate History(db: Db, ops: seq<Op>)
    decreases |ops|
  {
    |ops| == 0 || (Possible(db, ops[0]) && History(Next(db, ops[0]), ops[1..]))
  }

  ghost function Exec(db: Db, ops: seq<Op>): Db
    requires History(db, ops)
    decreases |ops|
  {
    if |ops| == 0 then db else Exec(Next(db, ops[0]), ops[1..])
  }

  const EMPTY: Db := Db(map[], map[], map[], map[], {}, {})

  ghost predicate UniqueKeys(events: Events) {
    forall e, f | e in events && f in events && e != f ::
      !(events[e].source == events[f].source && events[e].key.Some? && events[e].key == events[f].key)
  }

  /** The planned job is there, as a row of its event with its handler, or was removed. */
  predicate Accounted(db: Db, e: Id, job: (Id, Planned)) {
    job.0 in db.cleaned || job.0 in db.drained
    || (job.0 in db.jobs && db.jobs[job.0].event == e && db.jobs[job.0].handler == job.1.handler
        && db.jobs[job.0].maxAttempts == Column(job.1.maxAttempts))
  }

  ghost predicate Conserved(db: Db) {
    && UniqueKeys(db.events)
    && db.plan.Keys == db.rules.Keys == db.events.Keys
    && (forall e | e in db.events :: Follows(db.rules[e], db.events[e].key, db.plan[e]))
    && (forall id | id in db.jobs :: db.jobs[id].event in db.events)
    && (forall id | id in db.jobs :: Terminal(db.jobs[id]) ==> db.jobs[id].completedAt.Some?)
    && (forall e | e in db.plan :: forall k :: 0 <= k < |db.plan[e]| ==> Accounted(db, e, db.plan[e][k]))
  }

  lemma NewKeyIsUnique(events: Events, id: Id, source: string, key: Option<string>)
    requires UniqueKeys(events) && id !in events && !Duplicate(events, source, key)
    ensures UniqueKeys(events[id := EventRow(source, key)])
  {
  }

  lemma AcceptKeepsKeys(db: Db, r: Rules, a: Arrival)
    requires Conserved(db) && Possible(db, Accept(r, a, false)) && !Duplicate(db.events, a.source, a.key)
    ensures
      var t := Next(db, Accept(r, a, false));
      && UniqueKeys(t.events)
      && t.plan.Keys == t.rules.Keys == t.events.Keys
      && forall e | e in t.events :: Follows(t.rules[e], t.events[e].key, t.plan[e])
  {
    var t := Next(db, Accept(r, a, false));
    NewKeyIsUnique(db.events, a.id, a.source, a.key);
    assert t.events.Keys == db.events.Keys + {a.id};
  }

  lemma AcceptKeepsRows(db: Db, r: Rules, a: Arrival)
    requires Conserved(db) && Possible(db, Accept(r, a, false)) && !Duplicate(db.events, a.source, a.key)
    ensures
      var t := Next(db, Accept(r, a, false));
      && (forall id | id in t.jobs :: t.jobs[id].event in t.events)
      && (forall id | id in t.jobs :: Terminal(t.jobs[id]) ==> t.jobs[id].completedAt.Some?)
  {
    InsertedRows(db.jobs, a, |a.jobs|);
  }

  lemma AcceptConserves(db: Db, r: Rules, a: Arrival)
    requires Conserved(db) && Possible(db, Accept(r, a, false)) && !Duplicate(db.events, a.source, a.key)
    ensures Conserved(Next(db, Accept(r, a, false)))
  {
    var t := Next(db, Accept(r, a, false));
    AcceptKeepsKeys(db, r, a);
    AcceptKeepsRows(db, r, a);
    forall e, k | e in t.plan && 0 <= k < |t.plan[e]|
      ensures Accounted(t, e, t.plan[e][k])
    {
      AcceptAccounts(db, r, a, e, k);
    }
  }

  lemma AcceptAccounts(db: Db, r: Rules, a: Arrival, e: Id, k: nat)
    requires Conserved(db) && Possible(db, Accept(r, a, false)) && !Duplicate(db.events, a.source, a.key)
    requires e in Next(db, Accept(r, a, false)).plan && k < |Next(db, Accept(r, a, false)).plan[e]|
    ensures Accounted(Next(db, Accept(r, a, false)), e, Next(db, Accept(r, a, false)).plan[e][k])
  {
    InsertedRows(db.jobs, a, |a.jobs|);
    if e != a.id {
      assert Accounted(db, e, db.plan[e][k]);
      OldRowKept(db.jobs, a, db.plan[e][k].0);
    }
  }

  lemma OldRowKept(t: Table, a: Arrival, id: Id)
    requires (forall k :: 0 <= k < |a.jobs| ==> a.jobs[k].0 !in t)
    requires (forall i, k :: 0 <= i < k < |a.jobs| ==> a.jobs[i].0 != a.jobs[k].0)
    ensures id in t ==> id in InsertJobs(t, a, |a.jobs|) && InsertJobs(t, a, |a.jobs|)[id] == t[id]
  {
    InsertedRows(t, a, |a.jobs|);
  }

  /** No statement moves a row to another event or handler, changes its max_attempts, or ends it without a completion time. */
  lemma StatementKeepsRows(t: Table, st: Statement)
    requires forall id | id in t :: Terminal(t[id]) ==> t[id].completedAt.Some?
    ensures Apply(t, st).Keys <= t.Keys
    ensures forall id | id in Apply(t, st) ::
      && Apply(t, st)[id].event == t[id].event
      && Apply(t, st)[id].handler == t[id].handler
      && Apply(t, st)[id].maxAttempts == t[id].maxAttempts
    ensures forall id | id in Apply(t, st) :: Terminal(Apply(t, st)[id]) ==> Apply(t, st)[id].completedAt.Some?
    ensures !st.Clean? && !st.Drain? ==> Apply(t, st).Keys == t.Keys
    ensures st.Clean? ==> forall id | id in t && id !in Apply(t, st) :: Terminal(t[id])
    ensures st.Drain? ==> forall id | id in t && id !in Apply(t, st) :: t[id].handler == st.handler
  {
  }

  lemma SqlConserves(db: Db, st: Statement)
    requires Conserved(db)
    ensures Conserved(Next(db, Sql(st)))
  {
    var t := Next(db, Sql(st));
    StatementKeepsRows(db.jobs, st);
    forall e | e in t.plan
      ensures forall k :: 0 <= k < |t.plan[e]| ==> Accounted(t, e, t.plan[e][k])
    {
      forall k | 0 <= k < |t.plan[e]|
        ensures Accounted(t, e, t.plan[e][k])
      {
        assert Accounted(db, e, db.plan[e][k]);
      }
    }
  }

  lemma {:induction false} HistoryConserves(db: Db, ops: seq<Op>)
    requires Conserved(db) && History(db, ops)
    ensures Conserved(Exec(db, ops))
    decreases |ops|
  {
    if |ops| > 0 {
      match ops[0] {
        case Accept(r, a, crashed) =>
          if !crashed && !Duplicate(db.events, a.source, a.key) {
            AcceptConserves(db, r, a);
          }
        case Sql(st) => SqlConserves(db, st);
      }
      HistoryConserves(Next(db, ops[0]), ops[1..]);
    }
  }

  /** The rule's job for event `e` was planned, and is there or was removed. */
  ghost predicate Served(db: Db, e: Id, rule: Rule, prefix: string)
    requires e in db.plan
  {
    exists k :: 0 <= k < |db.plan[e]| && db.plan[e][k].1 == Planned(prefix + rule.name, rule.maxAttempts) && Accounted(db, e, db.plan[e][k])
  }

  lemma PlannedIsServed(db: Db, e: Id, job: Planned) returns (k: nat)
    requires Conserved(db) && e in db.events && job in Plan(db.rules[e])
    ensures k < |db.plan[e]| && db.plan[e][k].1 == job && Accounted(db, e, db.plan[e][k])
  {
    var plan := Plan(db.rules[e]);
    k :| 0 <= k < |plan| && plan[k] == job;
    assert plan == PlanOfJobs(db.plan[e]);
  }

  /** Every rule that wants an accepted event has its job, whatever happened since. */
  lemma RulesAreServed(db: Db, e: Id)
    requires Conserved(db) && e in db.events
    ensures forall rule | rule in db.rules[e].handlers && rule.matches && rule.passes :: Served(db, e, rule, "")
    ensures forall rule | rule in db.rules[e].queues && rule.matches && rule.passes :: Served(db, e, rule, QUEUE_PREFIX)
  {
    forall rule | rule in db.rules[e].handlers && rule.matches && rule.passes
      ensures Served(db, e, rule, "")
    {
      PlanIsComplete(db.rules[e].handlers, "", Planned("" + rule.name, rule.maxAttempts));
      var k := PlannedIsServed(db, e, Planned("" + rule.name, rule.maxAttempts));
    }
    forall rule | rule in db.rules[e].queues && rule.matches && rule.passes
      ensures Served(db, e, rule, QUEUE_PREFIX)
    {
      PlanIsComplete(db.rules[e].queues, QUEUE_PREFIX, Planned(QUEUE_PREFIX + rule.name, rule.maxAttempts));
      var k := PlannedIsServed(db, e, Planned(QUEUE_PREFIX + rule.name, rule.maxAttempts));
    }
  }

  /**
   * Over any sequence of arrivals, duplicates, crashes and statements: at most one event for each
   * source and key, the key being the one its rules give it; every job's event row exists; every
   * ended row has its completion time; and every rule that matches an accepted event and whose
   * filter passes has its job, or it was cleaned up, or drained.
   */
  lemma NothingIsLost(ops: seq<Op>)
    requires History(EMPTY, ops)
    ensures
      var db := Exec(EMPTY, ops);
      && Conserved(db)
      && forall e | e in db.events ::
           && e in db.plan && e in db.rules
           && (forall rule | rule in db.rules[e].handlers && rule.matches && rule.passes :: Served(db, e, rule, ""))
           && (forall rule | rule in db.rules[e].queues && rule.matches && rule.passes :: Served(db, e, rule, QUEUE_PREFIX))
  {
    HistoryConserves(EMPTY, ops);
    var db := Exec(EMPTY, ops);
    forall e | e in db.events
      ensures forall rule | rule in db.rules[e].handlers && rule.matches && rule.passes :: Served(db, e, rule, "")
      ensures forall rule | rule in db.rules[e].queues && rule.matches && rule.passes :: Served(db, e, rule, QUEUE_PREFIX)
    {
      RulesAreServed(db, e);
    }
  }

  /** Once accepted an event stays, with its plan. */
  lemma {:induction false} EventsStay(db: Db, ops: seq<Op>, e: Id)
    requires History(db, ops) && e in db.events && e in db.plan
    ensures e in Exec(db, ops).events && Exec(db, ops).events[e] == db.events[e]
    ensures e in Exec(db, ops).plan && Exec(db, ops).plan[e] == db.plan[e]
    decreases |ops|
  {
    if |ops| > 0 {
      EventsStay(Next(db, ops[0]), ops[1..], e);
    }
  }

  // ---- Accepted jobs can be delivered --------------------------------------

  /** A queued job can be fetched from its arrival on, for push delivery or from its queue. */
  lemma QueuedIsDue(jobs: Table, a: Arrival, k: nat, now: int)
    requires k < |a.jobs| && Queued(jobs, a, k)
    ensures
      var (id, plan) := a.jobs[k];
      && (id in QueueDueIds(jobs, plan.handler, now) <==> now >= a.now)
      && (id in PushDueIds(jobs, now) <==> now >= a.now && !("queue/" <= plan.handler))
  {
  }

  /** Nothing in the operation names row `id` of `handler`, created at `created`, or is about rows like it. */
  predicate LeavesAlone(op: Op, id: Id, handler: string, created: int) {
    match op
    case Accept(_, _, _) => true
    case Sql(Claim(ids, _)) => id !in ids
    case Sql(Complete(i, _)) => i != id
    case Sql(Reschedule(i, _)) => i != id
    case Sql(Bury(i, _)) => i != id
    case Sql(Retry(ids, _, _)) => id !in ids
    case Sql(Expire(now, secs)) => now - created < 1000 * secs
    case Sql(Drain(h)) => h != handler
    case Sql(Ack(_, _, _)) => true
    case Sql(Stale(_, _)) => true
    case Sql(QueueTimeout(_, _, _)) => true
    case Sql(Clean(_, _)) => true
  }

  lemma OperationLeavesQueued(db: Db, op: Op, a: Arrival, k: nat)
    requires Possible(db, op) && k < |a.jobs| && Queued(db.jobs, a, k)
    requires LeavesAlone(op, a.jobs[k].0, a.jobs[k].1.handler, a.now)
    ensures Queued(Next(db, op).jobs, a, k)
  {
    match op
    case Accept(_, other, _) => OldRowKept(db.jobs, other, a.jobs[k].0);
    case Sql(_) =>
  }

  /**
   * A planned job stays as it was inserted, and due, over every history that does not claim, end,
   * move or retry it by its id, drain its handler, or expire jobs of its age. Acknowledgements,
   * recoveries and cleanups pass it by.
   */
  lemma {:induction false} StaysQueued(db: Db, ops: seq<Op>, a: Arrival, k: nat)
    requires History(db, ops) && k < |a.jobs| && Queued(db.jobs, a, k)
    requires forall op | op in ops :: LeavesAlone(op, a.jobs[k].0, a.jobs[k].1.handler, a.now)
    ensures Queued(Exec(db, ops).jobs, a, k)
    decreases |ops|
  {
    if |ops| > 0 {
      OperationLeavesQueued(db, ops[0], a, k);
      StaysQueued(Next(db, ops[0]), ops[1..], a, k);
    }
  }

  /**
   * Accepting an event queues each of its jobs; until something is done to the job it can be fetched,
   * and only from its arrival on.
   */
  lemma AcceptedStaysDue(db: Db, r: Rules, a: Arrival, ops: seq<Op>, k: nat, now: int)
    requires Possible(db, Accept(r, a, false)) && !Duplicate(db.events, a.source, a.key) && k < |a.jobs|
    requires History(Next(db, Accept(r, a, false)), ops)
    requires forall op | op in ops :: LeavesAlone(op, a.jobs[k].0, a.jobs[k].1.handler, a.now)
    ensures
      var jobs := Exec(Next(db, Accept(r, a, false)), ops).jobs;
      var (id, plan) := a.jobs[k];
      && id in jobs && jobs[id].attempt == 0
      && (id in QueueDueIds(jobs, plan.handler, now) <==> now >= a.now)
      && (id in PushDueIds(jobs, now) <==> now >= a.now && !("queue/" <= plan.handler))
  {
    InsertAdds(db.jobs, a, |a.jobs|);
    StaysQueued(Next(db, Accept(r, a, false)), ops, a, k);
    QueuedIsDue(Exec(Next(db, Accept(r, a, false)), ops).jobs, a, k, now);
  }

  /** The key is that of the first rule that matches, handlers before queues. */
  ghost predicate FirstMatching(rules: seq<Rule>, k: nat) {
    && k < |rules|
    && rules[k].matches
    && forall i :: 0 <= i < k ==> !rules[i].matches
  }

  /** The rules that match begin with the first that does. */
  lemma {:induction false} MatchingFirst(rules: seq<Rule>)
    ensures Matching(rules) == [] ==> forall k :: 0 <= k < |rules| ==> !rules[k].matches
    ensures Matching(rules) != [] ==> exists k: nat :: FirstMatching(rules, k) && rules[k] == Matching(rules)[0]
    ensures forall k: nat :: FirstMatching(rules, k) ==> Matching(rules) != [] && rules[k] == Matching(rules)[0]
    decreases |rules|
  {
    if |rules| > 0 {
      var n := |rules| - 1;
      var shorter := rules[..n];
      MatchingFirst(shorter);
      assert forall k :: 0 <= k < n ==> shorter[k] == rules[k];
      forall k: nat | FirstMatching(shorter, k)
        ensures FirstMatching(rules, k)
      {
      }
      forall k: nat | FirstMatching(rules, k)
        ensures Matching(rules) != [] && rules[k] == Matching(rules)[0]
      {
        assert k < n ==> FirstMatching(shorter, k);
      }
      if Matching(shorter) == [] && rules[n].matches {
        assert FirstMatching(rules, n);
      }
    }
  }

  /** `k` is the first rule that matches, None when none does. */
  ghost predicate IsFirst(rules: seq<Rule>, k: Option<nat>) {
    match k
    case Some(i) => FirstMatching(rules, i)
    case None => forall i :: 0 <= i < |rules| ==> !rules[i].matches
  }

  /**
   * An event's key is the one configured for the first matching handler, else for the first matching
   * queue; one not found in the payload is none.
   */
  lemma UniqueKeyIsFirst(handlers: seq<Rule>, queues: seq<Rule>, h: Option<nat>, q: Option<nat>)
    requires IsFirst(handlers, h) && IsFirst(queues, q)
    ensures UniqueKey(handlers, queues) ==
      if h.Some? && handlers[h.value].key.Some? then handlers[h.value].key.value
      else if q.Some? && queues[q.value].key.Some? then queues[q.value].key.value
      else None
  {
    MatchingFirst(handlers);
    MatchingFirst(queues);
  }

  /** What the remaining statements do to a row, column by column. */
  lemma MaintenanceColumns(t: Table, id: Id, now: int, n: int, handler: string, ids: set<Id>, reset: bool)
    requires id in t
    ensures
      var row, u := t[id], Apply(t, Expire(now, n));
      id in u && u[id] == if row.status in {Available, Retryable} && now - row.createdAt >= 1000 * n
                          then row.(status := Dead, completedAt := Some(now)) else row
    ensures
      var row, u := t[id], Apply(t, Clean(now, n));
      if row.status in {Status.Completed, Dead} && row.completedAt.Some? && now - row.completedAt.value > 3600000 * n then id !in u
      else id in u && u[id] == row
    ensures
      var row, u := t[id], Apply(t, Retry(ids, now, reset));
      id in u && u[id] == if id in ids then row.(status := Available, scheduledAt := now, attempt := if reset then 0 else row.attempt) else row
    ensures
      var u := Apply(t, Drain(handler));
      if t[id].handler == handler then id !in u else id in u && u[id] == t[id]
  {
  }

  // ---- Redelivery after a crash --------------------------------------------

  /** The event is accepted with all its jobs. */
  ghost predicate Complete(events: Events, jobs: Table, a: Arrival) {
    a.id in events && events[a.id] == EventRow(a.source, a.key) && forall k :: 0 <= k < |a.jobs| ==> Queued(jobs, a, k)
  }

  /** Transaction: a sender that retries after a crash gets the event with all its jobs. */
  lemma RetryAfterCrashIsComplete(db: Db, r: Rules, first: Arrival, again: Arrival)
    requires Conserved(db) && Possible(db, Accept(r, first, true)) && !Duplicate(db.events, first.source, first.key)
    requires again.source == first.source && Possible(Next(db, Accept(r, first, true)), Accept(r, again, false))
    ensures
      var t := Next(Next(db, Accept(r, first, true)), Accept(r, again, false));
      Complete(t.events, t.jobs, again)
  {
    InsertedRows(db.jobs, again, |again.jobs|);
  }

  /** What a crash leaves when the statements are durable one by one. */
  lemma CrashLeaves(events: Events, jobs: Table, first: Arrival, crashAt: nat)
    requires FreshIds(events, jobs, first) && !Duplicate(events, first.source, first.key) && crashAt > 0
    ensures
      var (events1, jobs1) := OneByOne(events, jobs, first, Some(crashAt));
      && events1 == events[first.id := EventRow(first.source, first.key)]
      && (Duplicate(events1, first.source, first.key) <==> first.key.Some?)
      && (forall k :: 0 <= k < |first.jobs| && k < crashAt - 1 ==> Queued(jobs1, first, k))
      && (forall k :: crashAt - 1 <= k < |first.jobs| ==> first.jobs[k].0 !in jobs1)
  {
    InsertedRows(jobs, first, if crashAt <= |first.jobs| then crashAt - 1 else |first.jobs|);
    var (events1, jobs1) := OneByOne(events, jobs, first, Some(crashAt));
    assert events1[first.id] == EventRow(first.source, first.key);
  }

  /**
   * One by one: after a crash before statement `crashAt` and a retry by the sender that does not
   * crash, the event is there with all its jobs, if and only if the crash came before the event was
   * inserted, or after its last job, or the event has no key. Otherwise the retry is a duplicate
   * that inserts nothing.
   */
  lemma RetryCompletesIff(events: Events, jobs: Table, first: Arrival, crashAt: nat, again: Arrival)
    requires FreshIds(events, jobs, first) && !Duplicate(events, first.source, first.key)
    requires again.source == first.source && again.key == first.key
    requires
      var (events1, jobs1) := OneByOne(events, jobs, first, Some(crashAt));
      FreshIds(events1, jobs1, again)
    ensures
      var (events1, jobs1) := OneByOne(events, jobs, first, Some(crashAt));
      var (events2, jobs2) := OneByOne(events1, jobs1, again, None);
      (Complete(events2, jobs2, first) || Complete(events2, jobs2, again))
      <==> (crashAt == 0 || first.key.None? || crashAt > |first.jobs|)
  {
    var (events1, jobs1) := OneByOne(events, jobs, first, Some(crashAt));
    InsertAdds(jobs1, again, |again.jobs|);
    if crashAt > 0 {
      CrashLeaves(events, jobs, first, crashAt);
      if first.key.Some? && crashAt <= |first.jobs| {
        assert !Queued(jobs1, first, crashAt - 1);
      } else if first.key.Some? {
        assert Complete(events1, jobs1, first);
      }
    }
  }

  /** No later retry helps, whether it crashes or not: the missing jobs stay missing. */
  lemma RetryAfterCrashIsDropped(events: Events, jobs: Table, first: Arrival, crashAt: nat, again: Arrival, crashAgain: Option<nat>)
    requires FreshIds(events, jobs, first) && !Duplicate(events, first.source, first.key) && first.key.Some?
    requires 1 <= crashAt <= |first.jobs|
    requires again.source == first.source && again.key == first.key
    ensures
      var (events1, jobs1) := OneByOne(events, jobs, first, Some(crashAt));
      && OneByOne(events1, jobs1, again, crashAgain) == (events1, jobs1)
      && forall k :: crashAt - 1 <= k < |first.jobs| ==> first.jobs[k].0 !in jobs1
  {
    CrashLeaves(events, jobs, first, crashAt);
  }
}
