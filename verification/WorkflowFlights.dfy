/**
 * The deliveries in flight beside the tables: a claim starts one, the worker handles or loses it,
 * and a stale recovery of its row may happen while it is still under way.
 */
module WorkflowFlights {
  import opened Wrappers
  import opened WorkflowConfig
  import opened WorkflowModel
  import opened WorkflowToken
  import opened WorkflowDelivery
  import opened WorkflowLate
  import opened WorkflowSafety

  /**
   * A worker's copy of a claimed row: the job, and the number of the claim by the copy's attempt
   * column, which may be old when rows are selected first and marked later.
   */
  datatype Flight = Flight(job: nat, claim: nat)

  datatype System = System(tables: State, flights: seq<Flight>)

  datatype Act =
    | Begin(workflow: string, deadline: Option<nat>)
    | ClaimRow(job: nat, claim: nat)
    | RecoverRow(job: nat)
    | Handle(k: nat, view: View)
    | Lose(k: nat)
    | Answer(token: nat, body: string)

  predicate Claimable(s: State, j: nat) {
    j < |s.jobs| && (s.jobs[j].status == Available || s.jobs[j].status == Retryable)
  }

  /** What the act does to the tables; losing a delivery does nothing to them. */
  function TableEvents(x: System, a: Act): seq<Event> {
    match a
    case Begin(w, deadline) => [Start(w, deadline)]
    case ClaimRow(j, _) => [Claim(j)]
    case RecoverRow(j) => [Recover(j)]
    case Handle(k, v) => if k < |x.flights| then [Deliver(x.flights[k].job, v.(claim := x.flights[k].claim))] else []
    case Lose(_) => []
    case Answer(token, body) => [CallbackReceived(token, body)]
  }

  ghost function Tables(cfg: Config, x: System, a: Act): (t: State)
    requires Shape(cfg, x.tables)
    ensures Shape(cfg, t)
  {
    var events := TableEvents(x, a);
    if events == [] then x.tables else Next(cfg, x.tables, events[0])
  }

  function Flights(x: System, a: Act): seq<Flight> {
    match a
    case ClaimRow(j, claim) => if Claimable(x.tables, j) then x.flights + [Flight(j, claim)] else x.flights
    case Handle(k, _) => Landed(x.flights, k)
    case Lose(k) => Landed(x.flights, k)
    case _ => x.flights
  }

  function Landed(flights: seq<Flight>, k: nat): seq<Flight> {
    if k < |flights| then flights[..k] + flights[k + 1..] else flights
  }

  ghost function Perform(cfg: Config, x: System, a: Act): (y: System)
    requires Shape(cfg, x.tables)
    ensures Shape(cfg, y.tables)
  {
    System(Tables(cfg, x, a), Flights(x, a))
  }

  ghost function Performed(cfg: Config, x: System, acts: seq<Act>): (y: System)
    requires Shape(cfg, x.tables)
    ensures Shape(cfg, y.tables)
    decreases |acts|
  {
    if |acts| == 0 then x else Performed(cfg, Perform(cfg, x, acts[0]), acts[1..])
  }

  /** The events that a history makes on the tables. */
  ghost function Trace(cfg: Config, x: System, acts: seq<Act>): seq<Event>
    requires Shape(cfg, x.tables)
    decreases |acts|
  {
    if |acts| == 0 then [] else TableEvents(x, acts[0]) + Trace(cfg, Perform(cfg, x, acts[0]), acts[1..])
  }

  lemma {:induction false} TraceExecs(cfg: Config, x: System, acts: seq<Act>)
    requires Shape(cfg, x.tables)
    ensures Performed(cfg, x, acts).tables == Exec(cfg, x.tables, Trace(cfg, x, acts))
    decreases |acts|
  {
    if |acts| > 0 {
      var y := Perform(cfg, x, acts[0]);
      var rest := Trace(cfg, y, acts[1..]);
      TraceExecs(cfg, y, acts[1..]);
      if TableEvents(x, acts[0]) == [] {
        assert [] + rest == rest;
      } else {
        assert (TableEvents(x, acts[0]) + rest)[1..] == rest;
      }
    }
  }

  // ---- Prompt histories ----------------------------------------------------

  ghost predicate InFlight(x: System, j: nat) {
    exists k :: 0 <= k < |x.flights| && x.flights[k].job == j
  }

  /** No row is recovered while a delivery of it is in flight. */
  ghost predicate Prompt(x: System, a: Act) {
    a.RecoverRow? ==> !InFlight(x, a.job)
  }

  /** No delivery loses its run. */
  ghost predicate KeepsRun(cfg: Config, x: System, a: Act)
    requires Shape(cfg, x.tables)
  {
    a.Handle? && a.k < |x.flights| && x.flights[a.k].job < |x.tables.jobs| ==>
      !LosesRun(cfg, x.tables, x.flights[a.k].job, a.view.(claim := x.flights[a.k].claim))
  }

  ghost predicate PromptHistory(cfg: Config, x: System, acts: seq<Act>)
    requires Shape(cfg, x.tables)
    decreases |acts|
  {
    |acts| == 0 ||
    (Prompt(x, acts[0]) && KeepsRun(cfg, x, acts[0]) && PromptHistory(cfg, Perform(cfg, x, acts[0]), acts[1..]))
  }

  /** Every delivery in flight is the only one of a running row. */
  ghost predicate FlightsOk(x: System) {
    && (forall k :: 0 <= k < |x.flights| ==>
          && x.flights[k].job < |x.tables.jobs|
          && x.tables.jobs[x.flights[k].job].status == Running)
    && (forall i, k :: 0 <= i < k < |x.flights| ==> x.flights[i].job != x.flights[k].job)
  }

  /** Rows other than `j` that run keep running under the same claim. */
  ghost predicate OthersRun(s: State, t: State, j: nat) {
    |s.jobs| <= |t.jobs| && forall i :: 0 <= i < |s.jobs| && i != j && s.jobs[i].status == Running ==> t.jobs[i] == s.jobs[i]
  }

  /** The row that the act is about; none for a start, a loss and a callback. */
  function Own(x: System, a: Act): nat {
    match a
    case ClaimRow(j, _) => j
    case RecoverRow(j) => j
    case Handle(k, _) => if k < |x.flights| then x.flights[k].job else |x.tables.jobs|
    case _ => |x.tables.jobs|
  }

  lemma DeliveryLeavesRunning(cfg: Config, s: State, j: nat, v: View)
    requires Shape(cfg, s)
    ensures OthersRun(s, Next(cfg, s, Deliver(j, v)), j)
  {
    if j < |s.jobs| {
      DeliveryTouchesOneRow(cfg, s, j, v);
    }
  }

  lemma CallbackLeavesRunning(cfg: Config, s: State, token: nat, body: string)
    requires Shape(cfg, s)
    ensures OthersRun(s, ReceiveCallback(cfg, s, token, body), |s.jobs|)
  {
    var found := FindToken(s.jobs, token);
    if found.Some? && s.jobs[found.value].status == Waiting {
      var j := found.value;
      var done := SaveOutput(cfg, SetStatus(cfg, s, j, Done), j, Some(body));
      FinishedRow(cfg, s, j, Some(body));
      LeaveKeepsJobs(cfg, done, s.jobs[j].run, s.jobs[j].stepIndex);
    }
  }

  lemma StartLeavesRunning(cfg: Config, s: State, w: string, deadline: Option<nat>)
    requires Shape(cfg, s)
    ensures OthersRun(s, Next(cfg, s, Start(w, deadline)), |s.jobs|)
  {
  }

  lemma ClaimLeavesRunning(cfg: Config, s: State, j: nat)
    requires Shape(cfg, s)
    ensures OthersRun(s, Next(cfg, s, Claim(j)), j) && OthersRun(s, Next(cfg, s, Recover(j)), j)
  {
  }

  lemma TableOf(cfg: Config, x: System, a: Act)
    requires Shape(cfg, x.tables)
    ensures
      var events := TableEvents(x, a);
      Tables(cfg, x, a) == if |events| == 1 then Next(cfg, x.tables, events[0]) else x.tables
  {
  }

  lemma ActLeavesRunning(cfg: Config, x: System, a: Act)
    requires Shape(cfg, x.tables)
    ensures OthersRun(x.tables, Tables(cfg, x, a), Own(x, a))
  {
    TableOf(cfg, x, a);
    match a {
      case Begin(w, deadline) => StartLeavesRunning(cfg, x.tables, w, deadline);
      case ClaimRow(j, _) => ClaimLeavesRunning(cfg, x.tables, j);
      case RecoverRow(j) => ClaimLeavesRunning(cfg, x.tables, j);
      case Handle(k, v) =>
        if k < |x.flights| {
          DeliveryLeavesRunning(cfg, x.tables, x.flights[k].job, v.(claim := x.flights[k].claim));
        }
      case Lose(_) =>
      case Answer(token, body) => CallbackLeavesRunning(cfg, x.tables, token, body);
    }
  }

  lemma LandedElements(flights: seq<Flight>, k: nat)
    requires forall i, k :: 0 <= i < k < |flights| ==> flights[i].job != flights[k].job
    ensures forall i :: 0 <= i < |Landed(flights, k)| ==>
      Landed(flights, k)[i] in flights && (k < |flights| ==> Landed(flights, k)[i].job != flights[k].job)
    ensures forall i, j :: 0 <= i < j < |Landed(flights, k)| ==> Landed(flights, k)[i].job != Landed(flights, k)[j].job
  {
    assert forall i :: 0 <= i < |Landed(flights, k)| ==>
      Landed(flights, k)[i] == flights[if i < k || k >= |flights| then i else i + 1];
  }

  lemma RemainingOk(x: System, y: System, j: nat)
    requires FlightsOk(x) && OthersRun(x.tables, y.tables, j)
    requires forall k :: 0 <= k < |y.flights| ==> y.flights[k] in x.flights && y.flights[k].job != j
    requires forall i, k :: 0 <= i < k < |y.flights| ==> y.flights[i].job != y.flights[k].job
    ensures FlightsOk(y)
  {
    forall k | 0 <= k < |y.flights|
      ensures y.flights[k].job < |y.tables.jobs|
      ensures y.tables.jobs[y.flights[k].job].status == Running
    {
      var i :| 0 <= i < |x.flights| && x.flights[i] == y.flights[k];
    }
  }

  lemma LandingKeepsFlights(cfg: Config, x: System, a: Act)
    requires Shape(cfg, x.tables) && FlightsOk(x) && (a.Handle? || a.Lose?)
    ensures FlightsOk(Perform(cfg, x, a))
  {
    LandedElements(x.flights, a.k);
    ActLeavesRunning(cfg, x, a);
    RemainingOk(x, Perform(cfg, x, a), Own(x, a));
  }

  /** One more delivery, of a row that had none. */
  lemma TakeOff(t: State, flights: seq<Flight>, f: Flight)
    requires FlightsOk(System(t, flights)) && f.job < |t.jobs| && t.jobs[f.job].status == Running
    requires forall k :: 0 <= k < |flights| ==> flights[k].job != f.job
    ensures FlightsOk(System(t, flights + [f]))
  {
  }

  lemma ClaimKeepsFlights(cfg: Config, x: System, j: nat, claim: nat)
    requires Shape(cfg, x.tables) && FlightsOk(x)
    ensures FlightsOk(Perform(cfg, x, ClaimRow(j, claim)))
  {
    var t := Tables(cfg, x, ClaimRow(j, claim));
    ActLeavesRunning(cfg, x, ClaimRow(j, claim));
    if Claimable(x.tables, j) {
      RemainingOk(x, System(t, x.flights), j);
      TakeOff(t, x.flights, Flight(j, claim));
    }
  }

  lemma PromptKeepsFlights(cfg: Config, x: System, a: Act)
    requires Shape(cfg, x.tables) && FlightsOk(x) && Prompt(x, a)
    ensures FlightsOk(Perform(cfg, x, a))
  {
    match a {
      case ClaimRow(j, claim) => ClaimKeepsFlights(cfg, x, j, claim);
      case Handle(_, _) => LandingKeepsFlights(cfg, x, a);
      case Lose(_) => LandingKeepsFlights(cfg, x, a);
      case _ =>
        ActLeavesRunning(cfg, x, a);
        RemainingOk(x, Perform(cfg, x, a), Own(x, a));
    }
  }

  lemma PromptEventTimely(cfg: Config, x: System, a: Act, e: Event)
    requires Inv(cfg, x.tables) && FlightsOk(x) && KeepsRun(cfg, x, a) && TableEvents(x, a) == [e]
    ensures Timely(x.tables, e) && Benign(cfg, x.tables, e)
  {
    if a.Handle? {
      TimelyHarmless(cfg, x.tables, e.job, e.view);
    }
  }

  /** A prompt history is timely on the tables. */
  lemma {:induction false} PromptIsTimely(cfg: Config, x: System, acts: seq<Act>)
    requires Inv(cfg, x.tables) && FlightsOk(x) && PromptHistory(cfg, x, acts)
    ensures TimelyRun(cfg, x.tables, Trace(cfg, x, acts))
    decreases |acts|
  {
    if |acts| > 0 {
      var y := Perform(cfg, x, acts[0]);
      var rest := Trace(cfg, y, acts[1..]);
      PromptKeepsFlights(cfg, x, acts[0]);
      if TableEvents(x, acts[0]) == [] {
        assert [] + rest == rest;
      } else {
        var e := TableEvents(x, acts[0])[0];
        PromptEventTimely(cfg, x, acts[0], e);
        EventKeepsToken(cfg, x.tables, e);
        assert ([e] + rest)[1..] == rest;
      }
      PromptIsTimely(cfg, y, acts[1..]);
    }
  }

  const IDLE: System := System(EMPTY, [])

  /**
   * For any number of workers and either way of claiming, stale copies included: as long as no row
   * is recovered while its delivery is in flight, and no delivery loses its run, every run in progress has exactly one token, and what is over stays
   * over, from any point of the history on.
   */
  lemma PromptRunsKeepToken(cfg: Config, before: seq<Act>, after: seq<Act>)
    requires ValidWorkflows(cfg.workflows) && PromptHistory(cfg, IDLE, before)
    requires PromptHistory(cfg, Performed(cfg, IDLE, before), after)
    ensures
      var x := Performed(cfg, IDLE, before);
      var y := Performed(cfg, x, after);
      && Inv(cfg, x.tables) && FlightsOk(x)
      && Inv(cfg, y.tables) && FlightsOk(y)
      && Orderly(x.tables, y.tables)
  {
    var x := Performed(cfg, IDLE, before);
    assert Inv(cfg, EMPTY);
    PromptRun(cfg, IDLE, before);
    PromptRun(cfg, x, after);
  }

  lemma {:induction false} PromptFlights(cfg: Config, x: System, acts: seq<Act>)
    requires Shape(cfg, x.tables) && FlightsOk(x) && PromptHistory(cfg, x, acts)
    ensures FlightsOk(Performed(cfg, x, acts))
    decreases |acts|
  {
    if |acts| > 0 {
      PromptKeepsFlights(cfg, x, acts[0]);
      PromptFlights(cfg, Perform(cfg, x, acts[0]), acts[1..]);
    }
  }

  lemma PromptRun(cfg: Config, x: System, acts: seq<Act>)
    requires Inv(cfg, x.tables) && FlightsOk(x) && PromptHistory(cfg, x, acts)
    ensures
      var y := Performed(cfg, x, acts);
      Inv(cfg, y.tables) && FlightsOk(y) && Orderly(x.tables, y.tables)
  {
    var events := Trace(cfg, x, acts);
    PromptFlights(cfg, x, acts);
    PromptIsTimely(cfg, x, acts);
    TraceExecs(cfg, x, acts);
    TimelyIsBenign(cfg, x.tables, events);
    EveryRunHasOneToken(cfg, x.tables, events);
    OverIsOver(cfg, x.tables, events);
  }

  // ---- One recovery too early ----------------------------------------------

  /** A start, a claim, a recovery while that delivery is in flight, and a second claim. */
  ghost function ClaimedTwice(cfg: Config, w: string): (x: System)
    requires ValidWorkflows(cfg.workflows)
    ensures Shape(cfg, x.tables)
  {
    Perform(cfg, Perform(cfg, Perform(cfg, Perform(cfg, IDLE, Begin(w, None)), ClaimRow(0, 1)), RecoverRow(0)), ClaimRow(0, 2))
  }

  /** The tables when the second delivery has been handled. */
  ghost function FirstHandled(cfg: Config, w: string, v: View): (s: State)
    requires ValidWorkflows(cfg.workflows)
    ensures Shape(cfg, s)
  {
    var claimed := Next(cfg, Next(cfg, Next(cfg, Next(cfg, EMPTY, Start(w, None)), Claim(0)), Recover(0)), Claim(0));
    Next(cfg, claimed, Deliver(0, v.(claim := 2)))
  }

  lemma ClaimedTwiceFlights(cfg: Config, w: string)
    requires ValidWorkflows(cfg.workflows) && w in cfg.workflows
    ensures
      var x := ClaimedTwice(cfg, w);
      && x.tables == Next(cfg, Next(cfg, Next(cfg, Next(cfg, EMPTY, Start(w, None)), Claim(0)), Recover(0)), Claim(0))
      && x.flights == [Flight(0, 1), Flight(0, 2)]
  {
    var x1 := Perform(cfg, IDLE, Begin(w, None));
    var x2 := Perform(cfg, x1, ClaimRow(0, 1));
    var x3 := Perform(cfg, x2, RecoverRow(0));
    assert x2.flights == [Flight(0, 1)];
    assert Claimable(x3.tables, 0) && x3.tables.jobs[0].attempt == 1;
  }

  lemma FirstHandledOk(cfg: Config, w: string, v: View)
    requires ValidWorkflows(cfg.workflows) && w in cfg.workflows && v.reply.Success?
    requires cfg.workflows[w][0].kind.Http? && !cfg.workflows[w][0].end && |cfg.workflows[w]| > 1
    ensures
      var s := FirstHandled(cfg, w, v);
      && Inv(cfg, s) && |s.jobs| > 0 && s.jobs[0].status == Done && s.jobs[0].branch.None?
      && s.jobs[0].stepIndex == 0 && s.jobs[0].workflow == w && s.runs[s.jobs[0].run].deadline.None?
  {
    assert Inv(cfg, EMPTY);
    var s1 := Next(cfg, EMPTY, Start(w, None));
    EventKeepsToken(cfg, EMPTY, Start(w, None));
    var s2 := Next(cfg, s1, Claim(0));
    EventKeepsToken(cfg, s1, Claim(0));
    var s3 := Next(cfg, s2, Recover(0));
    EventKeepsToken(cfg, s2, Recover(0));
    var s4 := Next(cfg, s3, Claim(0));
    EventKeepsToken(cfg, s3, Claim(0));
    var u := v.(claim := 2);
    assert s4.jobs[0].status == Running;
    TimelyHarmless(cfg, s4, 0, u);
    EventKeepsToken(cfg, s4, Deliver(0, u));
    DeliveryTouchesOneRow(cfg, s4, 0, u);
    assert Next(cfg, s4, Deliver(0, u)) == Enter(cfg, SaveOutput(cfg, SetStatus(cfg, s4, 0, Done), 0, v.reply.body), 0, 1);
  }

  lemma SecondHandled(cfg: Config, w: string, v: View)
    requires ValidWorkflows(cfg.workflows) && w in cfg.workflows
    ensures
      var x := Perform(cfg, ClaimedTwice(cfg, w), Handle(1, v));
      x.tables == FirstHandled(cfg, w, v) && x.flights == [Flight(0, 1)]
  {
    ClaimedTwiceFlights(cfg, w);
    var flights := [Flight(0, 1), Flight(0, 2)];
    assert flights[..1] + flights[2..] == [Flight(0, 1)];
  }

  /** The late one of the two deliveries gives the run a second token: the condition on recoveries is needed. */
  lemma OvertakenDeliveryDoublesToken(cfg: Config, w: string, v: View)
    requires ValidWorkflows(cfg.workflows) && w in cfg.workflows && v.reply.Success? && v.now <= v.later
    requires cfg.workflows[w][0].kind.Http? && !cfg.workflows[w][0].end && |cfg.workflows[w]| > 1
    ensures
      var x := Perform(cfg, ClaimedTwice(cfg, w), Handle(1, v));
      && Inv(cfg, x.tables)
      && x.flights == [Flight(0, 1)]
      && !Inv(cfg, Perform(cfg, x, Handle(0, v)).tables)
  {
    SecondHandled(cfg, w, v);
    FirstHandledOk(cfg, w, v);
    LateDeliveryDoublesToken(cfg, FirstHandled(cfg, w, v), 0, v.(claim := 1));
  }
}
