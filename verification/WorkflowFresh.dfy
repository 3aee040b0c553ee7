/**
 * Workers whose copies are fresh, as when rows are selected and claimed in one statement: none of
 * their deliveries is outdated, and a run causes no more work than it costs.
 */
module WorkflowFresh {
  import opened Wrappers
  import opened WorkflowConfig
  import opened WorkflowModel
  import opened WorkflowToken
  import opened WorkflowSafety
  import opened WorkflowFlights
  import opened WorkflowBound

  /** The claiming worker's copy is the row as it is, as when rows are selected and claimed in one statement. */
  predicate FreshCopy(x: System, a: Act) {
    a.ClaimRow? && Claimable(x.tables, a.job) ==> a.claim == x.tables.jobs[a.job].attempt + 1
  }

  ghost predicate FreshHistory(cfg: Config, x: System, acts: seq<Act>)
    requires Shape(cfg, x.tables)
    decreases |acts|
  {
    |acts| == 0 || (FreshCopy(x, acts[0]) && FreshHistory(cfg, Perform(cfg, x, acts[0]), acts[1..]))
  }

  /** Every delivery in flight carries the number of its row's last claim. */
  ghost predicate Numbered(x: System) {
    forall k :: 0 <= k < |x.flights| && x.flights[k].job < |x.tables.jobs| ==>
      x.tables.jobs[x.flights[k].job].attempt == x.flights[k].claim
  }

  lemma RemainingNumbered(x: System, y: System, j: nat)
    requires FlightsOk(x) && Numbered(x) && OthersRun(x.tables, y.tables, j)
    requires forall k :: 0 <= k < |y.flights| ==> y.flights[k] in x.flights && y.flights[k].job != j
    ensures Numbered(y)
  {
    forall k | 0 <= k < |y.flights| && y.flights[k].job < |y.tables.jobs|
      ensures y.tables.jobs[y.flights[k].job].attempt == y.flights[k].claim
    {
      var i :| 0 <= i < |x.flights| && x.flights[i] == y.flights[k];
    }
  }

  lemma ClaimKeepsNumbered(cfg: Config, x: System, j: nat, claim: nat)
    requires Shape(cfg, x.tables) && FlightsOk(x) && Numbered(x) && FreshCopy(x, ClaimRow(j, claim))
    ensures Numbered(Perform(cfg, x, ClaimRow(j, claim)))
  {
    ActLeavesRunning(cfg, x, ClaimRow(j, claim));
    if Claimable(x.tables, j) {
      RemainingNumbered(x, System(Tables(cfg, x, ClaimRow(j, claim)), x.flights), j);
    }
  }

  lemma FreshKeepsNumbered(cfg: Config, x: System, a: Act)
    requires Shape(cfg, x.tables) && FlightsOk(x) && Numbered(x) && Prompt(x, a) && FreshCopy(x, a)
    ensures Numbered(Perform(cfg, x, a))
  {
    ActLeavesRunning(cfg, x, a);
    if a.ClaimRow? {
      ClaimKeepsNumbered(cfg, x, a.job, a.claim);
    } else {
      if a.Handle? || a.Lose? {
        LandedElements(x.flights, a.k);
      }
      RemainingNumbered(x, Perform(cfg, x, a), Own(x, a));
    }
  }

  lemma {:induction false} FreshIsNotOutdated(cfg: Config, x: System, acts: seq<Act>)
    requires Inv(cfg, x.tables) && FlightsOk(x) && Numbered(x) && PromptHistory(cfg, x, acts) && FreshHistory(cfg, x, acts)
    ensures OutdatedCount(cfg, x.tables, Trace(cfg, x, acts)) == 0
    decreases |acts|
  {
    if |acts| > 0 {
      var y := Perform(cfg, x, acts[0]);
      var rest := Trace(cfg, y, acts[1..]);
      PromptKeepsFlights(cfg, x, acts[0]);
      FreshKeepsNumbered(cfg, x, acts[0]);
      if TableEvents(x, acts[0]) == [] {
        assert [] + rest == rest;
      } else {
        var e := TableEvents(x, acts[0])[0];
        PromptEventTimely(cfg, x, acts[0], e);
        EventKeepsToken(cfg, x.tables, e);
        assert ([e] + rest)[1..] == rest;
      }
      FreshIsNotOutdated(cfg, y, acts[1..]);
    }
  }

  lemma {:induction false} NoStarts(cfg: Config, lim: Limits, x: System, acts: seq<Act>)
    requires Shape(cfg, x.tables) && forall k :: 0 <= k < |acts| ==> !acts[k].Begin?
    requires forall k :: 0 <= k < |acts| && acts[k].Handle? ==> WithinItems(lim, acts[k].view)
    ensures
      forall e | e in Trace(cfg, x, acts) :: !e.Start? && (e.Deliver? ==> WithinItems(lim, e.view))
    decreases |acts|
  {
    if |acts| > 0 {
      var first, rest := TableEvents(x, acts[0]), Trace(cfg, Perform(cfg, x, acts[0]), acts[1..]);
      NoStarts(cfg, lim, Perform(cfg, x, acts[0]), acts[1..]);
      forall e: Event | e in first + rest
        ensures !e.Start? && (e.Deliver? ==> WithinItems(lim, e.view))
      {
        assert e in first || e in rest;
      }
    }
  }

  /**
   * One start on empty tables, then any number of workers that claim what they select, recover no
   * row under way and lose no run: they handle at most `Cost(w, 0)` deliveries.
   */
  lemma PromptRunIsBounded(cfg: Config, lim: Limits, w: string, deadline: Option<nat>, acts: seq<Act>)
    requires Acyclic(cfg, lim) && w in cfg.workflows
    requires forall k :: 0 <= k < |acts| ==> !acts[k].Begin?
    requires forall k :: 0 <= k < |acts| && acts[k].Handle? ==> WithinItems(lim, acts[k].view)
    requires
      var x := Perform(cfg, IDLE, Begin(w, deadline));
      PromptHistory(cfg, x, acts) && FreshHistory(cfg, x, acts)
    ensures
      var x := Perform(cfg, IDLE, Begin(w, deadline));
      HandledCount(cfg, x.tables, Trace(cfg, x, acts)) <= Cost(cfg, lim, w, 0)
  {
    var x := Perform(cfg, IDLE, Begin(w, deadline));
    assert Inv(cfg, EMPTY);
    EventKeepsToken(cfg, EMPTY, Start(w, deadline));
    PromptIsTimely(cfg, x, acts);
    FreshIsNotOutdated(cfg, x, acts);
    NoStarts(cfg, lim, x, acts);
    OneRunIsBounded(cfg, lim, w, deadline, Trace(cfg, x, acts));
  }
}
