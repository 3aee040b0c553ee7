/** The one-token invariant over every event and history, exactly which deliveries break it, and what it implies. */
module WorkflowSafety {
  import opened Wrappers
  import opened WorkflowConfig
  import opened WorkflowModel
  import opened WorkflowToken
  import opened WorkflowDelivery
  import opened WorkflowLate

  // ---- Which events do no harm ---------------------------------------------

  /**
   * The deliveries that do no harm, told from the tables before they are handled: those of a live
   * row that do not lose its run, and the quiet ones of a row that is over.
   */
  ghost predicate Harmless(cfg: Config, s: State, j: nat, v: View)
    requires Shape(cfg, s) && j < |s.jobs|
  {
    && SparesToken(cfg, s, j, v)
    && if Live(s.jobs[j]) then !LosesRun(cfg, s, j, v) else LateQuiet(cfg, s, j, v)
  }

  /** Exactly these keep the invariant, for every status of the row, every claim number and every reply. */
  lemma DeliveryKeepsIffHarmless(cfg: Config, s: State, j: nat, v: View)
    requires Inv(cfg, s) && j < |s.jobs|
    ensures Inv(cfg, DeliverJob(cfg, s, j, v)) <==> Harmless(cfg, s, j, v)
  {
    if !SparesToken(cfg, s, j, v) {
      TokenLost(cfg, s, j, v);
    } else if Live(s.jobs[j]) {
      DeliverKeeps(cfg, s, j, v);
    } else {
      DeliverLateIff(cfg, s, j, v);
    }
  }

  /** Every event but a harmful delivery. */
  ghost predicate Benign(cfg: Config, s: State, e: Event)
    requires Shape(cfg, s)
  {
    e.Deliver? && e.job < |s.jobs| ==> Harmless(cfg, s, e.job, e.view)
  }

  /** No event of the run does harm. */
  ghost predicate BenignRun(cfg: Config, s: State, events: seq<Event>)
    requires Shape(cfg, s)
    decreases |events|
  {
    |events| == 0 || (Benign(cfg, s, events[0]) && BenignRun(cfg, Next(cfg, s, events[0]), events[1..]))
  }

  /** A delivery is timely when its row is still running. */
  predicate Timely(s: State, e: Event) {
    e.Deliver? && e.job < |s.jobs| ==> s.jobs[e.job].status == Running
  }

  /** All deliveries are timely, and none loses its run. */
  ghost predicate TimelyRun(cfg: Config, s: State, events: seq<Event>)
    requires Shape(cfg, s)
    decreases |events|
  {
    |events| == 0 ||
    (Benign(cfg, s, events[0]) && Timely(s, events[0]) && TimelyRun(cfg, Next(cfg, s, events[0]), events[1..]))
  }

  lemma {:induction false} TimelyIsBenign(cfg: Config, s: State, events: seq<Event>)
    requires Shape(cfg, s) && TimelyRun(cfg, s, events)
    ensures BenignRun(cfg, s, events)
    decreases |events|
  {
    if |events| > 0 {
      TimelyIsBenign(cfg, Next(cfg, s, events[0]), events[1..]);
    }
  }

  /** For a timely delivery only the ways to lose the run do harm. */
  lemma TimelyHarmless(cfg: Config, s: State, j: nat, v: View)
    requires Inv(cfg, s) && j < |s.jobs| && s.jobs[j].status == Running
    ensures Harmless(cfg, s, j, v) <==> !LosesRun(cfg, s, j, v)
  {
    assert JobOk(cfg, s, j);
  }

  // ---- The theorems --------------------------------------------------------

  /**
   * Every event keeps the invariant, except exactly the deliveries that do harm: of a live row those
   * that lose its run, of a row that is over those that are not quiet.
   */
  lemma EventKeepsToken(cfg: Config, s: State, e: Event)
    requires Inv(cfg, s)
    ensures Inv(cfg, Next(cfg, s, e)) <==> Benign(cfg, s, e)
  {
    match e
    case Start(w, deadline) =>
      if w in cfg.workflows {
        GiveChild(cfg, s, w, deadline, None);
      }
    case Claim(j) =>
      if j < |s.jobs| && (s.jobs[j].status == Available || s.jobs[j].status == Retryable) {
        assert Shape(cfg, Next(cfg, s, e));
        KeepLive(cfg, s, j, s.jobs[j].(status := Running, attempt := s.jobs[j].attempt + 1));
      }
    case Recover(j) =>
      if j < |s.jobs| && s.jobs[j].status == Running {
        KeepLive(cfg, s, j, s.jobs[j].(status := Retryable));
      }
    case Deliver(j, v) =>
      if j < |s.jobs| {
        DeliveryKeepsIffHarmless(cfg, s, j, v);
      }
    case CallbackReceived(token, body) => CallbackKeeps(cfg, s, token, body);
  }

  /** The invariant holds now and after each of the events. */
  ghost predicate InvAlong(cfg: Config, s: State, events: seq<Event>)
    requires Shape(cfg, s)
    decreases |events|
  {
    Inv(cfg, s) && (|events| == 0 || InvAlong(cfg, Next(cfg, s, events[0]), events[1..]))
  }

  /** Every run in progress has exactly one token in all states of a history if and only if no event of it does harm. */
  lemma {:induction false} OneTokenAlongIffBenign(cfg: Config, s: State, events: seq<Event>)
    requires Inv(cfg, s)
    ensures InvAlong(cfg, s, events) <==> BenignRun(cfg, s, events)
    decreases |events|
  {
    if |events| > 0 {
      var t := Next(cfg, s, events[0]);
      EventKeepsToken(cfg, s, events[0]);
      if Inv(cfg, t) {
        OneTokenAlongIffBenign(cfg, t, events[1..]);
      }
    }
  }

  lemma {:induction false} EveryRunHasOneToken(cfg: Config, s: State, events: seq<Event>)
    requires Inv(cfg, s) && BenignRun(cfg, s, events)
    ensures Inv(cfg, Exec(cfg, s, events))
    decreases |events|
  {
    if |events| > 0 {
      EventKeepsToken(cfg, s, events[0]);
      EveryRunHasOneToken(cfg, Next(cfg, s, events[0]), events[1..]);
    }
  }

  /** The same from empty tables. */
  lemma EveryRunFromEmptyTables(cfg: Config, events: seq<Event>)
    requires ValidWorkflows(cfg.workflows)
    ensures InvAlong(cfg, EMPTY, events) <==> BenignRun(cfg, EMPTY, events)
  {
    assert Inv(cfg, EMPTY);
    OneTokenAlongIffBenign(cfg, EMPTY, events);
  }

  // ---- What is final -------------------------------------------------------

  /**
   * From `s` to `t`, runs that are over keep their status, finished jobs keep their row, and jobs
   * are only inserted for runs that were in progress or did not exist.
   */
  ghost predicate Orderly(s: State, t: State) {
    && |s.runs| <= |t.runs|
    && |s.jobs| <= |t.jobs|
    && (forall j :: 0 <= j < |s.jobs| ==> t.jobs[j].run == s.jobs[j].run)
    && (forall r :: 0 <= r < |s.runs| && s.runs[r].status != InProgress ==> t.runs[r].status == s.runs[r].status)
    && (forall j :: 0 <= j < |s.jobs| && !Live(s.jobs[j]) ==> t.jobs[j] == s.jobs[j])
    && (forall k :: |s.jobs| <= k < |t.jobs| && t.jobs[k].run < |s.runs| ==> s.runs[t.jobs[k].run].status == InProgress)
  }

  lemma OrderlyTransitive(s: State, t: State, u: State)
    requires Orderly(s, t) && Orderly(t, u)
    ensures Orderly(s, u)
  {
    forall k | |s.jobs| <= k < |u.jobs| && u.jobs[k].run < |s.runs|
      ensures s.runs[u.jobs[k].run].status == InProgress
    {
      if k < |t.jobs| {
        assert Live(t.jobs[k]) || u.jobs[k] == t.jobs[k];
      }
    }
  }

  lemma {:induction false} AdvanceOrderly(cfg: Config, s: State, r: nat, i: nat)
    requires r < |s.runs| && InvBut(cfg, s, Some(r)) && i < |StepsOf(cfg, s, r)|
    ensures Orderly(s, Advance(cfg, s, r, i))
    decreases r, 1
  {
    assert NoToken(s, r);
    if i + 1 >= |StepsOf(cfg, s, r)| {
      FinishOrderly(cfg, s, r);
    }
  }

  lemma {:induction false} FinishOrderly(cfg: Config, s: State, r: nat)
    requires r < |s.runs| && InvBut(cfg, s, Some(r))
    ensures Orderly(s, ResumeParent(cfg, SetRunStatus(cfg, s, r, Completed), r))
    decreases r, 0
  {
    assert NoToken(s, r);
    var done := SetRunStatus(cfg, s, r, Completed);
    CompleteMovesHole(cfg, s, r);
    if s.runs[r].parent.Some? {
      var p := s.runs[r].parent.value;
      AdvanceOrderly(cfg, done, p.run, p.stepIndex);
      OrderlyTransitive(s, done, Advance(cfg, done, p.run, p.stepIndex));
    }
  }

  lemma LeaveOrderly(cfg: Config, s: State, r: nat, i: nat)
    requires r < |s.runs| && InvBut(cfg, s, Some(r)) && i < |StepsOf(cfg, s, r)|
    ensures Orderly(s, Leave(cfg, s, r, i))
  {
    if StepsOf(cfg, s, r)[i].end {
      FinishOrderly(cfg, s, r);
    } else {
      AdvanceOrderly(cfg, s, r, i);
    }
  }

  lemma BranchOrderly(cfg: Config, s: State, j: nat, body: Option<string>)
    requires Inv(cfg, s) && j < |s.jobs| && Live(s.jobs[j]) && s.jobs[j].branch.Some?
    ensures Orderly(s, BranchDone(cfg, SetStatus(cfg, s, j, Done), j, body))
  {
    var r := s.jobs[j].run;
    if s.runs[r].parallelCompleted + 1 < s.runs[r].parallelCount {
      FinishedRow(cfg, s, j, body);
    } else {
      LastBranch(cfg, s, j, body);
      var joined := SetParallel(cfg, SaveOutput(cfg, SetStatus(cfg, s, j, Done), j, body), r, None, 0, 0);
      assert Orderly(s, joined) by {
        FinishedRow(cfg, s, j, body);
      }
      LeaveOrderly(cfg, joined, r, s.jobs[j].stepIndex);
      OrderlyTransitive(s, joined, Leave(cfg, joined, r, s.jobs[j].stepIndex));
    }
  }

  lemma StepSuccessOrderly(cfg: Config, s: State, j: nat, body: Option<string>, now: nat)
    requires Inv(cfg, s) && j < |s.jobs| && Live(s.jobs[j])
    ensures Orderly(s, StepSuccess(cfg, SetStatus(cfg, s, j, Done), j, body, now))
  {
    var r, i := s.jobs[j].run, s.jobs[j].stepIndex;
    if s.jobs[j].branch.Some? {
      BranchOrderly(cfg, s, j, body);
    } else {
      JobIsToken(cfg, s, j);
      TakeToken(cfg, s, j, Done, body);
      FinishedRow(cfg, s, j, body);
      var t := SaveOutput(cfg, SetStatus(cfg, s, j, Done), j, body);
      assert Orderly(s, t);
      if !Expired(s.runs[r], now) {
        LeaveOrderly(cfg, t, r, i);
        OrderlyTransitive(s, t, Leave(cfg, t, r, i));
      }
    }
  }

  lemma StepFailureOrderly(cfg: Config, s: State, j: nat, v: View)
    requires Inv(cfg, s) && j < |s.jobs| && s.jobs[j].status == Running && !LosesRun(cfg, s, j, v)
    requires !Expired(s.runs[s.jobs[j].run], v.now) && v.reply.Failure?
    ensures Orderly(s, StepFailure(cfg, s, j, v.claim, v.reply.error, v.later))
  {
    var job := s.jobs[j];
    var step := cfg.workflows[job.workflow][job.stepIndex];
    if job.branch.Some? {
      BranchHasJoin(cfg, s, j);
    } else {
      JobIsToken(cfg, s, j);
    }
    if !WillRetry(step, job, v.claim, v.reply.error) && FirstCatch(step.catches, v.reply.error).None? {
      if step.onFailure.Continue? {
        StepSuccessOrderly(cfg, s, j, Some(ERROR_PAYLOAD), v.later);
      } else {
        DeadOrderly(cfg, s, j);
      }
    } else if !WillRetry(step, job, v.claim, v.reply.error) {
      CaughtOrderly(cfg, s, j, FirstCatch(step.catches, v.reply.error).value);
    }
  }

  lemma DeadOrderly(cfg: Config, s: State, j: nat)
    requires Shape(cfg, s) && j < |s.jobs| && Live(s.jobs[j]) && s.runs[s.jobs[j].run].status != Completed
    ensures Orderly(s, SetRunStatus(cfg, SetStatus(cfg, s, j, Dead), s.jobs[j].run, Failed))
  {
  }

  lemma CaughtOrderly(cfg: Config, s: State, j: nat, goto: string)
    requires Shape(cfg, s) && j < |s.jobs| && Live(s.jobs[j]) && s.runs[s.jobs[j].run].status == InProgress
    requires HasStep(cfg.workflows[s.jobs[j].workflow], goto)
    ensures Orderly(s, Enter(cfg, SetStatus(cfg, s, j, Done), s.jobs[j].run, FindStep(cfg.workflows[s.jobs[j].workflow], goto).value))
  {
  }

  lemma EnterOrderly(cfg: Config, s: State, r: nat, i: nat)
    requires Shape(cfg, s) && r < |s.runs| && i < |StepsOf(cfg, s, r)| && s.runs[r].status == InProgress
    ensures Orderly(s, Enter(cfg, s, r, i))
  {
  }

  lemma ForkOrderly(cfg: Config, s: State, r: nat, i: nat, names: seq<string>)
    requires Shape(cfg, s) && r < |s.runs| && i < |StepsOf(cfg, s, r)| && s.runs[r].status == InProgress
    ensures Orderly(s, Fork(cfg, s, r, i, names))
  {
  }

  lemma AwaitOrderly(cfg: Config, s: State, r: nat, i: nat)
    requires Shape(cfg, s) && r < |s.runs| && i < |StepsOf(cfg, s, r)| && s.runs[r].status == InProgress
    ensures Orderly(s, Await(cfg, s, r, i))
  {
  }

  lemma LaunchOrderly(cfg: Config, s: State, w: string, deadline: Option<nat>, parent: Option<Parent>)
    requires Shape(cfg, s) && w in cfg.workflows
    requires parent.Some? ==> parent.value.run < |s.runs| && parent.value.stepIndex < |StepsOf(cfg, s, parent.value.run)|
    ensures Orderly(s, Launch(cfg, s, w, deadline, parent))
  {
  }

  lemma InternalOrderly(cfg: Config, s: State, j: nat, v: View)
    requires Inv(cfg, s) && j < |s.jobs| && s.jobs[j].status == Running && s.jobs[j].branch.None?
    requires !LosesRun(cfg, s, j, v) && !Expired(s.runs[s.jobs[j].run], v.now)
    ensures Orderly(s, Internal(cfg, SetStatus(cfg, s, j, Done), j, v))
  {
    TakeToken(cfg, s, j, Done, None);
    var t := SetStatus(cfg, s, j, Done);
    assert Orderly(s, t);
    MoveOrderly(cfg, t, j, v);
    OrderlyTransitive(s, t, Internal(cfg, t, j, v));
  }

  lemma MoveOrderly(cfg: Config, s: State, j: nat, v: View)
    requires j < |s.jobs| && Shape(cfg, s) && InvBut(cfg, s, Some(s.jobs[j].run))
    requires cfg.workflows[s.jobs[j].workflow][s.jobs[j].stepIndex].kind.MapItems? ==> v.input != Json(0)
    ensures Orderly(s, Internal(cfg, s, j, v))
  {
    var w, r, i := s.jobs[j].workflow, s.jobs[j].run, s.jobs[j].stepIndex;
    var steps := cfg.workflows[w];
    assert ValidStep(cfg.workflows, w, steps, steps[i]);
    assert NoToken(s, r);
    match steps[i].kind
    case Http =>
    case Choice(rules, default) =>
      var target := Target(rules, default, v.holds);
      if target.Some? {
        EnterOrderly(cfg, s, r, FindStep(steps, target.value).value);
      }
    case Parallel(branches) => ForkOrderly(cfg, s, r, i, branches);
    case MapItems =>
      if v.input.Json? {
        ForkOrderly(cfg, s, r, i, ItemNames(v.input.items));
      }
    case Wait(_) => AdvanceOrderly(cfg, s, r, i);
    case Callback => AwaitOrderly(cfg, s, r, i);
    case SubWorkflow(target) => LaunchOrderly(cfg, s, target, None, Some(Parent(r, i)));
  }

  lemma DeliverOrderly(cfg: Config, s: State, j: nat, v: View)
    requires Inv(cfg, s) && j < |s.jobs| && s.jobs[j].status == Running && !LosesRun(cfg, s, j, v)
    ensures Orderly(s, DeliverJob(cfg, s, j, v))
  {
    var job := s.jobs[j];
    if Expired(s.runs[job.run], v.now) {
      if job.branch.Some? {
        BranchHasJoin(cfg, s, j);
      } else {
        JobIsToken(cfg, s, j);
      }
    } else if job.branch.None? && !cfg.workflows[job.workflow][job.stepIndex].kind.Http? {
      InternalOrderly(cfg, s, j, v);
    } else {
      match v.reply
      case Success(body) => StepSuccessOrderly(cfg, s, j, body, v.later);
      case Failure(f) => StepFailureOrderly(cfg, s, j, v);
    }
  }

  lemma CallbackOrderly(cfg: Config, s: State, token: nat, body: string)
    requires Inv(cfg, s)
    ensures Orderly(s, ReceiveCallback(cfg, s, token, body))
  {
    var found := FindToken(s.jobs, token);
    if found.Some? && s.jobs[found.value].status == Waiting {
      var j := found.value;
      assert JobOk(cfg, s, j);
      JobIsToken(cfg, s, j);
      TakeToken(cfg, s, j, Done, Some(body));
      FinishedRow(cfg, s, j, Some(body));
      var t := SaveOutput(cfg, SetStatus(cfg, s, j, Done), j, Some(body));
      assert Orderly(s, t);
      LeaveOrderly(cfg, t, s.jobs[j].run, s.jobs[j].stepIndex);
      OrderlyTransitive(s, t, Leave(cfg, t, s.jobs[j].run, s.jobs[j].stepIndex));
    }
  }

  lemma OtherOrderly(cfg: Config, s: State, e: Event)
    requires Inv(cfg, s) && !e.Deliver? && !e.CallbackReceived?
    ensures Orderly(s, Next(cfg, s, e))
  {
  }

  lemma EventOrderly(cfg: Config, s: State, e: Event)
    requires Inv(cfg, s) && Benign(cfg, s, e) && Timely(s, e)
    ensures Orderly(s, Next(cfg, s, e))
  {
    match e
    case Deliver(j, v) =>
      if j < |s.jobs| && s.jobs[j].status == Running {
        DeliverOrderly(cfg, s, j, v);
      }
    case CallbackReceived(token, body) => CallbackOrderly(cfg, s, token, body);
    case _ => OtherOrderly(cfg, s, e);
  }

  /**
   * Whatever happens later: a completed or failed run keeps that status, a finished job keeps its
   * row, and no job is ever again inserted for a run that is over.
   */
  lemma {:induction false} OverIsOver(cfg: Config, s: State, events: seq<Event>)
    requires Inv(cfg, s) && TimelyRun(cfg, s, events)
    ensures Orderly(s, Exec(cfg, s, events))
    decreases |events|
  {
    if |events| > 0 {
      var t := Next(cfg, s, events[0]);
      EventKeepsToken(cfg, s, events[0]);
      EventOrderly(cfg, s, events[0]);
      OverIsOver(cfg, t, events[1..]);
      OrderlyTransitive(s, t, Exec(cfg, t, events[1..]));
    }
  }

  lemma {:induction false} ExecExtends(cfg: Config, s: State, events: seq<Event>)
    requires Shape(cfg, s)
    ensures Extends(s, Exec(cfg, s, events))
    decreases |events|
  {
    if |events| > 0 {
      var t := Next(cfg, s, events[0]);
      ExecExtends(cfg, t, events[1..]);
      ExtendsTransitive(s, t, Exec(cfg, t, events[1..]));
    }
  }

  lemma ExtendsTransitive(s: State, t: State, u: State)
    requires Extends(s, t) && Extends(t, u)
    ensures Extends(s, u)
  {
    forall j | 0 <= j < |s.jobs|
      ensures SameJob(s.jobs[j], u.jobs[j])
    {
      assert SameJob(s.jobs[j], t.jobs[j]) && SameJob(t.jobs[j], u.jobs[j]);
    }
    forall r | 0 <= r < |s.runs|
      ensures u.runs[r].workflow == s.runs[r].workflow && u.runs[r].parent == s.runs[r].parent
    {
      assert t.runs[r].workflow == s.runs[r].workflow && t.runs[r].parent == s.runs[r].parent;
    }
  }

  /** A run whose child run failed stays in progress for ever, and never gets a job again. */
  lemma FailedChildStrandsParent(cfg: Config, s: State, c: nat, events: seq<Event>)
    requires Inv(cfg, s) && TimelyRun(cfg, s, events)
    requires c < |s.runs| && s.runs[c].status == Failed && s.runs[c].parent.Some?
    ensures
      var p := s.runs[c].parent.value.run;
      var t := Exec(cfg, s, events);
      && p < |t.runs|
      && t.runs[p].status == InProgress
      && LiveJobs(t.jobs, p, false) == 0
      && LiveJobs(t.jobs, p, true) == 0
  {
    var p := s.runs[c].parent.value.run;
    var t := Exec(cfg, s, events);
    TimelyIsBenign(cfg, s, events);
    EveryRunHasOneToken(cfg, s, events);
    OverIsOver(cfg, s, events);
    ExecExtends(cfg, s, events);
    assert ChildWeight(t.runs[c], p) == 1;
    OpenChildrenPositive(t.runs, p);
    assert RunOk(t, p);
  }

  /** A late delivery of a finished HTTP step that has a next step always starts a second token. */
  lemma LateDeliveryDoublesToken(cfg: Config, s: State, j: nat, v: View)
    requires Inv(cfg, s) && j < |s.jobs| && s.jobs[j].status == Done && s.jobs[j].branch.None?
    requires v.reply.Success? && v.now <= v.later && !Expired(s.runs[s.jobs[j].run], v.later)
    requires
      var steps := cfg.workflows[s.jobs[j].workflow];
      var i := s.jobs[j].stepIndex;
      steps[i].kind.Http? && !steps[i].end && i + 1 < |steps|
    ensures !Inv(cfg, DeliverJob(cfg, s, j, v))
  {
    DeliveryKeepsIffHarmless(cfg, s, j, v);
  }
}
