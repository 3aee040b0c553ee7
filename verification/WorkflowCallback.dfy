/** Callback tokens over every history of the engine: a job that does not wait never waits again. */
module WorkflowCallback {
  import opened Wrappers
  import opened WorkflowConfig
  import opened WorkflowModel

  /** From `s` to `t`: what does not wait goes on not waiting, and new tokens are the numbers of new jobs. */
  ghost predicate Settles(s: State, t: State) {
    && Extends(s, t)
    && (forall j {:trigger t.jobs[j]} :: 0 <= j < |s.jobs| && s.jobs[j].status != Waiting ==> t.jobs[j].status != Waiting)
    && (forall j {:trigger t.jobs[j]} :: |s.jobs| <= j < |t.jobs| && t.jobs[j].token.Some? ==> t.jobs[j].token.value == j)
  }

  /** Every token is the number of its job. */
  ghost predicate Tokens(s: State) {
    forall j {:trigger s.jobs[j]} :: 0 <= j < |s.jobs| && s.jobs[j].token.Some? ==> s.jobs[j].token.value == j
  }

  lemma SettlesTransitive(s: State, t: State, u: State)
    requires Settles(s, t) && Settles(t, u)
    ensures Settles(s, u)
  {
    forall j | 0 <= j < |s.jobs|
      ensures SameJob(s.jobs[j], u.jobs[j])
      ensures s.jobs[j].status != Waiting ==> u.jobs[j].status != Waiting
    {
      assert SameJob(s.jobs[j], t.jobs[j]) && SameJob(t.jobs[j], u.jobs[j]);
    }
    forall j | |s.jobs| <= j < |u.jobs| && u.jobs[j].token.Some?
      ensures u.jobs[j].token.value == j
    {
      if j < |t.jobs| {
        assert SameJob(t.jobs[j], u.jobs[j]);
      }
    }
    forall r | 0 <= r < |s.runs|
      ensures u.runs[r].workflow == s.runs[r].workflow && u.runs[r].parent == s.runs[r].parent
    {
      assert t.runs[r].workflow == s.runs[r].workflow && t.runs[r].parent == s.runs[r].parent;
    }
  }

  // ---- Every part of every event -------------------------------------------

  lemma MarkSettles(cfg: Config, s: State, j: nat, status: JobStatus, output: Option<string>)
    requires Shape(cfg, s) && j < |s.jobs| && status != Waiting
    ensures Settles(s, SaveOutput(cfg, SetStatus(cfg, s, j, status), j, output))
    ensures Settles(s, SetStatus(cfg, s, j, status))
  {
  }

  lemma {:induction false} AdvanceSettles(cfg: Config, s: State, r: nat, i: nat)
    requires Shape(cfg, s) && r < |s.runs| && i < |StepsOf(cfg, s, r)|
    ensures Settles(s, Advance(cfg, s, r, i))
    decreases r, 1
  {
    if i + 1 >= |StepsOf(cfg, s, r)| {
      FinishSettles(cfg, s, r);
    }
  }

  lemma {:induction false} FinishSettles(cfg: Config, s: State, r: nat)
    requires Shape(cfg, s) && r < |s.runs|
    ensures Settles(s, ResumeParent(cfg, SetRunStatus(cfg, s, r, Completed), r))
    decreases r, 0
  {
    var done := SetRunStatus(cfg, s, r, Completed);
    if done.runs[r].parent.Some? {
      var p := done.runs[r].parent.value;
      assert ParentShape(cfg, s.runs, r, p);
      AdvanceSettles(cfg, done, p.run, p.stepIndex);
      SettlesTransitive(s, done, Advance(cfg, done, p.run, p.stepIndex));
    }
  }

  lemma LeaveSettles(cfg: Config, s: State, r: nat, i: nat)
    requires Shape(cfg, s) && r < |s.runs| && i < |StepsOf(cfg, s, r)|
    ensures Settles(s, Leave(cfg, s, r, i))
  {
    if StepsOf(cfg, s, r)[i].end {
      FinishSettles(cfg, s, r);
    } else {
      AdvanceSettles(cfg, s, r, i);
    }
  }

  lemma SuccessSettles(cfg: Config, s: State, j: nat, body: Option<string>, now: nat)
    requires Shape(cfg, s) && j < |s.jobs|
    ensures Settles(s, StepSuccess(cfg, s, j, body, now))
  {
    var job := s.jobs[j];
    var saved := SaveOutput(cfg, s, j, body);
    var run := saved.runs[job.run];
    var t := StepSuccess(cfg, s, j, body, now);
    assert Settles(s, saved);
    if job.branch.Some? {
      if run.parallelCompleted + 1 >= run.parallelCount {
        var closed := SetParallel(cfg, saved, job.run, None, 0, 0);
        LeaveSettles(cfg, closed, job.run, job.stepIndex);
        SettlesTransitive(saved, closed, t);
        SettlesTransitive(s, saved, t);
      }
    } else if !Expired(s.runs[job.run], now) {
      LeaveSettles(cfg, saved, job.run, job.stepIndex);
      SettlesTransitive(s, saved, t);
    }
  }

  lemma FailureSettles(cfg: Config, s: State, j: nat, claim: nat, f: WorkflowConfig.Failure, now: nat)
    requires Shape(cfg, s) && j < |s.jobs|
    ensures Settles(s, StepFailure(cfg, s, j, claim, f, now))
  {
    var job := s.jobs[j];
    var steps := cfg.workflows[job.workflow];
    var step := steps[job.stepIndex];
    if !WillRetry(step, job, claim, f) {
      if FirstCatch(step.catches, f).Some? {
        assert ValidStep(cfg.workflows, job.workflow, steps, step);
        var done := SetStatus(cfg, s, j, Done);
        var k := FindStep(steps, FirstCatch(step.catches, f).value).value;
        EnterSettles(cfg, done, job.run, k);
        SettlesTransitive(s, done, Enter(cfg, done, job.run, k));
      } else if step.onFailure.Continue? {
        var done := SetStatus(cfg, s, j, Done);
        SuccessSettles(cfg, done, j, Some(ERROR_PAYLOAD), now);
        SettlesTransitive(s, done, StepSuccess(cfg, done, j, Some(ERROR_PAYLOAD), now));
      }
    }
  }

  lemma EnterSettles(cfg: Config, s: State, r: nat, i: nat)
    requires Shape(cfg, s) && r < |s.runs| && i < |StepsOf(cfg, s, r)|
    ensures Settles(s, Enter(cfg, s, r, i))
  {
  }

  lemma ForkSettles(cfg: Config, s: State, r: nat, i: nat, names: seq<string>)
    requires Shape(cfg, s) && r < |s.runs| && i < |StepsOf(cfg, s, r)|
    ensures Settles(s, Fork(cfg, s, r, i, names))
  {
  }

  lemma InternalSettles(cfg: Config, s: State, j: nat, v: View)
    requires Shape(cfg, s) && j < |s.jobs|
    ensures Settles(s, Internal(cfg, s, j, v))
  {
    var r, i := s.jobs[j].run, s.jobs[j].stepIndex;
    var steps := cfg.workflows[s.jobs[j].workflow];
    assert ValidStep(cfg.workflows, s.jobs[j].workflow, steps, steps[i]);
    match steps[i].kind
    case Choice(rules, default) =>
      if Target(rules, default, v.holds).Some? {
        EnterSettles(cfg, s, r, FindStep(steps, Target(rules, default, v.holds).value).value);
      }
    case Parallel(branches) => ForkSettles(cfg, s, r, i, branches);
    case MapItems =>
      if v.input.Json? && v.input.items > 0 {
        ForkSettles(cfg, s, r, i, ItemNames(v.input.items));
      }
    case Wait(_) => AdvanceSettles(cfg, s, r, i);
    case _ =>
  }

  lemma DeliverySettles(cfg: Config, s: State, j: nat, v: View)
    requires Shape(cfg, s) && j < |s.jobs|
    ensures Settles(s, DeliverJob(cfg, s, j, v))
  {
    var job := s.jobs[j];
    var done := SetStatus(cfg, s, j, Done);
    if !Expired(s.runs[job.run], v.now) {
      if job.branch.None? && !cfg.workflows[job.workflow][job.stepIndex].kind.Http? {
        InternalSettles(cfg, done, j, v);
        SettlesTransitive(s, done, Internal(cfg, done, j, v));
      } else {
        match v.reply
        case Success(body) =>
          SuccessSettles(cfg, done, j, body, v.later);
          SettlesTransitive(s, done, StepSuccess(cfg, done, j, body, v.later));
        case Failure(f) => FailureSettles(cfg, s, j, v.claim, f, v.later);
      }
    }
  }

  lemma CallbackSettles(cfg: Config, s: State, token: nat, body: string)
    requires Shape(cfg, s)
    ensures Settles(s, ReceiveCallback(cfg, s, token, body))
    ensures
      var found := FindToken(s.jobs, token);
      found.Some? ==> ReceiveCallback(cfg, s, token, body).jobs[found.value].status != Waiting
  {
    var found := FindToken(s.jobs, token);
    if found.Some? && s.jobs[found.value].status == Waiting {
      var j := found.value;
      var done := SaveOutput(cfg, SetStatus(cfg, s, j, Done), j, Some(body));
      MarkSettles(cfg, s, j, Done, Some(body));
      LeaveSettles(cfg, done, s.jobs[j].run, s.jobs[j].stepIndex);
      SettlesTransitive(s, done, Leave(cfg, done, s.jobs[j].run, s.jobs[j].stepIndex));
    }
  }

  lemma EventSettles(cfg: Config, s: State, e: Event)
    requires Shape(cfg, s)
    ensures Settles(s, Next(cfg, s, e))
  {
    match e
    case Deliver(j, v) =>
      if j < |s.jobs| {
        DeliverySettles(cfg, s, j, v);
      }
    case CallbackReceived(token, body) => CallbackSettles(cfg, s, token, body);
    case _ =>
  }

  lemma {:induction false} HistorySettles(cfg: Config, s: State, events: seq<Event>)
    requires Shape(cfg, s)
    ensures Settles(s, Exec(cfg, s, events))
    decreases |events|
  {
    if |events| > 0 {
      var t := Next(cfg, s, events[0]);
      EventSettles(cfg, s, events[0]);
      HistorySettles(cfg, t, events[1..]);
      SettlesTransitive(s, t, Exec(cfg, t, events[1..]));
    }
  }

  lemma TokensStay(s: State, t: State)
    requires Tokens(s) && Settles(s, t)
    ensures Tokens(t)
  {
    forall j | 0 <= j < |t.jobs| && t.jobs[j].token.Some?
      ensures t.jobs[j].token.value == j
    {
      if j < |s.jobs| {
        assert SameJob(s.jobs[j], t.jobs[j]);
      }
    }
  }

  /**
   * In every history of the engine, benign or not, with whatever late and repeated deliveries
   * between: once a callback for a token that was issued has been received, a second one with the
   * same token changes nothing.
   */
  lemma CallbackCountsOnce(cfg: Config, before: seq<Event>, token: nat, body: string, events: seq<Event>, again: string)
    requires ValidWorkflows(cfg.workflows) && FindToken(Exec(cfg, EMPTY, before).jobs, token).Some?
    ensures
      var s := Exec(cfg, EMPTY, before);
      var later := Exec(cfg, ReceiveCallback(cfg, s, token, body), events);
      ReceiveCallback(cfg, later, token, again) == later
  {
    var s := Exec(cfg, EMPTY, before);
    var t := ReceiveCallback(cfg, s, token, body);
    var later := Exec(cfg, t, events);
    HistorySettles(cfg, EMPTY, before);
    TokensStay(EMPTY, s);
    CallbackSettles(cfg, s, token, body);
    TokensStay(s, t);
    HistorySettles(cfg, t, events);
    TokensStay(t, later);
    assert later.jobs[token].status != Waiting;
  }
}
