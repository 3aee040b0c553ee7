/**
 * One delivery of a live job: it keeps the one-token invariant unless it loses its run, and the
 * deliveries that do so are told apart before they are handled: an empty, unreadable or over-long
 * map, a timestamp wait with an unreadable input, a join that cannot be counted, and a branch whose
 * failure is caught.
 */
module WorkflowDelivery {
  import opened Wrappers
  import opened WorkflowConfig
  import opened WorkflowModel
  import opened WorkflowToken

  // ---- Which deliveries lose a run -----------------------------------------

  /** The step forks into `n` jobs; an empty or uncountable fork cannot be joined. */
  predicate JoinableCount(n: nat) {
    0 < n <= I32_MAX
  }

  /**
   * The deliveries after which a run can never be moved on correctly: an empty, unreadable or
   * uncountable fork, a wait for a timestamp in an unreadable input, and a branch whose failure is
   * caught. All of it can be told before the delivery is handled.
   */
  predicate LosesRun(cfg: Config, s: State, j: nat, v: View)
    requires j < |s.jobs| && JobShape(cfg, s.runs, s.jobs[j])
  {
    var job := s.jobs[j];
    var step := cfg.workflows[job.workflow][job.stepIndex];
    && !Expired(s.runs[job.run], v.now)
    && if job.branch.Some? then
         && v.reply.Failure?
         && !WillRetry(step, job, v.claim, v.reply.error)
         && FirstCatch(step.catches, v.reply.error).Some?
       else
         match step.kind
         case Parallel(branches) => !JoinableCount(|branches|)
         case MapItems => v.input.NotJson? || !JoinableCount(v.input.items)
         case Wait(byTimestamp) => byTimestamp && v.input.NotJson?
         case _ => false
  }

  // ---- What a delivery leaves of the rows ----------------------------------

  /** The status in which a delivery leaves its own row. */
  ghost function EndStatus(cfg: Config, s: State, j: nat, v: View): JobStatus
    requires Shape(cfg, s) && j < |s.jobs|
  {
    var job := s.jobs[j];
    var step := cfg.workflows[job.workflow][job.stepIndex];
    if Expired(s.runs[job.run], v.now) then Dead
    else if job.branch.None? && !step.kind.Http? then Done
    else
      match v.reply
      case Success(_) => Done
      case Failure(f) =>
        if WillRetry(step, job, v.claim, f) then Retryable
        else if FirstCatch(step.catches, f).Some? || step.onFailure.Continue? then Done
        else Dead
  }

  /** A row that carries a callback token is never marked anything but done. */
  ghost predicate SparesToken(cfg: Config, s: State, j: nat, v: View)
    requires Shape(cfg, s) && j < |s.jobs|
  {
    s.jobs[j].token.Some? ==> EndStatus(cfg, s, j, v) == Done
  }

  lemma {:induction false} AdvanceKeepsJobs(cfg: Config, s: State, r: nat, i: nat)
    requires Shape(cfg, s) && r < |s.runs| && i < |StepsOf(cfg, s, r)|
    ensures s.jobs <= Advance(cfg, s, r, i).jobs
    decreases r, 1
  {
    if i + 1 >= |StepsOf(cfg, s, r)| {
      ResumeKeepsJobs(cfg, SetRunStatus(cfg, s, r, Completed), r);
    }
  }

  lemma {:induction false} ResumeKeepsJobs(cfg: Config, s: State, r: nat)
    requires Shape(cfg, s) && r < |s.runs|
    ensures s.jobs <= ResumeParent(cfg, s, r).jobs
    decreases r, 0
  {
    if s.runs[r].parent.Some? {
      AdvanceKeepsJobs(cfg, s, s.runs[r].parent.value.run, s.runs[r].parent.value.stepIndex);
    }
  }

  lemma LeaveKeepsJobs(cfg: Config, s: State, r: nat, i: nat)
    requires Shape(cfg, s) && r < |s.runs| && i < |StepsOf(cfg, s, r)|
    ensures s.jobs <= Leave(cfg, s, r, i).jobs
  {
    AdvanceKeepsJobs(cfg, s, r, i);
    ResumeKeepsJobs(cfg, SetRunStatus(cfg, s, r, Completed), r);
  }

  /** `t` has the rows of `s`, row `j` with a new status and perhaps a new output, and perhaps more rows. */
  ghost predicate OnlyRow(s: State, t: State, j: nat, status: JobStatus)
    requires j < |s.jobs|
  {
    && |s.jobs| <= |t.jobs|
    && (forall k :: 0 <= k < |s.jobs| && k != j ==> t.jobs[k] == s.jobs[k])
    && t.jobs[j] == s.jobs[j].(status := status, output := t.jobs[j].output)
  }

  lemma SuccessTouchesOneRow(cfg: Config, s: State, j: nat, body: Option<string>, now: nat)
    requires Shape(cfg, s) && j < |s.jobs|
    ensures OnlyRow(s, StepSuccess(cfg, SetStatus(cfg, s, j, Done), j, body, now), j, Done)
  {
    var job := s.jobs[j];
    var saved := SaveOutput(cfg, SetStatus(cfg, s, j, Done), j, body);
    LeaveKeepsJobs(cfg, saved, job.run, job.stepIndex);
    LeaveKeepsJobs(cfg, SetParallel(cfg, saved, job.run, None, 0, 0), job.run, job.stepIndex);
  }

  lemma InternalAppends(cfg: Config, s: State, j: nat, v: View)
    requires Shape(cfg, s) && j < |s.jobs|
    ensures OnlyRow(s, Internal(cfg, s, j, v), j, s.jobs[j].status)
  {
    var job := s.jobs[j];
    AdvanceKeepsJobs(cfg, s, job.run, job.stepIndex);
  }

  /** A delivery changes its own row as `EndStatus` says, no other row that was there, and may add rows. */
  lemma DeliveryTouchesOneRow(cfg: Config, s: State, j: nat, v: View)
    requires Shape(cfg, s) && j < |s.jobs|
    ensures OnlyRow(s, DeliverJob(cfg, s, j, v), j, EndStatus(cfg, s, j, v))
  {
    var job := s.jobs[j];
    if Expired(s.runs[job.run], v.now) {
    } else if job.branch.None? && !cfg.workflows[job.workflow][job.stepIndex].kind.Http? {
      InternalAppends(cfg, SetStatus(cfg, s, j, Done), j, v);
    } else {
      match v.reply {
        case Success(body) => SuccessTouchesOneRow(cfg, s, j, body, v.later);
        case Failure(f) => SuccessTouchesOneRow(cfg, s, j, Some(ERROR_PAYLOAD), v.later);
      }
    }
  }

  lemma TokenLost(cfg: Config, s: State, j: nat, v: View)
    requires Shape(cfg, s) && j < |s.jobs| && !SparesToken(cfg, s, j, v)
    ensures !Inv(cfg, DeliverJob(cfg, s, j, v))
  {
    var t := DeliverJob(cfg, s, j, v);
    DeliveryTouchesOneRow(cfg, s, j, v);
    assert JobShape(cfg, t.runs, t.jobs[j]);
    assert !JobOk(cfg, t, j);
  }

  // ---- Rows that stay live -------------------------------------------------

  /** A live job may change status and attempt as long as it stays live. */
  lemma KeepLive(cfg: Config, s: State, j: nat, x: Job)
    requires Inv(cfg, s) && j < |s.jobs| && Live(s.jobs[j]) && s.jobs[j].status != Waiting
    requires Live(x) && x.status != Waiting && x == s.jobs[j].(status := x.status, attempt := x.attempt)
    requires Shape(cfg, s.(jobs := s.jobs[j := x]))
    ensures Inv(cfg, s.(jobs := s.jobs[j := x]))
  {
    var t := s.(jobs := s.jobs[j := x]);
    assert AllRunsOk(t, None) by {
      forall q: nat | q < |t.runs|
        ensures RunOk(t, q)
      {
        KeepLiveRun(s, j, x, q);
      }
    }
    forall k | 0 <= k < |t.jobs|
      ensures JobOk(cfg, t, k)
    {
      assert JobOk(cfg, s, k);
    }
    forall c | 0 <= c < |t.runs|
      ensures ChildOk(cfg, t, c)
    {
      assert ChildOk(cfg, s, c);
    }
  }

  lemma KeepLiveRun(s: State, j: nat, x: Job, q: nat)
    requires AllRunsOk(s, None) && j < |s.jobs| && Live(s.jobs[j]) && q < |s.runs|
    requires Live(x) && x.run == s.jobs[j].run && x.branch == s.jobs[j].branch
    ensures RunOk(s.(jobs := s.jobs[j := x]), q)
  {
    assert RunOk(s, q);
    LiveJobsUpdate(s.jobs, j, x, q, false);
    LiveJobsUpdate(s.jobs, j, x, q, true);
  }

  // ---- Branch jobs ---------------------------------------------------------

  /** A live branch job belongs to an open join, or to a join that has already failed. */
  lemma BranchHasJoin(cfg: Config, s: State, j: nat)
    requires Inv(cfg, s) && j < |s.jobs| && Live(s.jobs[j]) && s.jobs[j].branch.Some?
    ensures
      var r := s.jobs[j].run;
      && r < |s.runs|
      && LiveJobs(s.jobs, r, true) > 0
      && LiveJobs(s.jobs, r, false) == 0
      && ((s.runs[r].status == InProgress && AtJoin(s, r)) || s.runs[r].status == Failed)
  {
    var r := s.jobs[j].run;
    assert Weight(s.jobs[j], r, true) == 1;
    LiveJobsPositive(s.jobs, r, true);
    assert RunOk(s, r);
  }

  /** Rows other than run rows, when branch job `j` finishes. */
  lemma BranchRows(cfg: Config, s: State, t: State, j: nat)
    requires Inv(cfg, s) && Shape(cfg, t) && j < |s.jobs| && s.jobs[j].branch.Some?
    requires |t.jobs| == |s.jobs| && t.jobs == s.jobs[j := t.jobs[j]]
    requires t.jobs[j] == s.jobs[j].(status := t.jobs[j].status, output := t.jobs[j].output) && t.jobs[j].status != Waiting
    requires Live(s.jobs[j])
    requires |t.runs| == |s.runs|
    requires forall q :: 0 <= q < |s.runs| ==>
      && t.runs[q].currentStep == s.runs[q].currentStep
      && t.runs[q].workflow == s.runs[q].workflow
      && t.runs[q].parent == s.runs[q].parent
      && (t.runs[q].status != Completed ==> s.runs[q].status != Completed)
    ensures AllJobsOk(cfg, t) && AllChildrenOk(cfg, t)
  {
    forall k | 0 <= k < |t.jobs|
      ensures JobOk(cfg, t, k)
    {
      assert JobOk(cfg, s, k);
    }
    forall c | 0 <= c < |t.runs|
      ensures ChildOk(cfg, t, c)
    {
      assert ChildOk(cfg, s, c);
    }
  }

  /** Run rows, when branch job `j` of run `r` finishes and `r`'s own row becomes `run`. */
  lemma BranchRuns(cfg: Config, s: State, t: State, j: nat, hole: Option<nat>)
    requires Inv(cfg, s) && j < |s.jobs| && Live(s.jobs[j]) && s.jobs[j].branch.Some?
    requires |t.jobs| == |s.jobs| && t.jobs == s.jobs[j := t.jobs[j]] && !Live(t.jobs[j])
    requires
      var r := s.jobs[j].run;
      && r < |s.runs|
      && |t.runs| == |s.runs|
      && t.runs == s.runs[r := t.runs[r]]
      && t.runs[r].parent == s.runs[r].parent
      && (hole.Some? ==> hole == Some(r))
      && (t.runs[r].status == Completed <==> s.runs[r].status == Completed)
      && var left := LiveJobs(s.jobs, r, true) - 1;
         if hole.Some? then t.runs[r].status == InProgress && left == 0 && t.runs[r].parallelStep.None?
         else if t.runs[r].status == Failed then left > 0 ==> left + t.runs[r].parallelCompleted < t.runs[r].parallelCount
         else
           && t.runs[r].status == InProgress
           && left > 0
           && left + t.runs[r].parallelCompleted == t.runs[r].parallelCount
           && t.runs[r].parallelStep == Some(t.runs[r].currentStep)
    ensures AllRunsOk(t, hole)
  {
    var r := s.jobs[j].run;
    BranchHasJoin(cfg, s, j);
    forall q: nat | q < |t.runs|
      ensures if hole == Some(q) then NoToken(t, q) else RunOk(t, q)
    {
      BranchCounts(s, t, j, q);
      assert RunOk(s, q);
      if q != r {
        SameRunOk(s, t, q);
      }
    }
  }

  /** What the rows of a run count to, when branch job `j` is over. */
  lemma BranchCounts(s: State, t: State, j: nat, q: nat)
    requires j < |s.jobs| && Live(s.jobs[j]) && s.jobs[j].branch.Some? && s.jobs[j].run < |s.runs|
    requires |t.jobs| == |s.jobs| && t.jobs == s.jobs[j := t.jobs[j]] && !Live(t.jobs[j])
    requires
      var r := s.jobs[j].run;
      && |t.runs| == |s.runs|
      && t.runs == s.runs[r := t.runs[r]]
      && t.runs[r].parent == s.runs[r].parent
      && (t.runs[r].status == Completed <==> s.runs[r].status == Completed)
    ensures LiveJobs(t.jobs, q, false) == LiveJobs(s.jobs, q, false)
    ensures LiveJobs(t.jobs, q, true) == LiveJobs(s.jobs, q, true) - (if q == s.jobs[j].run then 1 else 0)
    ensures OpenChildren(t.runs, q) == OpenChildren(s.runs, q)
  {
    LiveJobsUpdate(s.jobs, j, t.jobs[j], q, false);
    LiveJobsUpdate(s.jobs, j, t.jobs[j], q, true);
    OpenChildrenUpdate(s.runs, s.jobs[j].run, t.runs[s.jobs[j].run], q);
  }

  /** The two statements that finish branch job `j`, as one change of its row. */
  lemma FinishedRow(cfg: Config, s: State, j: nat, body: Option<string>)
    requires Shape(cfg, s) && j < |s.jobs|
    ensures
      var t := SaveOutput(cfg, SetStatus(cfg, s, j, Done), j, body);
      && t.runs == s.runs
      && t.jobs == s.jobs[j := t.jobs[j]]
      && t.jobs[j] == s.jobs[j].(status := Done, output := t.jobs[j].output)
  {
  }

  /** Branch job `j` is finished and its run has counted it. */
  ghost function Counted(cfg: Config, s: State, j: nat, body: Option<string>): (t: State)
    requires Shape(cfg, s) && j < |s.jobs|
    ensures Shape(cfg, t)
    ensures s.runs[s.jobs[j].run].parallelCompleted + 1 < s.runs[s.jobs[j].run].parallelCount ==>
              t == BranchDone(cfg, SetStatus(cfg, s, j, Done), j, body)
  {
    var run := s.runs[s.jobs[j].run];
    SetParallel(cfg, SaveOutput(cfg, SetStatus(cfg, s, j, Done), j, body), s.jobs[j].run,
                run.parallelStep, run.parallelCount, run.parallelCompleted + 1)
  }

  lemma CountedCounts(cfg: Config, s: State, j: nat, body: Option<string>, q: nat)
    requires Shape(cfg, s) && j < |s.jobs|
    ensures
      var t := Counted(cfg, s, j, body);
      && LiveJobs(t.jobs, q, false) == LiveJobs(s.jobs, q, false) - Weight(s.jobs[j], q, false)
      && LiveJobs(t.jobs, q, true) == LiveJobs(s.jobs, q, true) - Weight(s.jobs[j], q, true)
      && OpenChildren(t.runs, q) == OpenChildren(s.runs, q)
  {
    var r := s.jobs[j].run;
    TakeTokenCounts(cfg, s, j, Done, body, q, false);
    TakeTokenCounts(cfg, s, j, Done, body, q, true);
    FinishedRow(cfg, s, j, body);
    OpenChildrenUpdate(s.runs, r, Counted(cfg, s, j, body).runs[r], q);
  }

  /** One completion more than before, and one live branch less. */
  lemma CountedRunOk(s: State, t: State, r: nat)
    requires r < |s.runs| && r < |t.runs| && RunOk(s, r) && LiveJobs(s.jobs, r, true) > 0 && LiveJobs(s.jobs, r, false) == 0
    requires s.runs[r].status == Failed || (s.runs[r].status == InProgress && AtJoin(s, r))
    requires s.runs[r].parallelCompleted + 1 < s.runs[r].parallelCount
    requires t.runs[r] == s.runs[r].(parallelCompleted := s.runs[r].parallelCompleted + 1)
    requires LiveJobs(t.jobs, r, false) == LiveJobs(s.jobs, r, false)
    requires LiveJobs(t.jobs, r, true) == LiveJobs(s.jobs, r, true) - 1
    requires OpenChildren(t.runs, r) == OpenChildren(s.runs, r)
    ensures RunOk(t, r)
  {
  }

  lemma CountedRun(cfg: Config, s: State, j: nat, body: Option<string>)
    requires Inv(cfg, s) && j < |s.jobs| && Live(s.jobs[j]) && s.jobs[j].branch.Some?
    requires s.runs[s.jobs[j].run].parallelCompleted + 1 < s.runs[s.jobs[j].run].parallelCount
    ensures RunOk(Counted(cfg, s, j, body), s.jobs[j].run)
  {
    var r := s.jobs[j].run;
    BranchHasJoin(cfg, s, j);
    assert RunOk(s, r);
    CountedCounts(cfg, s, j, body, r);
    CountedRunOk(s, Counted(cfg, s, j, body), r);
  }

  lemma CountedRuns(cfg: Config, s: State, j: nat, body: Option<string>)
    requires Inv(cfg, s) && j < |s.jobs| && Live(s.jobs[j]) && s.jobs[j].branch.Some?
    requires s.runs[s.jobs[j].run].parallelCompleted + 1 < s.runs[s.jobs[j].run].parallelCount
    ensures AllRunsOk(Counted(cfg, s, j, body), None)
  {
    var t := Counted(cfg, s, j, body);
    CountedRun(cfg, s, j, body);
    forall q: nat | q < |t.runs| && q != s.jobs[j].run
      ensures RunOk(t, q)
    {
      assert RunOk(s, q);
      CountedCounts(cfg, s, j, body, q);
      SameRunOk(s, t, q);
    }
  }

  lemma BranchCounted(cfg: Config, s: State, j: nat, body: Option<string>)
    requires Inv(cfg, s) && j < |s.jobs| && Live(s.jobs[j]) && s.jobs[j].branch.Some?
    requires s.runs[s.jobs[j].run].parallelCompleted + 1 < s.runs[s.jobs[j].run].parallelCount
    ensures Inv(cfg, BranchDone(cfg, SetStatus(cfg, s, j, Done), j, body))
  {
    CountedRuns(cfg, s, j, body);
    FinishedRow(cfg, s, j, body);
    BranchRows(cfg, s, Counted(cfg, s, j, body), j);
  }

  /** The last branch of a join that has not failed closes the join. */
  lemma LastBranch(cfg: Config, s: State, j: nat, body: Option<string>)
    requires Inv(cfg, s) && j < |s.jobs| && Live(s.jobs[j]) && s.jobs[j].branch.Some?
    requires s.jobs[j].run < |s.runs| && s.runs[s.jobs[j].run].parallelCompleted + 1 >= s.runs[s.jobs[j].run].parallelCount
    ensures
      var r := s.jobs[j].run;
      && s.runs[r].status == InProgress
      && InvBut(cfg, SetParallel(cfg, SaveOutput(cfg, SetStatus(cfg, s, j, Done), j, body), r, None, 0, 0), Some(r))
  {
    var r := s.jobs[j].run;
    BranchHasJoin(cfg, s, j);
    assert RunOk(s, r);
    var saved := SaveOutput(cfg, SetStatus(cfg, s, j, Done), j, body);
    var t := SetParallel(cfg, saved, r, None, 0, 0);
    BranchRuns(cfg, s, t, j, Some(r));
    BranchRows(cfg, s, t, j);
  }

  lemma BranchSuccess(cfg: Config, s: State, j: nat, body: Option<string>)
    requires Inv(cfg, s) && j < |s.jobs| && Live(s.jobs[j]) && s.jobs[j].branch.Some?
    ensures Inv(cfg, BranchDone(cfg, SetStatus(cfg, s, j, Done), j, body))
  {
    var r := s.jobs[j].run;
    if s.runs[r].parallelCompleted + 1 < s.runs[r].parallelCount {
      BranchCounted(cfg, s, j, body);
    } else {
      LastBranch(cfg, s, j, body);
      var saved := SaveOutput(cfg, SetStatus(cfg, s, j, Done), j, body);
      LeaveGives(cfg, SetParallel(cfg, saved, r, None, 0, 0), r, s.jobs[j].stepIndex);
    }
  }

  lemma BranchDies(cfg: Config, s: State, j: nat)
    requires Inv(cfg, s) && j < |s.jobs| && Live(s.jobs[j]) && s.jobs[j].branch.Some?
    ensures Inv(cfg, SetRunStatus(cfg, SetStatus(cfg, s, j, Dead), s.jobs[j].run, Failed))
  {
    BranchHasJoin(cfg, s, j);
    assert RunOk(s, s.jobs[j].run);
    var t := SetRunStatus(cfg, SetStatus(cfg, s, j, Dead), s.jobs[j].run, Failed);
    BranchRuns(cfg, s, t, j, None);
    BranchRows(cfg, s, t, j);
  }

  /** A caught branch puts a second thing to wait for beside the join it never completes. */
  lemma BranchCaught(cfg: Config, s: State, j: nat, i: nat)
    requires Inv(cfg, s) && j < |s.jobs| && Live(s.jobs[j]) && s.jobs[j].branch.Some?
    requires i < |StepsOf(cfg, s, s.jobs[j].run)|
    ensures !Inv(cfg, Enter(cfg, SetStatus(cfg, s, j, Done), s.jobs[j].run, i))
  {
    var r := s.jobs[j].run;
    BranchHasJoin(cfg, s, j);
    var done := SetStatus(cfg, s, j, Done);
    var t := Enter(cfg, done, r, i);
    LiveJobsUpdate(s.jobs, j, done.jobs[j], r, false);
    EnterCounts(cfg, done, r, i, r);
    assert !RunOk(t, r);
  }

  // ---- One delivery --------------------------------------------------------

  lemma DeliverBranch(cfg: Config, s: State, j: nat, v: View)
    requires Inv(cfg, s) && j < |s.jobs| && Live(s.jobs[j]) && SparesToken(cfg, s, j, v) && s.jobs[j].branch.Some?
    ensures Inv(cfg, DeliverJob(cfg, s, j, v)) <==> !LosesRun(cfg, s, j, v)
  {
    assert JobOk(cfg, s, j);
    var job := s.jobs[j];
    var steps := cfg.workflows[job.workflow];
    var step := steps[job.stepIndex];
    if Expired(s.runs[job.run], v.now) {
      BranchDies(cfg, s, j);
    } else {
      match v.reply
      case Success(body) => BranchSuccess(cfg, s, j, body);
      case Failure(f) =>
        if WillRetry(step, job, v.claim, f) {
          KeepLive(cfg, s, j, job.(status := Retryable));
        } else {
          match FirstCatch(step.catches, f)
          case Some(goto) =>
            assert ValidStep(cfg.workflows, job.workflow, steps, step);
            BranchCaught(cfg, s, j, FindStep(steps, goto).value);
          case None =>
            BranchSuccess(cfg, s, j, Some(ERROR_PAYLOAD));
            BranchDies(cfg, s, j);
        }
    }
  }

  lemma StepSucceeds(cfg: Config, s: State, j: nat, body: Option<string>, now: nat)
    requires Inv(cfg, s) && j < |s.jobs| && Live(s.jobs[j]) && s.jobs[j].branch.None?
    ensures Inv(cfg, StepSuccess(cfg, SetStatus(cfg, s, j, Done), j, body, now))
  {
    var r := s.jobs[j].run;
    TakeToken(cfg, s, j, Done, body);
    var t := SaveOutput(cfg, SetStatus(cfg, s, j, Done), j, body);
    if Expired(s.runs[r], now) {
      GiveFailure(cfg, t, r);
    } else {
      LeaveGives(cfg, t, r, s.jobs[j].stepIndex);
    }
  }

  lemma DeliverHttp(cfg: Config, s: State, j: nat, v: View)
    requires Inv(cfg, s) && j < |s.jobs| && Live(s.jobs[j]) && SparesToken(cfg, s, j, v) && s.jobs[j].branch.None?
    requires cfg.workflows[s.jobs[j].workflow][s.jobs[j].stepIndex].kind.Http? && !Expired(s.runs[s.jobs[j].run], v.now)
    ensures Inv(cfg, DeliverJob(cfg, s, j, v))
  {
    assert JobOk(cfg, s, j);
    var job := s.jobs[j];
    var steps := cfg.workflows[job.workflow];
    var step := steps[job.stepIndex];
    match v.reply
    case Success(body) => StepSucceeds(cfg, s, j, body, v.later);
    case Failure(f) =>
      if WillRetry(step, job, v.claim, f) {
        KeepLive(cfg, s, j, job.(status := Retryable));
      } else {
        match FirstCatch(step.catches, f)
        case Some(goto) =>
          assert ValidStep(cfg.workflows, job.workflow, steps, step);
          TakeToken(cfg, s, j, Done, None);
          GiveJob(cfg, SetStatus(cfg, s, j, Done), job.run, FindStep(steps, goto).value);
        case None =>
          if step.onFailure.Continue? {
            StepSucceeds(cfg, s, j, Some(ERROR_PAYLOAD), v.later);
          } else {
            TakeToken(cfg, s, j, Dead, None);
            GiveFailure(cfg, SetStatus(cfg, s, j, Dead), job.run);
          }
      }
  }

  /** A fork of more jobs than its 32-bit count can say is not joined by the last of them. */
  lemma ForkTooWide(cfg: Config, s: State, r: nat, i: nat, names: seq<string>)
    requires r < |s.runs| && InvBut(cfg, s, Some(r)) && i < |StepsOf(cfg, s, r)|
    requires |names| > I32_MAX
    ensures !Inv(cfg, Fork(cfg, s, r, i, names))
  {
    ForkCounts(cfg, s, r, i, names, r);
    assert NoToken(s, r);
    assert !RunOk(Fork(cfg, s, r, i, names), r);
  }

  lemma StaysLost(cfg: Config, s: State, r: nat)
    requires r < |s.runs| && InvBut(cfg, s, Some(r))
    ensures !Inv(cfg, s)
  {
    assert NoToken(s, r) && !RunOk(s, r);
  }

  lemma DeliverInternal(cfg: Config, s: State, j: nat, v: View)
    requires Inv(cfg, s) && j < |s.jobs| && Live(s.jobs[j]) && SparesToken(cfg, s, j, v) && s.jobs[j].branch.None?
    requires !cfg.workflows[s.jobs[j].workflow][s.jobs[j].stepIndex].kind.Http? && !Expired(s.runs[s.jobs[j].run], v.now)
    ensures Inv(cfg, DeliverJob(cfg, s, j, v)) <==> !LosesRun(cfg, s, j, v)
  {
    var job := s.jobs[j];
    var r, i := job.run, job.stepIndex;
    var steps := cfg.workflows[job.workflow];
    assert ValidStep(cfg.workflows, job.workflow, steps, steps[i]);
    TakeToken(cfg, s, j, Done, None);
    var t := SetStatus(cfg, s, j, Done);
    match steps[i].kind
    case Choice(rules, default) =>
      var target := Target(rules, default, v.holds);
      if target.None? {
        GiveFailure(cfg, t, r);
      } else {
        GiveJob(cfg, t, r, FindStep(steps, target.value).value);
      }
    case Parallel(branches) =>
      if JoinableCount(|branches|) {
        GiveJoin(cfg, t, r, i, branches);
      } else {
        ForkTooWide(cfg, t, r, i, branches);
      }
    case MapItems =>
      if v.input.NotJson? {
        StaysLost(cfg, t, r);
      } else if v.input.items == 0 {
        TakeToken(cfg, s, j, Done, Some("[]"));
        StaysLost(cfg, SaveOutput(cfg, t, j, Some("[]")), r);
      } else if JoinableCount(v.input.items) {
        GiveJoin(cfg, t, r, i, ItemNames(v.input.items));
      } else {
        ForkTooWide(cfg, t, r, i, ItemNames(v.input.items));
      }
    case Wait(byTimestamp) =>
      if byTimestamp && v.input.NotJson? {
        StaysLost(cfg, t, r);
      } else {
        AdvanceGives(cfg, t, r, i);
      }
    case Callback => GiveWaiting(cfg, t, r, i);
    case SubWorkflow(target) => GiveChild(cfg, t, target, None, Some(Parent(r, i)));
  }

  lemma DeliverKeeps(cfg: Config, s: State, j: nat, v: View)
    requires Inv(cfg, s) && j < |s.jobs| && Live(s.jobs[j]) && SparesToken(cfg, s, j, v)
    ensures Inv(cfg, DeliverJob(cfg, s, j, v)) <==> !LosesRun(cfg, s, j, v)
  {
    assert JobOk(cfg, s, j);
    var job := s.jobs[j];
    if job.branch.Some? {
      DeliverBranch(cfg, s, j, v);
    } else if Expired(s.runs[job.run], v.now) {
      TakeToken(cfg, s, j, Dead, None);
      GiveFailure(cfg, SetStatus(cfg, s, j, Dead), job.run);
    } else if cfg.workflows[job.workflow][job.stepIndex].kind.Http? {
      DeliverHttp(cfg, s, j, v);
    } else {
      DeliverInternal(cfg, s, j, v);
    }
  }

  lemma CallbackKeeps(cfg: Config, s: State, token: nat, body: string)
    requires Inv(cfg, s)
    ensures Inv(cfg, ReceiveCallback(cfg, s, token, body))
  {
    var found := FindToken(s.jobs, token);
    if found.Some? && s.jobs[found.value].status == Waiting {
      var j := found.value;
      assert JobOk(cfg, s, j);
      TakeToken(cfg, s, j, Done, Some(body));
      LeaveGives(cfg, SaveOutput(cfg, SetStatus(cfg, s, j, Done), j, Some(body)), s.jobs[j].run, s.jobs[j].stepIndex);
    }
  }
}
