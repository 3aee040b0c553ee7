/**
 * Deliveries of jobs that are over: a row may have been recovered, claimed again and finished while
 * an older delivery of it was still under way, and the code handles that one as well. Such a
 * delivery keeps the invariant exactly when it is quiet, which shows in the statuses of its run and
 * of the run's ancestors, and in the run's live branches.
 */
module WorkflowLate {
  import opened Wrappers
  import opened WorkflowConfig
  import opened WorkflowModel
  import opened WorkflowToken
  import opened WorkflowDelivery
  import opened WorkflowResume

  // ---- When a late delivery does no harm -----------------------------------

  /** Failing run `r` leaves every run with its one token. */
  predicate FailsQuietly(s: State, r: nat)
    requires r < |s.runs|
  {
    s.runs[r].status == Failed || (s.runs[r].status == Completed && s.runs[r].parent.None?)
  }

  /** Completing run `r`, and with it the chain of its parents, leaves every run with its one token. */
  ghost predicate CompletesQuietly(cfg: Config, s: State, r: nat)
    requires Shape(cfg, s) && r < |s.runs|
    decreases r
  {
    match s.runs[r].status
    case InProgress => false
    case Failed => LiveJobs(s.jobs, r, true) == 0
    case Completed =>
      match s.runs[r].parent
      case None => true
      case Some(p) => p.stepIndex + 1 >= |StepsOf(cfg, s, p.run)| && CompletesQuietly(cfg, s, p.run)
  }

  /** A second completion of a branch of run `r`, short of the last. */
  predicate CountsQuietly(s: State, r: nat)
    requires r < |s.runs|
  {
    match s.runs[r].status
    case InProgress => s.runs[r].parallelStep.None?
    case Completed => true
    case Failed =>
      LiveJobs(s.jobs, r, true) > 0 ==> LiveJobs(s.jobs, r, true) + s.runs[r].parallelCompleted + 1 < s.runs[r].parallelCount
  }

  ghost predicate LateSuccess(cfg: Config, s: State, j: nat, now: nat)
    requires Shape(cfg, s) && j < |s.jobs|
  {
    var job := s.jobs[j];
    var run := s.runs[job.run];
    var steps := StepsOf(cfg, s, job.run);
    var last := steps[job.stepIndex].end || job.stepIndex + 1 >= |steps|;
    if job.branch.Some? && run.parallelCompleted + 1 < run.parallelCount then CountsQuietly(s, job.run)
    else if job.branch.None? && Expired(run, now) then FailsQuietly(s, job.run)
    else last && CompletesQuietly(cfg, s, job.run)
  }

  ghost predicate LateFailure(cfg: Config, s: State, j: nat, claim: nat, f: WorkflowConfig.Failure, now: nat)
    requires Shape(cfg, s) && j < |s.jobs|
  {
    var job := s.jobs[j];
    var run := s.runs[job.run];
    var step := cfg.workflows[job.workflow][job.stepIndex];
    if WillRetry(step, job, claim, f) then
      && job.branch.Some? && run.status == Failed && run.currentStep == job.stepName
      && LiveJobs(s.jobs, job.run, true) + 1 + run.parallelCompleted < run.parallelCount
    else if FirstCatch(step.catches, f).Some? then false
    else if step.onFailure.Continue? then LateSuccess(cfg, s, j, now)
    else FailsQuietly(s, job.run)
  }

  ghost predicate LateInternal(cfg: Config, s: State, j: nat, v: View)
    requires Shape(cfg, s) && j < |s.jobs|
  {
    var job := s.jobs[j];
    var steps := cfg.workflows[job.workflow];
    match steps[job.stepIndex].kind
    case Choice(rules, default) => Target(rules, default, v.holds).None? && FailsQuietly(s, job.run)
    case MapItems => v.input.NotJson? || v.input.items == 0
    case Wait(byTimestamp) =>
      (byTimestamp && v.input.NotJson?) || (job.stepIndex + 1 >= |steps| && CompletesQuietly(cfg, s, job.run))
    case _ => false
  }

  /** A delivery of a finished or buried job that does no harm. */
  ghost predicate LateQuiet(cfg: Config, s: State, j: nat, v: View)
    requires Shape(cfg, s) && j < |s.jobs|
  {
    var job := s.jobs[j];
    if Expired(s.runs[job.run], v.now) then FailsQuietly(s, job.run)
    else if job.branch.None? && !cfg.workflows[job.workflow][job.stepIndex].kind.Http? then LateInternal(cfg, s, j, v)
    else
      match v.reply
      case Success(_) => LateSuccess(cfg, s, j, v.later)
      case Failure(f) => LateFailure(cfg, s, j, v.claim, f, v.later)
  }

  // ---- A busy run ----------------------------------------------------------

  /** Run `r` waits for something, or is over. */
  predicate Busy(s: State, r: nat)
    requires r < |s.runs|
  {
    || s.runs[r].status != InProgress
    || LiveJobs(s.jobs, r, false) > 0
    || LiveJobs(s.jobs, r, true) > 0
    || OpenChildren(s.runs, r) > 0
  }

  lemma EnterBusy(cfg: Config, s: State, r: nat, i: nat)
    requires Shape(cfg, s) && r < |s.runs| && i < |StepsOf(cfg, s, r)| && Busy(s, r)
    ensures !Inv(cfg, Enter(cfg, s, r, i))
  {
    EnterCounts(cfg, s, r, i, r);
    assert !RunOk(Enter(cfg, s, r, i), r);
  }

  lemma AwaitBusy(cfg: Config, s: State, r: nat, i: nat)
    requires Shape(cfg, s) && r < |s.runs| && i < |StepsOf(cfg, s, r)| && Busy(s, r)
    ensures !Inv(cfg, Await(cfg, s, r, i))
  {
    AwaitCounts(cfg, s, r, i, r);
    assert !RunOk(Await(cfg, s, r, i), r);
  }

  lemma LaunchBusy(cfg: Config, s: State, w: string, r: nat, i: nat)
    requires Shape(cfg, s) && r < |s.runs| && i < |StepsOf(cfg, s, r)| && w in cfg.workflows && RunOk(s, r)
    ensures !Inv(cfg, Launch(cfg, s, w, None, Some(Parent(r, i))))
  {
    LaunchCounts(cfg, s, w, None, Some(Parent(r, i)), r);
    assert !RunOk(Launch(cfg, s, w, None, Some(Parent(r, i))), r);
  }

  lemma ForkBusy(cfg: Config, s: State, r: nat, i: nat, names: seq<string>)
    requires Shape(cfg, s) && r < |s.runs| && i < |StepsOf(cfg, s, r)| && |names| > 0 && RunOk(s, r)
    ensures !Inv(cfg, Fork(cfg, s, r, i, names))
  {
    ForkCounts(cfg, s, r, i, names, r);
    assert !RunOk(Fork(cfg, s, r, i, names), r);
  }

  // ---- Failing, completing and counting ------------------------------------

  lemma SameRun(s: State, r: nat, status: RunStatus)
    requires r < |s.runs| && s.runs[r].status == status
    ensures s.(runs := s.runs[r := s.runs[r].(status := status)]) == s
  {
    assert s.runs[r := s.runs[r].(status := status)] == s.runs;
  }

  lemma FailIff(cfg: Config, s: State, r: nat)
    requires Inv(cfg, s) && r < |s.runs|
    ensures Inv(cfg, SetRunStatus(cfg, s, r, Failed)) <==> FailsQuietly(s, r)
  {
    assert RunOk(s, r);
    if s.runs[r].status == Failed {
      SameRun(s, r, Failed);
    } else if s.runs[r].status == InProgress {
      OpenChildrenUpdate(s.runs, r, SetRunStatus(cfg, s, r, Failed).runs[r], r);
      assert !RunOk(SetRunStatus(cfg, s, r, Failed), r);
    } else if s.runs[r].parent.Some? {
      ReopenedChild(cfg, s, r);
    } else {
      RootFails(cfg, s, r);
    }
  }

  /** Failing a completed child gives its parent a second thing to wait for. */
  lemma ReopenedChild(cfg: Config, s: State, r: nat)
    requires Inv(cfg, s) && r < |s.runs| && s.runs[r].status == Completed && s.runs[r].parent.Some?
    ensures !Inv(cfg, SetRunStatus(cfg, s, r, Failed))
  {
    var p := s.runs[r].parent.value.run;
    var t := SetRunStatus(cfg, s, r, Failed);
    assert ParentShape(cfg, s.runs, r, s.runs[r].parent.value);
    assert RunOk(s, p);
    OpenChildrenUpdate(s.runs, r, t.runs[r], p);
    assert !RunOk(t, p);
  }

  lemma RootFails(cfg: Config, s: State, r: nat)
    requires Inv(cfg, s) && r < |s.runs| && s.runs[r].status == Completed && s.runs[r].parent.None?
    ensures Inv(cfg, SetRunStatus(cfg, s, r, Failed))
  {
    var t := SetRunStatus(cfg, s, r, Failed);
    forall q: nat | q < |t.runs|
      ensures RunOk(t, q)
    {
      assert RunOk(s, q);
      OpenChildrenUpdate(s.runs, r, t.runs[r], q);
    }
    SameRows(cfg, s, t);
  }

  /** A change of run rows that leaves steps and parents alone, and closes or fails roots only. */
  lemma SameRows(cfg: Config, s: State, t: State)
    requires Inv(cfg, s) && Shape(cfg, t) && t.jobs == s.jobs && |t.runs| == |s.runs|
    requires forall q :: 0 <= q < |s.runs| ==>
      && t.runs[q].currentStep == s.runs[q].currentStep
      && t.runs[q].workflow == s.runs[q].workflow
      && t.runs[q].parent == s.runs[q].parent
      && (t.runs[q].status != Completed && t.runs[q].parent.Some? ==> s.runs[q].status != Completed)
    ensures AllJobsOk(cfg, t) && AllChildrenOk(cfg, t)
  {
    forall k | 0 <= k < |t.jobs|
      ensures JobOk(cfg, t, k)
    {
      assert JobOk(cfg, s, k);
    }
    forall c | 0 <= c < |t.runs|
      ensures ChildOk(cfg, t, c)
    {
      assert ChildOk(cfg, s, c);
    }
  }

  /** Completing a run that still waits for something loses it for good. */
  lemma CompletedBusy(cfg: Config, s: State, r: nat)
    requires Shape(cfg, s) && r < |s.runs|
    requires LiveJobs(s.jobs, r, false) > 0 || LiveJobs(s.jobs, r, true) > 0 || OpenChildren(s.runs, r) > 0
    ensures !Inv(cfg, ResumeParent(cfg, SetRunStatus(cfg, s, r, Completed), r))
  {
    var done := SetRunStatus(cfg, s, r, Completed);
    var t := ResumeParent(cfg, done, r);
    ResumeLeavesRun(cfg, done, r);
    OpenChildrenUpdate(s.runs, r, done.runs[r], r);
    assert ChildWeight(s.runs[r], r) == 0 by {
      if s.runs[r].parent.Some? {
        assert ParentShape(cfg, s.runs, r, s.runs[r].parent.value);
      }
    }
    assert !RunOk(t, r);
  }

  /** Resuming the parents of `r` changes no run but older ones, and no job of `r`. */
  lemma ResumeLeavesRows(cfg: Config, s: State, r: nat)
    requires Shape(cfg, s) && r < |s.runs|
    ensures
      var t := ResumeParent(cfg, s, r);
      && |t.runs| == |s.runs|
      && (forall c :: r <= c < |s.runs| ==> t.runs[c] == s.runs[c])
      && LiveJobs(t.jobs, r, false) == LiveJobs(s.jobs, r, false)
      && LiveJobs(t.jobs, r, true) == LiveJobs(s.jobs, r, true)
  {
    var t := ResumeParent(cfg, s, r);
    var chain := Chain(cfg, s, r);
    ResumeCompletesChain(cfg, s, r);
    var above := s.runs[Top(r, chain)].parent;
    assert above.Some? ==> ParentShape(cfg, s.runs, Top(r, chain), above.value);
    assert Top(r, chain) <= r;
    if above.Some? {
      LiveJobsAppendOne(s.jobs, t.jobs[|s.jobs|], r, false);
      LiveJobsAppendOne(s.jobs, t.jobs[|s.jobs|], r, true);
    }
  }

  /** Nor does it change anything that `r` waits for: child runs are younger. */
  lemma ResumeLeavesRun(cfg: Config, s: State, r: nat)
    requires Shape(cfg, s) && r < |s.runs|
    ensures
      var t := ResumeParent(cfg, s, r);
      && r < |t.runs| && t.runs[r] == s.runs[r]
      && LiveJobs(t.jobs, r, false) == LiveJobs(s.jobs, r, false)
      && LiveJobs(t.jobs, r, true) == LiveJobs(s.jobs, r, true)
      && (OpenChildren(s.runs, r) > 0 ==> OpenChildren(t.runs, r) > 0)
  {
    ResumeLeavesRows(cfg, s, r);
    YoungerChildren(cfg, s, ResumeParent(cfg, s, r), r);
  }

  lemma YoungerChildren(cfg: Config, s: State, t: State, r: nat)
    requires Shape(cfg, s) && r < |s.runs| && |t.runs| == |s.runs|
    requires forall c :: r <= c < |s.runs| ==> t.runs[c] == s.runs[c]
    ensures OpenChildren(s.runs, r) > 0 ==> OpenChildren(t.runs, r) > 0
  {
    OpenChildrenPositive(s.runs, r);
    OpenChildrenPositive(t.runs, r);
    if c :| 0 <= c < |s.runs| && ChildWeight(s.runs[c], r) == 1 {
      assert ParentShape(cfg, s.runs, c, s.runs[c].parent.value);
      assert t.runs[c] == s.runs[c];
    }
  }

  /** A failed run without live branches, completed after all, leaves its parent between two tokens. */
  lemma FailedRunCompletes(cfg: Config, s: State, r: nat)
    requires Inv(cfg, s) && r < |s.runs| && s.runs[r].status == Failed && LiveJobs(s.jobs, r, true) == 0
    ensures
      var hole := match s.runs[r].parent case Some(p) => Some(p.run) case None => None;
      InvBut(cfg, SetRunStatus(cfg, s, r, Completed), hole)
  {
    var t := SetRunStatus(cfg, s, r, Completed);
    var parent := s.runs[r].parent;
    assert ChildOk(cfg, s, r);
    forall q: nat | q < |t.runs|
      ensures if parent.Some? && parent.value.run == q then NoToken(t, q) else RunOk(t, q)
    {
      assert RunOk(s, q);
      OpenChildrenUpdate(s.runs, r, t.runs[r], q);
      assert parent.Some? && parent.value.run == q ==> OpenChildren(s.runs, q) > 0 by {
        OpenChildrenPositive(s.runs, q);
        assert ChildWeight(s.runs[r], q) == 1 || parent.None? || parent.value.run != q;
      }
    }
    SameRows(cfg, s, t);
  }

  /** And the parent goes on. */
  lemma FailedRunResumes(cfg: Config, s: State, r: nat)
    requires Inv(cfg, s) && r < |s.runs| && s.runs[r].status == Failed && LiveJobs(s.jobs, r, true) == 0
    ensures Inv(cfg, ResumeParent(cfg, SetRunStatus(cfg, s, r, Completed), r))
  {
    var parent := s.runs[r].parent;
    FailedRunCompletes(cfg, s, r);
    if parent.Some? {
      assert ChildOk(cfg, s, r);
      AdvanceGives(cfg, SetRunStatus(cfg, s, r, Completed), parent.value.run, parent.value.stepIndex);
    }
  }

  lemma {:induction false} CompleteIff(cfg: Config, s: State, r: nat)
    requires Inv(cfg, s) && r < |s.runs|
    ensures Inv(cfg, ResumeParent(cfg, SetRunStatus(cfg, s, r, Completed), r)) <==> CompletesQuietly(cfg, s, r)
    decreases r, 0
  {
    assert RunOk(s, r);
    match s.runs[r].status {
      case InProgress => CompletedBusy(cfg, s, r);
      case Failed =>
        if LiveJobs(s.jobs, r, true) == 0 {
          FailedRunResumes(cfg, s, r);
        } else {
          CompletedBusy(cfg, s, r);
        }
      case Completed =>
        SameRun(s, r, Completed);
        if s.runs[r].parent.Some? {
          AdvanceIff(cfg, s, s.runs[r].parent.value.run, s.runs[r].parent.value.stepIndex);
        }
    }
  }

  lemma {:induction false} AdvanceIff(cfg: Config, s: State, r: nat, i: nat)
    requires Inv(cfg, s) && r < |s.runs| && i < |StepsOf(cfg, s, r)|
    ensures Inv(cfg, Advance(cfg, s, r, i)) <==> i + 1 >= |StepsOf(cfg, s, r)| && CompletesQuietly(cfg, s, r)
    decreases r, 1
  {
    if i + 1 < |StepsOf(cfg, s, r)| {
      assert RunOk(s, r);
      EnterBusy(cfg, s, r, i + 1);
    } else {
      CompleteIff(cfg, s, r);
    }
  }

  lemma LeaveIff(cfg: Config, s: State, r: nat, i: nat)
    requires Inv(cfg, s) && r < |s.runs| && i < |StepsOf(cfg, s, r)|
    ensures
      var steps := StepsOf(cfg, s, r);
      Inv(cfg, Leave(cfg, s, r, i)) <==> (steps[i].end || i + 1 >= |steps|) && CompletesQuietly(cfg, s, r)
  {
    CompleteIff(cfg, s, r);
    AdvanceIff(cfg, s, r, i);
  }

  /** A second completion of a branch before the last, seen from the run itself. */
  lemma CountedLateOk(s: State, t: State, r: nat)
    requires r < |s.runs| && r < |t.runs| && t.jobs == s.jobs && RunOk(s, r)
    requires t.runs[r] == s.runs[r].(parallelCompleted := s.runs[r].parallelCompleted + 1)
    requires OpenChildren(t.runs, r) == OpenChildren(s.runs, r)
    ensures RunOk(t, r) <==> CountsQuietly(s, r)
  {
  }

  lemma ParallelChildren(cfg: Config, s: State, r: nat, step: Option<string>, count: nat, completed: nat, q: nat)
    requires Shape(cfg, s) && r < |s.runs|
    ensures OpenChildren(SetParallel(cfg, s, r, step, count, completed).runs, q) == OpenChildren(s.runs, q)
  {
    OpenChildrenUpdate(s.runs, r, SetParallel(cfg, s, r, step, count, completed).runs[r], q);
  }

  lemma CountIff(cfg: Config, s: State, r: nat)
    requires Inv(cfg, s) && r < |s.runs|
    ensures
      var run := s.runs[r];
      Inv(cfg, SetParallel(cfg, s, r, run.parallelStep, run.parallelCount, run.parallelCompleted + 1)) <==> CountsQuietly(s, r)
  {
    var run := s.runs[r];
    var t := SetParallel(cfg, s, r, run.parallelStep, run.parallelCount, run.parallelCompleted + 1);
    forall q: nat | q < |s.runs|
      ensures q != r ==> RunOk(t, q)
      ensures q == r ==> (RunOk(t, q) <==> CountsQuietly(s, r))
    {
      assert RunOk(s, q);
      ParallelChildren(cfg, s, r, run.parallelStep, run.parallelCount, run.parallelCompleted + 1, q);
      if q == r {
        CountedLateOk(s, t, r);
      } else {
        SameRunOk(s, t, q);
      }
    }
    SameRows(cfg, s, t);
    if CountsQuietly(s, r) {
      assert AllRunsOk(t, None);
    } else {
      assert !RunOk(t, r);
    }
  }

  lemma ClearKeepsRun(cfg: Config, s: State, r: nat, q: nat)
    requires Shape(cfg, s) && AllRunsOk(s, None) && r < |s.runs| && q < |s.runs|
    requires s.runs[r].status != InProgress && LiveJobs(s.jobs, r, true) == 0
    ensures RunOk(SetParallel(cfg, s, r, None, 0, 0), q)
  {
    assert RunOk(s, q);
    OpenChildrenUpdate(s.runs, r, SetParallel(cfg, s, r, None, 0, 0).runs[r], q);
  }

  /** Closing a join that nobody waits for. */
  lemma ClearKeeps(cfg: Config, s: State, r: nat)
    requires Inv(cfg, s) && r < |s.runs| && s.runs[r].status != InProgress && LiveJobs(s.jobs, r, true) == 0
    ensures Inv(cfg, SetParallel(cfg, s, r, None, 0, 0))
  {
    var t := SetParallel(cfg, s, r, None, 0, 0);
    forall q: nat | q < |s.runs|
      ensures RunOk(t, q)
    {
      ClearKeepsRun(cfg, s, r, q);
    }
    SameRows(cfg, s, t);
  }

  /** The condition reads statuses, parents, and the jobs. */
  lemma {:induction false} QuietSame(cfg: Config, s: State, t: State, r: nat)
    requires Shape(cfg, s) && Shape(cfg, t) && |s.runs| == |t.runs| && r < |s.runs|
    requires forall q :: 0 <= q < |s.runs| ==>
      && t.runs[q].status == s.runs[q].status
      && t.runs[q].workflow == s.runs[q].workflow
      && t.runs[q].parent == s.runs[q].parent
    requires forall q: nat :: LiveJobs(t.jobs, q, true) == LiveJobs(s.jobs, q, true)
    ensures CompletesQuietly(cfg, t, r) <==> CompletesQuietly(cfg, s, r)
    decreases r
  {
    if s.runs[r].parent.Some? {
      assert ParentShape(cfg, s.runs, r, s.runs[r].parent.value);
      QuietSame(cfg, s, t, s.runs[r].parent.value.run);
    }
  }

  /** Leaving the step of a join that was closed late. */
  lemma ClosedLateIff(cfg: Config, s: State, r: nat, i: nat)
    requires Inv(cfg, s) && r < |s.runs| && i < |StepsOf(cfg, s, r)|
    ensures
      var steps := StepsOf(cfg, s, r);
      Inv(cfg, Leave(cfg, SetParallel(cfg, s, r, None, 0, 0), r, i))
      <==> (steps[i].end || i + 1 >= |steps|) && CompletesQuietly(cfg, s, r)
  {
    var t := SetParallel(cfg, s, r, None, 0, 0);
    assert RunOk(s, r);
    OpenChildrenUpdate(s.runs, r, t.runs[r], r);
    QuietSame(cfg, s, t, r);
    if s.runs[r].status != InProgress && LiveJobs(s.jobs, r, true) == 0 {
      ClearKeeps(cfg, s, r);
      LeaveIff(cfg, t, r, i);
    } else {
      LeavesBusy(cfg, t, r, i);
    }
  }

  lemma LeavesBusy(cfg: Config, s: State, r: nat, i: nat)
    requires Shape(cfg, s) && r < |s.runs| && i < |StepsOf(cfg, s, r)|
    requires LiveJobs(s.jobs, r, false) > 0 || LiveJobs(s.jobs, r, true) > 0 || OpenChildren(s.runs, r) > 0
    ensures !Inv(cfg, Leave(cfg, s, r, i))
  {
    CompletedBusy(cfg, s, r);
    if i + 1 < |StepsOf(cfg, s, r)| {
      EnterBusy(cfg, s, r, i + 1);
    }
  }

  // ---- The marks -----------------------------------------------------------

  /** Marking a job that is over done or dead once more, and saving an output. */
  lemma MarkLate(cfg: Config, s: State, j: nat, status: JobStatus, output: Option<string>)
    requires Inv(cfg, s) && j < |s.jobs| && !Live(s.jobs[j])
    requires status == Done || (status == Dead && s.jobs[j].token.None?)
    ensures
      var t := SaveOutput(cfg, SetStatus(cfg, s, j, status), j, output);
      && Inv(cfg, t)
      && t.runs == s.runs
      && forall q: nat, branch :: LiveJobs(t.jobs, q, branch) == LiveJobs(s.jobs, q, branch)
  {
    var t := SaveOutput(cfg, SetStatus(cfg, s, j, status), j, output);
    forall q: nat, branch
      ensures LiveJobs(t.jobs, q, branch) == LiveJobs(s.jobs, q, branch)
    {
      TakeTokenCounts(cfg, s, j, status, output, q, branch);
    }
    forall q: nat | q < |t.runs|
      ensures RunOk(t, q)
    {
      assert RunOk(s, q);
      SameRunOk(s, t, q);
    }
    assert JobOk(cfg, s, j);
    forall k | 0 <= k < |t.jobs|
      ensures JobOk(cfg, t, k)
    {
      assert JobOk(cfg, s, k);
    }
    forall c | 0 <= c < |t.runs|
      ensures ChildOk(cfg, t, c)
    {
      assert ChildOk(cfg, s, c);
    }
  }

  lemma RetryCounts(cfg: Config, s: State, j: nat, q: nat, branch: bool)
    requires Shape(cfg, s) && j < |s.jobs| && !Live(s.jobs[j])
    ensures LiveJobs(SetStatus(cfg, s, j, Retryable).jobs, q, branch)
         == LiveJobs(s.jobs, q, branch) + (if q == s.jobs[j].run && branch == s.jobs[j].branch.Some? then 1 else 0)
  {
    LiveJobsUpdate(s.jobs, j, SetStatus(cfg, s, j, Retryable).jobs[j], q, branch);
  }

  /** Putting a job that is over back. */
  lemma RetryLateIff(cfg: Config, s: State, j: nat)
    requires Inv(cfg, s) && j < |s.jobs| && !Live(s.jobs[j]) && s.jobs[j].token.None?
    ensures
      var job := s.jobs[j];
      var run := s.runs[job.run];
      Inv(cfg, SetStatus(cfg, s, j, Retryable)) <==>
        && job.branch.Some? && run.status == Failed && run.currentStep == job.stepName
        && LiveJobs(s.jobs, job.run, true) + 1 + run.parallelCompleted < run.parallelCount
  {
    var r := s.jobs[j].run;
    var t := SetStatus(cfg, s, j, Retryable);
    assert RunOk(s, r) && JobOk(cfg, s, j);
    RetryCounts(cfg, s, j, r, true);
    RetryCounts(cfg, s, j, r, false);
    if RunOk(t, r) && s.runs[r].currentStep == s.jobs[j].stepName {
      RetryLateKeeps(cfg, s, j);
    } else {
      assert RunOk(t, r) ==> !JobOk(cfg, t, j);
    }
  }

  lemma RetryLateKeeps(cfg: Config, s: State, j: nat)
    requires Inv(cfg, s) && j < |s.jobs| && !Live(s.jobs[j]) && s.jobs[j].token.None?
    requires RunOk(SetStatus(cfg, s, j, Retryable), s.jobs[j].run) && s.runs[s.jobs[j].run].currentStep == s.jobs[j].stepName
    ensures Inv(cfg, SetStatus(cfg, s, j, Retryable))
  {
    var t := SetStatus(cfg, s, j, Retryable);
    forall q: nat | q < |t.runs| && q != s.jobs[j].run
      ensures RunOk(t, q)
    {
      assert RunOk(s, q);
      RetryCounts(cfg, s, j, q, true);
      RetryCounts(cfg, s, j, q, false);
      SameRunOk(s, t, q);
    }
    forall k | 0 <= k < |t.jobs|
      ensures JobOk(cfg, t, k)
    {
      assert JobOk(cfg, s, k);
    }
    forall c | 0 <= c < |t.runs|
      ensures ChildOk(cfg, t, c)
    {
      assert ChildOk(cfg, s, c);
    }
  }

  // ---- The late delivery ---------------------------------------------------

  /** What a success does to the run, once the job's row is marked and its output saved. */
  ghost function Moved(cfg: Config, t: State, j: nat, now: nat): State
    requires Shape(cfg, t) && j < |t.jobs|
  {
    var job := t.jobs[j];
    var run := t.runs[job.run];
    if job.branch.Some? then
      if run.parallelCompleted + 1 < run.parallelCount then
        SetParallel(cfg, t, job.run, run.parallelStep, run.parallelCount, run.parallelCompleted + 1)
      else
        Leave(cfg, SetParallel(cfg, t, job.run, None, 0, 0), job.run, job.stepIndex)
    else if Expired(run, now) then SetRunStatus(cfg, t, job.run, Failed)
    else Leave(cfg, t, job.run, job.stepIndex)
  }

  lemma SuccessMoves(cfg: Config, s: State, j: nat, body: Option<string>, now: nat)
    requires Shape(cfg, s) && j < |s.jobs|
    ensures StepSuccess(cfg, s, j, body, now) == Moved(cfg, SaveOutput(cfg, s, j, body), j, now)
  {
  }

  lemma MovedIff(cfg: Config, t: State, j: nat, now: nat)
    requires Inv(cfg, t) && j < |t.jobs|
    ensures Inv(cfg, Moved(cfg, t, j, now)) <==> LateSuccess(cfg, t, j, now)
  {
    var job := t.jobs[j];
    if job.branch.Some? {
      if t.runs[job.run].parallelCompleted + 1 < t.runs[job.run].parallelCount {
        CountIff(cfg, t, job.run);
      } else {
        ClosedLateIff(cfg, t, job.run, job.stepIndex);
      }
    } else if Expired(t.runs[job.run], now) {
      FailIff(cfg, t, job.run);
    } else {
      LeaveIff(cfg, t, job.run, job.stepIndex);
    }
  }

  lemma LateSame(cfg: Config, s: State, t: State, j: nat, now: nat)
    requires Shape(cfg, s) && Shape(cfg, t) && j < |s.jobs| && j < |t.jobs| && SameJob(s.jobs[j], t.jobs[j]) && t.runs == s.runs
    requires forall q: nat :: LiveJobs(t.jobs, q, true) == LiveJobs(s.jobs, q, true)
    ensures LateSuccess(cfg, t, j, now) <==> LateSuccess(cfg, s, j, now)
  {
    QuietSame(cfg, s, t, s.jobs[j].run);
  }

  lemma LateSuccessIff(cfg: Config, s: State, j: nat, body: Option<string>, now: nat)
    requires Inv(cfg, s) && j < |s.jobs| && !Live(s.jobs[j])
    ensures Inv(cfg, StepSuccess(cfg, SetStatus(cfg, s, j, Done), j, body, now)) <==> LateSuccess(cfg, s, j, now)
  {
    var t := SaveOutput(cfg, SetStatus(cfg, s, j, Done), j, body);
    MarkLate(cfg, s, j, Done, body);
    LateSame(cfg, s, t, j, now);
    MovedIff(cfg, t, j, now);
    SuccessMoves(cfg, SetStatus(cfg, s, j, Done), j, body, now);
  }

  lemma CaughtLate(cfg: Config, s: State, j: nat, k: nat)
    requires Inv(cfg, s) && j < |s.jobs| && !Live(s.jobs[j]) && k < |StepsOf(cfg, s, s.jobs[j].run)|
    ensures !Inv(cfg, Enter(cfg, SetStatus(cfg, s, j, Done), s.jobs[j].run, k))
  {
    MarkLate(cfg, s, j, Done, None);
    assert RunOk(SetStatus(cfg, s, j, Done), s.jobs[j].run);
    EnterBusy(cfg, SetStatus(cfg, s, j, Done), s.jobs[j].run, k);
  }

  lemma DiesLateIff(cfg: Config, s: State, j: nat)
    requires Inv(cfg, s) && j < |s.jobs| && !Live(s.jobs[j]) && s.jobs[j].token.None?
    ensures Inv(cfg, SetRunStatus(cfg, SetStatus(cfg, s, j, Dead), s.jobs[j].run, Failed)) <==> FailsQuietly(s, s.jobs[j].run)
  {
    MarkLate(cfg, s, j, Dead, None);
    FailIff(cfg, SetStatus(cfg, s, j, Dead), s.jobs[j].run);
  }

  lemma LateFailureIff(cfg: Config, s: State, j: nat, v: View)
    requires Inv(cfg, s) && j < |s.jobs| && !Live(s.jobs[j]) && v.reply.Failure?
    requires !Expired(s.runs[s.jobs[j].run], v.now) && SparesToken(cfg, s, j, v)
    requires s.jobs[j].branch.None? ==> cfg.workflows[s.jobs[j].workflow][s.jobs[j].stepIndex].kind.Http?
    ensures Inv(cfg, StepFailure(cfg, s, j, v.claim, v.reply.error, v.later))
       <==> LateFailure(cfg, s, j, v.claim, v.reply.error, v.later)
  {
    var job := s.jobs[j];
    var steps := cfg.workflows[job.workflow];
    var step := steps[job.stepIndex];
    var f := v.reply.error;
    assert ValidStep(cfg.workflows, job.workflow, steps, step);
    if WillRetry(step, job, v.claim, f) {
      RetryLateIff(cfg, s, j);
    } else if FirstCatch(step.catches, f).Some? {
      CaughtLate(cfg, s, j, FindStep(steps, FirstCatch(step.catches, f).value).value);
    } else if step.onFailure.Continue? {
      LateSuccessIff(cfg, s, j, Some(ERROR_PAYLOAD), v.later);
    } else {
      DiesLateIff(cfg, s, j);
    }
  }

  lemma LateInternalIff(cfg: Config, s: State, j: nat, v: View)
    requires Inv(cfg, s) && j < |s.jobs| && s.jobs[j].status == Done
    requires s.jobs[j].branch.None? && !cfg.workflows[s.jobs[j].workflow][s.jobs[j].stepIndex].kind.Http?
    ensures Inv(cfg, Internal(cfg, s, j, v)) <==> LateInternal(cfg, s, j, v)
  {
    var job := s.jobs[j];
    var r, i := job.run, job.stepIndex;
    var steps := cfg.workflows[job.workflow];
    assert ValidStep(cfg.workflows, job.workflow, steps, steps[i]);
    assert RunOk(s, r);
    match steps[i].kind {
      case Choice(rules, default) =>
        if Target(rules, default, v.holds).None? {
          FailIff(cfg, s, r);
        } else {
          EnterBusy(cfg, s, r, FindStep(steps, Target(rules, default, v.holds).value).value);
        }
      case Parallel(branches) => ForkBusy(cfg, s, r, i, branches);
      case MapItems =>
        if v.input.Json? {
          if v.input.items == 0 {
            MarkLate(cfg, s, j, Done, Some("[]"));
            SameDone(cfg, s, j);
          } else {
            ForkBusy(cfg, s, r, i, ItemNames(v.input.items));
          }
        }
      case Wait(byTimestamp) => AdvanceIff(cfg, s, r, i);
      case Callback => AwaitBusy(cfg, s, r, i);
      case SubWorkflow(target) => LaunchBusy(cfg, s, target, r, i);
    }
  }

  lemma SameDone(cfg: Config, s: State, j: nat)
    requires Shape(cfg, s) && j < |s.jobs| && s.jobs[j].status == Done
    ensures SetStatus(cfg, s, j, Done) == s
  {
    assert s.jobs[j := s.jobs[j]] == s.jobs;
  }

  /** A delivery of a job that is over keeps the invariant exactly when it is quiet. */
  lemma DeliverLateIff(cfg: Config, s: State, j: nat, v: View)
    requires Inv(cfg, s) && j < |s.jobs| && !Live(s.jobs[j]) && SparesToken(cfg, s, j, v)
    ensures Inv(cfg, DeliverJob(cfg, s, j, v)) <==> LateQuiet(cfg, s, j, v)
  {
    var job := s.jobs[j];
    if Expired(s.runs[job.run], v.now) {
      MarkLate(cfg, s, j, Dead, None);
      FailIff(cfg, SetStatus(cfg, s, j, Dead), job.run);
    } else if job.branch.None? && !cfg.workflows[job.workflow][job.stepIndex].kind.Http? {
      var t := SetStatus(cfg, s, j, Done);
      MarkLate(cfg, s, j, Done, None);
      QuietSame(cfg, s, t, job.run);
      LateInternalIff(cfg, t, j, v);
    } else {
      match v.reply {
        case Success(body) => LateSuccessIff(cfg, s, j, body, v.later);
        case Failure(f) => LateFailureIff(cfg, s, j, v);
      }
    }
  }
}
