/**
 * The one-token invariant: a run in progress waits for exactly one thing, which is a live job of
 * its current step, an open join, or a child run. It counts the live rows of each run. A run whose
 * step has just finished is between two tokens, and leaving the step gives it the next one.
 */
module WorkflowToken {
  import opened Wrappers
  import opened WorkflowConfig
  import opened WorkflowModel

  // ---- Counting ------------------------------------------------------------

  function Weight(j: Job, r: nat, branch: bool): nat {
    if Live(j) && j.run == r && j.branch.Some? == branch then 1 else 0
  }

  /** How many live branch jobs, or live non-branch jobs, run `r` has. */
  function LiveJobs(jobs: seq<Job>, r: nat, branch: bool): nat {
    if |jobs| == 0 then 0
    else LiveJobs(jobs[..|jobs| - 1], r, branch) + Weight(jobs[|jobs| - 1], r, branch)
  }

  function ChildWeight(run: Run, r: nat): nat {
    if run.status != Completed && run.parent.Some? && run.parent.value.run == r then 1 else 0
  }

  /** How many child runs of `r` are not completed. */
  function OpenChildren(runs: seq<Run>, r: nat): nat {
    if |runs| == 0 then 0
    else OpenChildren(runs[..|runs| - 1], r) + ChildWeight(runs[|runs| - 1], r)
  }

  lemma {:induction false} LiveJobsUpdate(jobs: seq<Job>, i: nat, j: Job, r: nat, branch: bool)
    requires i < |jobs|
    ensures LiveJobs(jobs[i := j], r, branch) == LiveJobs(jobs, r, branch) - Weight(jobs[i], r, branch) + Weight(j, r, branch)
  {
    var n := |jobs| - 1;
    if i == n {
      assert jobs[i := j][..n] == jobs[..n];
    } else {
      assert jobs[i := j][..n] == jobs[..n][i := j];
      LiveJobsUpdate(jobs[..n], i, j, r, branch);
    }
  }

  lemma {:induction false} LiveJobsAppend(xs: seq<Job>, ys: seq<Job>, r: nat, branch: bool)
    ensures LiveJobs(xs + ys, r, branch) == LiveJobs(xs, r, branch) + LiveJobs(ys, r, branch)
  {
    if |ys| == 0 {
      assert xs + ys == xs;
    } else {
      var n := |ys| - 1;
      assert (xs + ys)[..|xs| + n] == xs + ys[..n];
      LiveJobsAppend(xs, ys[..n], r, branch);
    }
  }

  lemma LiveJobsAppendOne(xs: seq<Job>, j: Job, r: nat, branch: bool)
    ensures LiveJobs(xs + [j], r, branch) == LiveJobs(xs, r, branch) + Weight(j, r, branch)
  {
    assert (xs + [j])[..|xs|] == xs;
  }

  /** The count is positive exactly when there is such a job. */
  lemma {:induction false} LiveJobsPositive(jobs: seq<Job>, r: nat, branch: bool)
    ensures LiveJobs(jobs, r, branch) > 0 <==> exists j :: 0 <= j < |jobs| && Weight(jobs[j], r, branch) == 1
  {
    if |jobs| > 0 {
      var n := |jobs| - 1;
      LiveJobsPositive(jobs[..n], r, branch);
      forall j | 0 <= j < n
        ensures jobs[..n][j] == jobs[j]
      {
      }
      if Weight(jobs[n], r, branch) == 1 {
      } else if j :| 0 <= j < |jobs| && Weight(jobs[j], r, branch) == 1 {
        assert jobs[..n][j] == jobs[j];
      }
    }
  }

  lemma {:induction false} LiveJobsOfBranches(cfg: Config, w: string, r: nat, i: nat, names: seq<string>, q: nat, branch: bool)
    requires w in cfg.workflows && i < |cfg.workflows[w]|
    ensures LiveJobs(BranchJobs(cfg, w, r, i, names), q, branch) == if q == r && branch then |names| else 0
  {
    var jobs := BranchJobs(cfg, w, r, i, names);
    if |names| > 0 {
      var n := |names| - 1;
      assert jobs[..n] == BranchJobs(cfg, w, r, i, names[..n]);
      LiveJobsOfBranches(cfg, w, r, i, names[..n], q, branch);
    }
  }

  lemma {:induction false} OpenChildrenUpdate(runs: seq<Run>, i: nat, run: Run, r: nat)
    requires i < |runs|
    ensures OpenChildren(runs[i := run], r) == OpenChildren(runs, r) - ChildWeight(runs[i], r) + ChildWeight(run, r)
  {
    var n := |runs| - 1;
    if i == n {
      assert runs[i := run][..n] == runs[..n];
    } else {
      assert runs[i := run][..n] == runs[..n][i := run];
      OpenChildrenUpdate(runs[..n], i, run, r);
    }
  }

  lemma OpenChildrenAppendOne(runs: seq<Run>, run: Run, r: nat)
    ensures OpenChildren(runs + [run], r) == OpenChildren(runs, r) + ChildWeight(run, r)
  {
    assert (runs + [run])[..|runs|] == runs;
  }

  lemma {:induction false} OpenChildrenPositive(runs: seq<Run>, r: nat)
    ensures OpenChildren(runs, r) > 0 <==> exists c :: 0 <= c < |runs| && ChildWeight(runs[c], r) == 1
  {
    if |runs| > 0 {
      var n := |runs| - 1;
      OpenChildrenPositive(runs[..n], r);
      forall c | 0 <= c < n
        ensures runs[..n][c] == runs[c]
      {
      }
      if ChildWeight(runs[n], r) == 1 {
      } else if c :| 0 <= c < |runs| && ChildWeight(runs[c], r) == 1 {
        assert runs[..n][c] == runs[c];
      }
    }
  }

  // ---- The invariant -------------------------------------------------------

  /** The token is one live job of the current step. */
  predicate AtJob(s: State, r: nat)
    requires r < |s.runs|
  {
    && LiveJobs(s.jobs, r, false) == 1
    && LiveJobs(s.jobs, r, true) == 0
    && OpenChildren(s.runs, r) == 0
    && s.runs[r].parallelStep.None?
  }

  /** The token is an open join: as many live branch jobs as completions are missing. */
  predicate AtJoin(s: State, r: nat)
    requires r < |s.runs|
  {
    && LiveJobs(s.jobs, r, false) == 0
    && LiveJobs(s.jobs, r, true) > 0
    && LiveJobs(s.jobs, r, true) + s.runs[r].parallelCompleted == s.runs[r].parallelCount
    && OpenChildren(s.runs, r) == 0
    && s.runs[r].parallelStep == Some(s.runs[r].currentStep)
  }

  /** The token is one child run that is not completed. */
  predicate AtChild(s: State, r: nat)
    requires r < |s.runs|
  {
    && LiveJobs(s.jobs, r, false) == 0
    && LiveJobs(s.jobs, r, true) == 0
    && OpenChildren(s.runs, r) == 1
    && s.runs[r].parallelStep.None?
  }

  predicate RunOk(s: State, r: nat)
    requires r < |s.runs|
  {
    match s.runs[r].status
    case InProgress => AtJob(s, r) || AtJoin(s, r) || AtChild(s, r)
    case Completed =>
      && LiveJobs(s.jobs, r, false) == 0
      && LiveJobs(s.jobs, r, true) == 0
      && OpenChildren(s.runs, r) == 0
    case Failed =>
      && LiveJobs(s.jobs, r, false) == 0
      && OpenChildren(s.runs, r) == 0
      // a join of a failed run misses more completions than it has live branches
      && (LiveJobs(s.jobs, r, true) > 0 ==> LiveJobs(s.jobs, r, true) + s.runs[r].parallelCompleted < s.runs[r].parallelCount)
  }

  /** Run `r` is in progress and waits for nothing: no event will ever move it. */
  predicate NoToken(s: State, r: nat)
    requires r < |s.runs|
  {
    && s.runs[r].status == InProgress
    && LiveJobs(s.jobs, r, false) == 0
    && LiveJobs(s.jobs, r, true) == 0
    && OpenChildren(s.runs, r) == 0
    && s.runs[r].parallelStep.None?
  }

  predicate ForkKind(kind: Kind) {
    kind.Parallel? || kind.MapItems?
  }

  predicate JobOk(cfg: Config, s: State, j: nat)
    requires j < |s.jobs| && JobShape(cfg, s.runs, s.jobs[j])
  {
    var job := s.jobs[j];
    && (Live(job) ==> s.runs[job.run].currentStep == job.stepName)
    && (job.token.Some? ==> job.token == Some(j))
    && (job.token.Some? ==> job.status == Waiting || job.status == Done)
    && (job.status == Waiting ==> job.token.Some? && job.branch.None?)
    && (job.branch.Some? ==> ForkKind(cfg.workflows[job.workflow][job.stepIndex].kind))
  }

  predicate ChildOk(cfg: Config, s: State, c: nat)
    requires c < |s.runs|
    requires s.runs[c].parent.Some? ==> ParentShape(cfg, s.runs, c, s.runs[c].parent.value)
  {
    var run := s.runs[c];
    run.parent.Some? && run.status != Completed ==>
      s.runs[run.parent.value.run].currentStep == StepsOf(cfg, s, run.parent.value.run)[run.parent.value.stepIndex].name
  }

  ghost predicate AllJobsOk(cfg: Config, s: State)
    requires Shape(cfg, s)
  {
    forall j :: 0 <= j < |s.jobs| ==> JobOk(cfg, s, j)
  }

  ghost predicate AllChildrenOk(cfg: Config, s: State)
    requires Shape(cfg, s)
  {
    forall c :: 0 <= c < |s.runs| ==> ChildOk(cfg, s, c)
  }

  ghost predicate AllRunsOk(s: State, hole: Option<nat>) {
    forall r: nat :: r < |s.runs| ==> if hole == Some(r) then NoToken(s, r) else RunOk(s, r)
  }

  /** The invariant, with run `hole` (if any) between two tokens. */
  ghost predicate InvBut(cfg: Config, s: State, hole: Option<nat>) {
    Shape(cfg, s) && AllJobsOk(cfg, s) && AllChildrenOk(cfg, s) && AllRunsOk(s, hole)
  }

  ghost predicate Inv(cfg: Config, s: State) {
    InvBut(cfg, s, None)
  }

  /** The verdict on a run depends on its row and its three counts. */
  lemma SameRunOk(s: State, t: State, q: nat)
    requires q < |s.runs| && q < |t.runs| && t.runs[q] == s.runs[q] && RunOk(s, q)
    requires LiveJobs(t.jobs, q, false) == LiveJobs(s.jobs, q, false)
    requires LiveJobs(t.jobs, q, true) == LiveJobs(s.jobs, q, true)
    requires OpenChildren(t.runs, q) == OpenChildren(s.runs, q)
    ensures RunOk(t, q)
  {
  }

  /** A run without live jobs and open children is named by no live job and no open child. */
  lemma Unreferenced(s: State, r: nat)
    requires LiveJobs(s.jobs, r, false) == 0 && LiveJobs(s.jobs, r, true) == 0 && OpenChildren(s.runs, r) == 0
    ensures forall j :: 0 <= j < |s.jobs| && Live(s.jobs[j]) ==> s.jobs[j].run != r
    ensures forall c :: 0 <= c < |s.runs| && s.runs[c].status != Completed && s.runs[c].parent.Some? ==> s.runs[c].parent.value.run != r
  {
    LiveJobsPositive(s.jobs, r, false);
    LiveJobsPositive(s.jobs, r, true);
    OpenChildrenPositive(s.runs, r);
    forall j | 0 <= j < |s.jobs| && Live(s.jobs[j])
      ensures s.jobs[j].run != r
    {
      assert Weight(s.jobs[j], r, s.jobs[j].branch.Some?) == 0;
    }
    forall c | 0 <= c < |s.runs| && s.runs[c].status != Completed && s.runs[c].parent.Some?
      ensures s.runs[c].parent.value.run != r
    {
      assert ChildWeight(s.runs[c], r) == 0;
    }
  }

  // ---- Taking the token ----------------------------------------------------

  /** A live non-branch job is the token of a run in progress. */
  lemma JobIsToken(cfg: Config, s: State, j: nat)
    requires Inv(cfg, s) && j < |s.jobs| && Live(s.jobs[j]) && s.jobs[j].branch.None?
    ensures s.jobs[j].run < |s.runs| && s.runs[s.jobs[j].run].status == InProgress && AtJob(s, s.jobs[j].run)
  {
    var r := s.jobs[j].run;
    assert Weight(s.jobs[j], r, false) == 1;
    LiveJobsPositive(s.jobs, r, false);
    assert RunOk(s, r);
  }

  lemma TakeTokenCounts(cfg: Config, s: State, j: nat, status: JobStatus, output: Option<string>, q: nat, branch: bool)
    requires Shape(cfg, s) && j < |s.jobs| && (status == Done || status == Dead)
    ensures LiveJobs(SaveOutput(cfg, SetStatus(cfg, s, j, status), j, output).jobs, q, branch)
         == LiveJobs(s.jobs, q, branch) - Weight(s.jobs[j], q, branch)
  {
    var t := SaveOutput(cfg, SetStatus(cfg, s, j, status), j, output);
    assert t.jobs == s.jobs[j := t.jobs[j]];
    LiveJobsUpdate(s.jobs, j, t.jobs[j], q, branch);
  }

  lemma TakeTokenRuns(cfg: Config, s: State, j: nat, status: JobStatus, output: Option<string>)
    requires Shape(cfg, s) && j < |s.jobs| && AtJob(s, s.jobs[j].run) && s.runs[s.jobs[j].run].status == InProgress
    requires Live(s.jobs[j]) && s.jobs[j].branch.None?
    requires AllRunsOk(s, None) && (status == Done || status == Dead)
    ensures AllRunsOk(SaveOutput(cfg, SetStatus(cfg, s, j, status), j, output), Some(s.jobs[j].run))
  {
    var t := SaveOutput(cfg, SetStatus(cfg, s, j, status), j, output);
    forall q: nat | q < |t.runs|
      ensures if s.jobs[j].run == q then NoToken(t, q) else RunOk(t, q)
    {
      assert RunOk(s, q);
      TakeTokenCounts(cfg, s, j, status, output, q, false);
      TakeTokenCounts(cfg, s, j, status, output, q, true);
    }
  }

  /** Finishing that job leaves its run between two tokens. */
  lemma TakeToken(cfg: Config, s: State, j: nat, status: JobStatus, output: Option<string>)
    requires Inv(cfg, s) && j < |s.jobs| && Live(s.jobs[j]) && s.jobs[j].branch.None?
    requires status == Done || (status == Dead && s.jobs[j].status != Waiting)
    ensures
      var r := s.jobs[j].run;
      var t := SaveOutput(cfg, SetStatus(cfg, s, j, status), j, output);
      && InvBut(cfg, t, Some(r))
      && t.runs == s.runs
      && t.runs[r].currentStep == s.jobs[j].stepName
  {
    JobIsToken(cfg, s, j);
    TakeTokenRuns(cfg, s, j, status, output);
    assert JobOk(cfg, s, j);
    var t := SaveOutput(cfg, SetStatus(cfg, s, j, status), j, output);
    forall k | 0 <= k < |t.jobs|
      ensures JobOk(cfg, t, k)
    {
      assert JobOk(cfg, s, k);
    }
    forall c | 0 <= c < |t.runs|
      ensures ChildOk(cfg, t, c)
    {
      assert ChildOk(cfg, s, c);
    }
  }

  // ---- Giving it back ------------------------------------------------------

  /**
   * Giving run `r` a new token touches no other row that the invariant looks at: new jobs stand at
   * the current step of their run, and no live job or open child pointed at `r`.
   */
  lemma FrameRows(cfg: Config, s: State, t: State, r: nat)
    requires Shape(cfg, s) && Shape(cfg, t) && Extends(s, t) && AllJobsOk(cfg, s) && AllChildrenOk(cfg, s)
    requires r < |s.runs| && NoToken(s, r)
    requires forall q :: 0 <= q < |s.runs| && q != r ==> t.runs[q].currentStep == s.runs[q].currentStep
    requires forall q :: 0 <= q < |s.runs| ==> t.runs[q].status == s.runs[q].status
    requires t.jobs[..|s.jobs|] == s.jobs
    requires forall k :: |s.jobs| <= k < |t.jobs| ==> JobOk(cfg, t, k)
    requires forall c :: |s.runs| <= c < |t.runs| ==> ChildOk(cfg, t, c)
    ensures AllJobsOk(cfg, t) && AllChildrenOk(cfg, t)
  {
    Unreferenced(s, r);
    forall k | 0 <= k < |t.jobs|
      ensures JobOk(cfg, t, k)
    {
      if k < |s.jobs| {
        assert JobOk(cfg, s, k) && t.jobs[k] == t.jobs[..|s.jobs|][k];
      }
    }
    forall c | 0 <= c < |t.runs|
      ensures ChildOk(cfg, t, c)
    {
      if c < |s.runs| {
        assert ChildOk(cfg, s, c);
      }
    }
  }

  lemma EnterCounts(cfg: Config, s: State, r: nat, i: nat, q: nat)
    requires Shape(cfg, s) && r < |s.runs| && i < |StepsOf(cfg, s, r)|
    ensures
      var t := Enter(cfg, s, r, i);
      && LiveJobs(t.jobs, q, false) == LiveJobs(s.jobs, q, false) + (if q == r then 1 else 0)
      && LiveJobs(t.jobs, q, true) == LiveJobs(s.jobs, q, true)
      && OpenChildren(t.runs, q) == OpenChildren(s.runs, q)
  {
    var t := Enter(cfg, s, r, i);
    LiveJobsAppendOne(s.jobs, t.jobs[|s.jobs|], q, false);
    LiveJobsAppendOne(s.jobs, t.jobs[|s.jobs|], q, true);
    OpenChildrenUpdate(s.runs, r, t.runs[r], q);
  }

  lemma GiveJob(cfg: Config, s: State, r: nat, i: nat)
    requires r < |s.runs| && InvBut(cfg, s, Some(r)) && i < |StepsOf(cfg, s, r)|
    ensures Inv(cfg, Enter(cfg, s, r, i))
  {
    var t := Enter(cfg, s, r, i);
    forall q: nat | q < |t.runs|
      ensures RunOk(t, q)
    {
      assert if r == q then NoToken(s, q) else RunOk(s, q);
      EnterCounts(cfg, s, r, i, q);
    }
    FrameRows(cfg, s, t, r);
  }

  lemma ForkCounts(cfg: Config, s: State, r: nat, i: nat, names: seq<string>, q: nat)
    requires Shape(cfg, s) && r < |s.runs| && i < |StepsOf(cfg, s, r)|
    ensures
      var t := Fork(cfg, s, r, i, names);
      && LiveJobs(t.jobs, q, false) == LiveJobs(s.jobs, q, false)
      && LiveJobs(t.jobs, q, true) == LiveJobs(s.jobs, q, true) + (if q == r then |names| else 0)
      && OpenChildren(t.runs, q) == OpenChildren(s.runs, q)
  {
    var t := Fork(cfg, s, r, i, names);
    var w := s.runs[r].workflow;
    LiveJobsAppend(s.jobs, BranchJobs(cfg, w, r, i, names), q, false);
    LiveJobsAppend(s.jobs, BranchJobs(cfg, w, r, i, names), q, true);
    LiveJobsOfBranches(cfg, w, r, i, names, q, false);
    LiveJobsOfBranches(cfg, w, r, i, names, q, true);
    OpenChildrenUpdate(s.runs, r, t.runs[r], q);
  }

  lemma GiveJoin(cfg: Config, s: State, r: nat, i: nat, names: seq<string>)
    requires r < |s.runs| && InvBut(cfg, s, Some(r)) && i < |StepsOf(cfg, s, r)|
    requires s.runs[r].currentStep == StepsOf(cfg, s, r)[i].name && ForkKind(StepsOf(cfg, s, r)[i].kind)
    requires 0 < |names| <= I32_MAX
    ensures Inv(cfg, Fork(cfg, s, r, i, names))
  {
    var t := Fork(cfg, s, r, i, names);
    assert AllRunsOk(t, None) by {
      forall q: nat | q < |t.runs|
        ensures RunOk(t, q)
      {
        JoinRun(cfg, s, r, i, names, q);
      }
    }
    assert NoToken(s, r);
    FrameRows(cfg, s, t, r);
  }

  lemma JoinRun(cfg: Config, s: State, r: nat, i: nat, names: seq<string>, q: nat)
    requires r < |s.runs| && Shape(cfg, s) && AllRunsOk(s, Some(r)) && i < |StepsOf(cfg, s, r)| && q < |s.runs|
    requires s.runs[r].currentStep == StepsOf(cfg, s, r)[i].name && 0 < |names| <= I32_MAX
    ensures RunOk(Fork(cfg, s, r, i, names), q)
  {
    ForkCounts(cfg, s, r, i, names, q);
    if q == r {
      assert NoToken(s, r);
    } else {
      assert RunOk(s, q);
      SameRunOk(s, Fork(cfg, s, r, i, names), q);
    }
  }

  lemma AwaitCounts(cfg: Config, s: State, r: nat, i: nat, q: nat)
    requires Shape(cfg, s) && r < |s.runs| && i < |StepsOf(cfg, s, r)|
    ensures
      var t := Await(cfg, s, r, i);
      && LiveJobs(t.jobs, q, false) == LiveJobs(s.jobs, q, false) + (if q == r then 1 else 0)
      && LiveJobs(t.jobs, q, true) == LiveJobs(s.jobs, q, true)
  {
    var t := Await(cfg, s, r, i);
    LiveJobsAppendOne(s.jobs, t.jobs[|s.jobs|], q, false);
    LiveJobsAppendOne(s.jobs, t.jobs[|s.jobs|], q, true);
  }

  lemma GiveWaiting(cfg: Config, s: State, r: nat, i: nat)
    requires r < |s.runs| && InvBut(cfg, s, Some(r)) && i < |StepsOf(cfg, s, r)|
    requires s.runs[r].currentStep == StepsOf(cfg, s, r)[i].name
    ensures Inv(cfg, Await(cfg, s, r, i))
  {
    var t := Await(cfg, s, r, i);
    forall q: nat | q < |t.runs|
      ensures RunOk(t, q)
    {
      assert if r == q then NoToken(s, q) else RunOk(s, q);
      AwaitCounts(cfg, s, r, i, q);
    }
    FrameRows(cfg, s, t, r);
  }

  lemma LaunchCounts(cfg: Config, s: State, w: string, deadline: Option<nat>, parent: Option<Parent>, q: nat)
    requires Shape(cfg, s) && w in cfg.workflows
    requires parent.Some? ==> parent.value.run < |s.runs| && parent.value.stepIndex < |StepsOf(cfg, s, parent.value.run)|
    ensures
      var t := Launch(cfg, s, w, deadline, parent);
      && LiveJobs(t.jobs, q, false) == LiveJobs(s.jobs, q, false) + (if q == |s.runs| then 1 else 0)
      && LiveJobs(t.jobs, q, true) == LiveJobs(s.jobs, q, true)
      && OpenChildren(t.runs, q) == OpenChildren(s.runs, q) + (if parent.Some? && parent.value.run == q then 1 else 0)
      && (q == |s.runs| ==>
            LiveJobs(s.jobs, q, false) == 0 && LiveJobs(s.jobs, q, true) == 0 && OpenChildren(s.runs, q) == 0)
  {
    var t := Launch(cfg, s, w, deadline, parent);
    LiveJobsAppendOne(s.jobs, t.jobs[|s.jobs|], q, false);
    LiveJobsAppendOne(s.jobs, t.jobs[|s.jobs|], q, true);
    OpenChildrenAppendOne(s.runs, t.runs[|s.runs|], q);
    FreshRun(cfg, s);
  }

  ghost function ParentRun(parent: Option<Parent>): Option<nat> {
    if parent.Some? then Some(parent.value.run) else None
  }

  /** Launching a run: a root run, or the child that becomes the token of its parent. */
  lemma GiveChild(cfg: Config, s: State, w: string, deadline: Option<nat>, parent: Option<Parent>)
    requires w in cfg.workflows && InvBut(cfg, s, ParentRun(parent))
    requires parent.Some? ==>
      var Parent(p, i) := parent.value;
      && p < |s.runs|
      && i < |StepsOf(cfg, s, p)|
      && s.runs[p].currentStep == StepsOf(cfg, s, p)[i].name
    ensures Inv(cfg, Launch(cfg, s, w, deadline, parent))
  {
    var t := Launch(cfg, s, w, deadline, parent);
    forall q: nat | q < |t.runs|
      ensures RunOk(t, q)
    {
      assert q < |s.runs| ==> if ParentRun(parent) == Some(q) then NoToken(s, q) else RunOk(s, q);
      LaunchCounts(cfg, s, w, deadline, parent, q);
    }
    forall k | 0 <= k < |t.jobs|
      ensures JobOk(cfg, t, k)
    {
      assert k < |s.jobs| ==> JobOk(cfg, s, k);
    }
    forall c | 0 <= c < |t.runs|
      ensures ChildOk(cfg, t, c)
    {
      assert c < |s.runs| ==> ChildOk(cfg, s, c);
    }
  }

  lemma FreshRun(cfg: Config, s: State)
    requires Shape(cfg, s)
    ensures LiveJobs(s.jobs, |s.runs|, false) == 0 && LiveJobs(s.jobs, |s.runs|, true) == 0
    ensures OpenChildren(s.runs, |s.runs|) == 0
  {
    LiveJobsPositive(s.jobs, |s.runs|, false);
    LiveJobsPositive(s.jobs, |s.runs|, true);
    OpenChildrenPositive(s.runs, |s.runs|);
  }

  /** A run between two tokens may fail instead. */
  lemma GiveFailure(cfg: Config, s: State, r: nat)
    requires r < |s.runs| && InvBut(cfg, s, Some(r))
    ensures Inv(cfg, SetRunStatus(cfg, s, r, Failed))
  {
    var t := SetRunStatus(cfg, s, r, Failed);
    assert NoToken(s, r);
    forall q: nat | q < |t.runs|
      ensures RunOk(t, q)
    {
      assert if r == q then NoToken(s, q) else RunOk(s, q);
      OpenChildrenUpdate(s.runs, r, t.runs[r], q);
    }
    forall k | 0 <= k < |t.jobs|
      ensures JobOk(cfg, t, k)
    {
      assert JobOk(cfg, s, k);
    }
    forall c | 0 <= c < |t.runs|
      ensures ChildOk(cfg, t, c)
    {
      assert ChildOk(cfg, s, c);
    }
  }

  /** Completing a run passes the hole on to its parent. */
  lemma CompleteMovesHole(cfg: Config, s: State, r: nat)
    requires r < |s.runs| && InvBut(cfg, s, Some(r))
    ensures
      var t := SetRunStatus(cfg, s, r, Completed);
      match s.runs[r].parent
      case None => Inv(cfg, t)
      case Some(p) => InvBut(cfg, t, Some(p.run)) && t.runs[p.run].currentStep == StepsOf(cfg, t, p.run)[p.stepIndex].name
  {
    var t := SetRunStatus(cfg, s, r, Completed);
    assert NoToken(s, r) && ChildOk(cfg, s, r);
    forall q: nat | q < |t.runs|
      ensures if s.runs[r].parent.Some? && s.runs[r].parent.value.run == q then NoToken(t, q) else RunOk(t, q)
    {
      assert if r == q then NoToken(s, q) else RunOk(s, q);
      OpenChildrenUpdate(s.runs, r, t.runs[r], q);
    }
    forall k | 0 <= k < |t.jobs|
      ensures JobOk(cfg, t, k)
    {
      assert JobOk(cfg, s, k);
    }
    forall c | 0 <= c < |t.runs|
      ensures ChildOk(cfg, t, c)
    {
      assert ChildOk(cfg, s, c);
    }
  }

  /** Leaving a step always ends with a token in some run, or with completed runs only. */
  lemma {:induction false} AdvanceGives(cfg: Config, s: State, r: nat, i: nat)
    requires r < |s.runs| && InvBut(cfg, s, Some(r)) && i < |StepsOf(cfg, s, r)|
    ensures Inv(cfg, Advance(cfg, s, r, i))
    decreases r, 1
  {
    if i + 1 < |StepsOf(cfg, s, r)| {
      GiveJob(cfg, s, r, i + 1);
    } else {
      FinishGives(cfg, s, r);
    }
  }

  lemma {:induction false} FinishGives(cfg: Config, s: State, r: nat)
    requires r < |s.runs| && InvBut(cfg, s, Some(r))
    ensures Inv(cfg, ResumeParent(cfg, SetRunStatus(cfg, s, r, Completed), r))
    decreases r, 0
  {
    CompleteMovesHole(cfg, s, r);
    if s.runs[r].parent.Some? {
      var p := s.runs[r].parent.value;
      AdvanceGives(cfg, SetRunStatus(cfg, s, r, Completed), p.run, p.stepIndex);
    }
  }

  lemma LeaveGives(cfg: Config, s: State, r: nat, i: nat)
    requires r < |s.runs| && InvBut(cfg, s, Some(r)) && i < |StepsOf(cfg, s, r)|
    ensures Inv(cfg, Leave(cfg, s, r, i))
  {
    if StepsOf(cfg, s, r)[i].end {
      FinishGives(cfg, s, r);
    } else {
      AdvanceGives(cfg, s, r, i);
    }
  }
}
