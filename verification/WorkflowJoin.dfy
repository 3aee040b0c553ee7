/** What a join reads when every goto leads forward. */
module WorkflowJoin {
  import opened Wrappers
  import opened WorkflowConfig
  import opened WorkflowModel
  import opened WorkflowToken
  import opened WorkflowDelivery
  import opened WorkflowLate
  import opened WorkflowSafety
  import opened BranchOrder

  // ---- Forward configurations ----------------------------------------------

  predicate LeadsForward(steps: seq<Step>, i: nat, goto: string) {
    var target := FindStep(steps, goto);
    target.Some? ==> target.value > i
  }

  predicate ForwardStep(steps: seq<Step>, i: nat)
    requires i < |steps|
  {
    && (forall c | c in steps[i].catches :: LeadsForward(steps, i, c.goto))
    && match steps[i].kind
       case Choice(rules, default) =>
         && (forall c | c in rules :: LeadsForward(steps, i, c.goto))
         && (default.Some? ==> LeadsForward(steps, i, default.value))
       case _ => true
  }

  predicate Forward(cfg: Config) {
    forall w | w in cfg.workflows :: forall i :: 0 <= i < |cfg.workflows[w]| ==> ForwardStep(cfg.workflows[w], i)
  }

  // ---- Branch rows of a step -----------------------------------------------

  predicate IsBranch(j: Job, r: nat, i: nat) {
    j.run == r && j.stepIndex == i && j.branch.Some?
  }

  /** Names of the branch jobs of step `i` of run `r`, in order of insertion. */
  function BranchNames(jobs: seq<Job>, r: nat, i: nat): seq<string> {
    if |jobs| == 0 then []
    else
      var last := jobs[|jobs| - 1];
      BranchNames(jobs[..|jobs| - 1], r, i) + if IsBranch(last, r, i) then [last.branch.value] else []
  }

  function DoneWeight(j: Job, r: nat, i: nat): nat {
    if IsBranch(j, r, i) && j.status == Done then 1 else 0
  }

  function DoneBranches(jobs: seq<Job>, r: nat, i: nat): nat {
    if |jobs| == 0 then 0
    else DoneBranches(jobs[..|jobs| - 1], r, i) + DoneWeight(jobs[|jobs| - 1], r, i)
  }

  lemma BranchesAppendOne(jobs: seq<Job>, j: Job, r: nat, i: nat)
    ensures BranchNames(jobs + [j], r, i) == BranchNames(jobs, r, i) + (if IsBranch(j, r, i) then [j.branch.value] else [])
    ensures DoneBranches(jobs + [j], r, i) == DoneBranches(jobs, r, i) + DoneWeight(j, r, i)
  {
    assert (jobs + [j])[..|jobs|] == jobs;
  }

  lemma {:induction false} BranchesUpdate(jobs: seq<Job>, k: nat, j: Job, r: nat, i: nat)
    requires k < |jobs| && j.run == jobs[k].run && j.stepIndex == jobs[k].stepIndex && j.branch == jobs[k].branch
    ensures BranchNames(jobs[k := j], r, i) == BranchNames(jobs, r, i)
    ensures DoneBranches(jobs[k := j], r, i) == DoneBranches(jobs, r, i) - DoneWeight(jobs[k], r, i) + DoneWeight(j, r, i)
  {
    var n := |jobs| - 1;
    if k == n {
      assert jobs[k := j][..n] == jobs[..n];
    } else {
      assert jobs[k := j][..n] == jobs[..n][k := j];
      BranchesUpdate(jobs[..n], k, j, r, i);
    }
  }

  lemma {:induction false} BranchesAppendFork(cfg: Config, jobs: seq<Job>, w: string, r: nat, i: nat, names: seq<string>, q: nat, k: nat)
    requires w in cfg.workflows && i < |cfg.workflows[w]|
    ensures
      var all := jobs + BranchJobs(cfg, w, r, i, names);
      && BranchNames(all, q, k) == BranchNames(jobs, q, k) + (if q == r && k == i then names else [])
      && DoneBranches(all, q, k) == DoneBranches(jobs, q, k)
  {
    var forked := BranchJobs(cfg, w, r, i, names);
    if |names| == 0 {
      assert jobs + forked == jobs;
    } else {
      var n := |names| - 1;
      assert forked == BranchJobs(cfg, w, r, i, names[..n]) + [forked[n]];
      assert jobs + forked == (jobs + BranchJobs(cfg, w, r, i, names[..n])) + [forked[n]];
      BranchesAppendFork(cfg, jobs, w, r, i, names[..n], q, k);
      BranchesAppendOne(jobs + BranchJobs(cfg, w, r, i, names[..n]), forked[n], q, k);
      assert names == names[..n] + [names[n]];
    }
  }

  lemma {:induction false} NoBranches(jobs: seq<Job>, r: nat, i: nat)
    requires forall k :: 0 <= k < |jobs| ==> jobs[k].run != r
    ensures BranchNames(jobs, r, i) == [] && DoneBranches(jobs, r, i) == 0
  {
    if |jobs| > 0 {
      assert forall k :: 0 <= k < |jobs| - 1 ==> jobs[..|jobs| - 1][k] == jobs[k];
      NoBranches(jobs[..|jobs| - 1], r, i);
    }
  }

  // ---- The invariant of forks ----------------------------------------------

  /** The names a step of this kind forks into. */
  function ForkNames(kind: Kind, n: nat): seq<string> {
    match kind
    case Parallel(branches) => branches
    case _ => ItemNames(n)
  }

  /** The open join of run `r` is over exactly the branch rows of its current step `at`. */
  ghost predicate JoinRows(cfg: Config, s: State, r: nat, at: nat)
    requires Shape(cfg, s) && r < |s.runs| && at < |StepsOf(cfg, s, r)|
  {
    var run := s.runs[r];
    && BranchNames(s.jobs, r, at) == ForkNames(StepsOf(cfg, s, r)[at].kind, run.parallelCount)
    && |BranchNames(s.jobs, r, at)| == run.parallelCount
    && DoneBranches(s.jobs, r, at) == run.parallelCompleted
  }

  /** Steps not yet reached have no branch rows, nor has the current one before it forks. */
  ghost predicate ForksOk(cfg: Config, s: State, r: nat)
    requires Shape(cfg, s) && r < |s.runs|
  {
    var at := FindStep(StepsOf(cfg, s, r), s.runs[r].currentStep);
    && at.Some?
    && (forall i :: i > at.value ==> BranchNames(s.jobs, r, i) == [])
    && (LiveJobs(s.jobs, r, false) > 0 ==> BranchNames(s.jobs, r, at.value) == [] && DoneBranches(s.jobs, r, at.value) == 0)
    && (s.runs[r].parallelStep.Some? ==> JoinRows(cfg, s, r, at.value))
  }

  ghost predicate AllForksOk(cfg: Config, s: State)
    requires Shape(cfg, s)
  {
    forall r: nat :: r < |s.runs| ==> ForksOk(cfg, s, r)
  }

  /** Where run `r` stands. */
  ghost predicate StandsAt(cfg: Config, s: State, r: nat, i: nat)
    requires Shape(cfg, s) && r < |s.runs|
  {
    FindStep(StepsOf(cfg, s, r), s.runs[r].currentStep) == Some(i)
  }

  lemma NameStandsAt(cfg: Config, s: State, r: nat, i: nat)
    requires Shape(cfg, s) && r < |s.runs| && i < |StepsOf(cfg, s, r)|
    requires s.runs[r].currentStep == StepsOf(cfg, s, r)[i].name
    ensures StandsAt(cfg, s, r, i)
  {
    assert ValidSteps(cfg.workflows, s.runs[r].workflow, StepsOf(cfg, s, r));
    FindStepUnique(StepsOf(cfg, s, r), i);
  }

  /** A change of one job row that leaves its identity, and whether it is done, alone. */
  lemma ForksUpdate(cfg: Config, s: State, t: State, k: nat)
    requires Shape(cfg, s) && Shape(cfg, t) && AllForksOk(cfg, s)
    requires t.runs == s.runs && k < |s.jobs| == |t.jobs| && t.jobs == s.jobs[k := t.jobs[k]]
    requires t.jobs[k] == s.jobs[k].(status := t.jobs[k].status, attempt := t.jobs[k].attempt, output := t.jobs[k].output)
    requires s.jobs[k].branch.Some? ==> (t.jobs[k].status == Done <==> s.jobs[k].status == Done)
    requires Live(t.jobs[k]) ==> Live(s.jobs[k])
    ensures AllForksOk(cfg, t)
  {
    forall q: nat | q < |t.runs|
      ensures ForksOk(cfg, t, q)
    {
      assert ForksOk(cfg, s, q);
      LiveJobsUpdate(s.jobs, k, t.jobs[k], q, false);
      forall i: nat
        ensures BranchNames(t.jobs, q, i) == BranchNames(s.jobs, q, i) && DoneBranches(t.jobs, q, i) == DoneBranches(s.jobs, q, i)
      {
        BranchesUpdate(s.jobs, k, t.jobs[k], q, i);
      }
    }
  }

  lemma ForksRunStatus(cfg: Config, s: State, r: nat, status: RunStatus)
    requires Shape(cfg, s) && AllForksOk(cfg, s) && r < |s.runs|
    ensures AllForksOk(cfg, SetRunStatus(cfg, s, r, status))
  {
    var t := SetRunStatus(cfg, s, r, status);
    forall q: nat | q < |t.runs|
      ensures ForksOk(cfg, t, q)
    {
      assert ForksOk(cfg, s, q);
    }
  }

  lemma ForksEnter(cfg: Config, s: State, r: nat, at: nat, i: nat)
    requires Shape(cfg, s) && AllForksOk(cfg, s) && r < |s.runs|
    requires at < i < |StepsOf(cfg, s, r)| && StandsAt(cfg, s, r, at) && s.runs[r].parallelStep.None?
    ensures AllForksOk(cfg, Enter(cfg, s, r, i))
  {
    var t := Enter(cfg, s, r, i);
    var job := t.jobs[|s.jobs|];
    NameStandsAt(cfg, t, r, i);
    forall q: nat | q < |t.runs|
      ensures ForksOk(cfg, t, q)
    {
      assert ForksOk(cfg, s, q);
      EnterCounts(cfg, s, r, i, q);
      forall k: nat
        ensures BranchNames(t.jobs, q, k) == BranchNames(s.jobs, q, k) && DoneBranches(t.jobs, q, k) == DoneBranches(s.jobs, q, k)
      {
        BranchesAppendOne(s.jobs, job, q, k);
      }
      if q == r {
        NoneDone(s.jobs, r, i);
      }
    }
  }

  lemma {:induction false} NoneDone(jobs: seq<Job>, r: nat, i: nat)
    ensures DoneBranches(jobs, r, i) <= |BranchNames(jobs, r, i)|
  {
    if |jobs| > 0 {
      NoneDone(jobs[..|jobs| - 1], r, i);
    }
  }

  lemma ForksFork(cfg: Config, s: State, r: nat, i: nat, names: seq<string>)
    requires Shape(cfg, s) && AllForksOk(cfg, s) && r < |s.runs|
    requires i < |StepsOf(cfg, s, r)| && StandsAt(cfg, s, r, i) && BranchNames(s.jobs, r, i) == []
    requires LiveJobs(s.jobs, r, false) == 0 && |names| <= I32_MAX
    requires names == ForkNames(StepsOf(cfg, s, r)[i].kind, |names|)
    ensures AllForksOk(cfg, Fork(cfg, s, r, i, names))
  {
    var t := Fork(cfg, s, r, i, names);
    NoneDone(s.jobs, r, i);
    forall q: nat | q < |t.runs|
      ensures ForksOk(cfg, t, q)
    {
      assert ForksOk(cfg, s, q);
      ForkCounts(cfg, s, r, i, names, q);
      forall k: nat
        ensures BranchNames(t.jobs, q, k) == BranchNames(s.jobs, q, k) + (if q == r && k == i then names else [])
        ensures DoneBranches(t.jobs, q, k) == DoneBranches(s.jobs, q, k)
      {
        BranchesAppendFork(cfg, s.jobs, s.runs[r].workflow, r, i, names, q, k);
      }
    }
  }

  lemma ForksAwait(cfg: Config, s: State, r: nat, i: nat)
    requires Shape(cfg, s) && AllForksOk(cfg, s) && r < |s.runs|
    requires i < |StepsOf(cfg, s, r)| && StandsAt(cfg, s, r, i) && BranchNames(s.jobs, r, i) == []
    ensures AllForksOk(cfg, Await(cfg, s, r, i))
  {
    var t := Await(cfg, s, r, i);
    NoneDone(s.jobs, r, i);
    forall q: nat | q < |t.runs|
      ensures ForksOk(cfg, t, q)
    {
      assert ForksOk(cfg, s, q);
      AwaitCounts(cfg, s, r, i, q);
      forall k: nat
        ensures BranchNames(t.jobs, q, k) == BranchNames(s.jobs, q, k) && DoneBranches(t.jobs, q, k) == DoneBranches(s.jobs, q, k)
      {
        BranchesAppendOne(s.jobs, t.jobs[|s.jobs|], q, k);
      }
    }
  }

  lemma ForksLaunch(cfg: Config, s: State, w: string, deadline: Option<nat>, parent: Option<Parent>)
    requires Shape(cfg, s) && AllForksOk(cfg, s) && w in cfg.workflows
    requires parent.Some? ==> parent.value.run < |s.runs| && parent.value.stepIndex < |StepsOf(cfg, s, parent.value.run)|
    ensures AllForksOk(cfg, Launch(cfg, s, w, deadline, parent))
  {
    var t := Launch(cfg, s, w, deadline, parent);
    var r := |s.runs|;
    NameStandsAt(cfg, t, r, 0);
    forall q: nat | q < |t.runs|
      ensures ForksOk(cfg, t, q)
    {
      assert q < r ==> ForksOk(cfg, s, q);
      LaunchCounts(cfg, s, w, deadline, parent, q);
      LaunchBranches(cfg, s, w, deadline, parent, q);
    }
  }

  lemma LaunchBranches(cfg: Config, s: State, w: string, deadline: Option<nat>, parent: Option<Parent>, q: nat)
    requires Shape(cfg, s) && w in cfg.workflows && q <= |s.runs|
    requires parent.Some? ==> parent.value.run < |s.runs| && parent.value.stepIndex < |StepsOf(cfg, s, parent.value.run)|
    ensures
      var t := Launch(cfg, s, w, deadline, parent);
      forall k: nat ::
        && BranchNames(t.jobs, q, k) == BranchNames(s.jobs, q, k)
        && DoneBranches(t.jobs, q, k) == DoneBranches(s.jobs, q, k)
        && (q == |s.runs| ==> BranchNames(s.jobs, q, k) == [] && DoneBranches(s.jobs, q, k) == 0)
  {
    var t := Launch(cfg, s, w, deadline, parent);
    forall k: nat
      ensures BranchNames(t.jobs, q, k) == BranchNames(s.jobs, q, k) && DoneBranches(t.jobs, q, k) == DoneBranches(s.jobs, q, k)
      ensures q == |s.runs| ==> BranchNames(s.jobs, q, k) == [] && DoneBranches(s.jobs, q, k) == 0
    {
      BranchesAppendOne(s.jobs, t.jobs[|s.jobs|], q, k);
      if q == |s.runs| {
        NoBranches(s.jobs, q, k);
      }
    }
  }

  lemma {:induction false} ForksAdvance(cfg: Config, s: State, r: nat, i: nat)
    requires r < |s.runs| && InvBut(cfg, s, Some(r)) && AllForksOk(cfg, s)
    requires i < |StepsOf(cfg, s, r)| && StandsAt(cfg, s, r, i)
    ensures AllForksOk(cfg, Advance(cfg, s, r, i))
    decreases r, 1
  {
    assert NoToken(s, r);
    if i + 1 < |StepsOf(cfg, s, r)| {
      ForksEnter(cfg, s, r, i, i + 1);
    } else {
      ForksFinish(cfg, s, r);
    }
  }

  lemma {:induction false} ForksFinish(cfg: Config, s: State, r: nat)
    requires r < |s.runs| && InvBut(cfg, s, Some(r)) && AllForksOk(cfg, s)
    ensures AllForksOk(cfg, ResumeParent(cfg, SetRunStatus(cfg, s, r, Completed), r))
    decreases r, 0
  {
    var done := SetRunStatus(cfg, s, r, Completed);
    ForksRunStatus(cfg, s, r, Completed);
    CompleteMovesHole(cfg, s, r);
    if s.runs[r].parent.Some? {
      var p := s.runs[r].parent.value;
      NameStandsAt(cfg, done, p.run, p.stepIndex);
      ForksAdvance(cfg, done, p.run, p.stepIndex);
    }
  }

  lemma ForksLeave(cfg: Config, s: State, r: nat, i: nat)
    requires r < |s.runs| && InvBut(cfg, s, Some(r)) && AllForksOk(cfg, s)
    requires i < |StepsOf(cfg, s, r)| && StandsAt(cfg, s, r, i)
    ensures AllForksOk(cfg, Leave(cfg, s, r, i))
  {
    if StepsOf(cfg, s, r)[i].end {
      ForksFinish(cfg, s, r);
    } else {
      ForksAdvance(cfg, s, r, i);
    }
  }

  // ---- Every event keeps the forks -----------------------------------------

  lemma LiveStandsAt(cfg: Config, s: State, j: nat)
    requires Inv(cfg, s) && j < |s.jobs| && Live(s.jobs[j])
    ensures StandsAt(cfg, s, s.jobs[j].run, s.jobs[j].stepIndex)
  {
    assert JobOk(cfg, s, j);
    NameStandsAt(cfg, s, s.jobs[j].run, s.jobs[j].stepIndex);
  }

  /** Taking the token: the rest of the step starts from a step that has not forked. */
  lemma ForksTake(cfg: Config, s: State, j: nat, status: JobStatus, output: Option<string>)
    requires Inv(cfg, s) && AllForksOk(cfg, s) && j < |s.jobs| && Live(s.jobs[j]) && s.jobs[j].branch.None?
    requires status == Done || (status == Dead && s.jobs[j].status != Waiting)
    ensures
      var r, i := s.jobs[j].run, s.jobs[j].stepIndex;
      var t := SaveOutput(cfg, SetStatus(cfg, s, j, status), j, output);
      && InvBut(cfg, t, Some(r))
      && AllForksOk(cfg, t)
      && StandsAt(cfg, t, r, i)
      && BranchNames(t.jobs, r, i) == []
  {
    var r, i := s.jobs[j].run, s.jobs[j].stepIndex;
    var t := SaveOutput(cfg, SetStatus(cfg, s, j, status), j, output);
    LiveStandsAt(cfg, s, j);
    JobIsToken(cfg, s, j);
    TakeToken(cfg, s, j, status, output);
    assert t.jobs == s.jobs[j := t.jobs[j]];
    ForksUpdate(cfg, s, t, j);
    BranchesUpdate(s.jobs, j, t.jobs[j], r, i);
    assert ForksOk(cfg, s, r);
  }

  /** The branch rows of every step, when branch job `j` has finished. */
  lemma FinishedBranches(cfg: Config, s: State, j: nat, body: Option<string>, q: nat, k: nat)
    requires Shape(cfg, s) && j < |s.jobs| && Live(s.jobs[j]) && s.jobs[j].branch.Some?
    ensures
      var jobs := SaveOutput(cfg, SetStatus(cfg, s, j, Done), j, body).jobs;
      && BranchNames(jobs, q, k) == BranchNames(s.jobs, q, k)
      && DoneBranches(jobs, q, k)
         == DoneBranches(s.jobs, q, k) + (if q == s.jobs[j].run && k == s.jobs[j].stepIndex then 1 else 0)
  {
    FinishedRow(cfg, s, j, body);
    BranchesUpdate(s.jobs, j, SaveOutput(cfg, SetStatus(cfg, s, j, Done), j, body).jobs[j], q, k);
  }

  lemma ForksCounted(cfg: Config, s: State, j: nat, body: Option<string>)
    requires Inv(cfg, s) && AllForksOk(cfg, s) && j < |s.jobs| && Live(s.jobs[j]) && s.jobs[j].branch.Some?
    requires s.runs[s.jobs[j].run].parallelCompleted + 1 < s.runs[s.jobs[j].run].parallelCount
    ensures AllForksOk(cfg, Counted(cfg, s, j, body))
  {
    var t := Counted(cfg, s, j, body);
    forall q: nat | q < |t.runs|
      ensures ForksOk(cfg, t, q)
    {
      ForksCountedRun(cfg, s, j, body, q);
    }
  }

  lemma CountedBranches(cfg: Config, s: State, j: nat, body: Option<string>, q: nat)
    requires Inv(cfg, s) && j < |s.jobs| && Live(s.jobs[j]) && s.jobs[j].branch.Some?
    ensures
      var jobs := Counted(cfg, s, j, body).jobs;
      && (forall k: nat :: BranchNames(jobs, q, k) == BranchNames(s.jobs, q, k))
      && (forall k: nat :: DoneBranches(jobs, q, k)
            == DoneBranches(s.jobs, q, k) + (if q == s.jobs[j].run && k == s.jobs[j].stepIndex then 1 else 0))
  {
    forall k: nat
      ensures
        var jobs := Counted(cfg, s, j, body).jobs;
        && BranchNames(jobs, q, k) == BranchNames(s.jobs, q, k)
        && DoneBranches(jobs, q, k)
           == DoneBranches(s.jobs, q, k) + (if q == s.jobs[j].run && k == s.jobs[j].stepIndex then 1 else 0)
    {
      FinishedBranches(cfg, s, j, body, q, k);
    }
  }

  lemma CountedRow(cfg: Config, s: State, j: nat, body: Option<string>, q: nat)
    requires Shape(cfg, s) && j < |s.jobs| && q < |s.runs|
    ensures
      var t := Counted(cfg, s, j, body);
      && |t.runs| == |s.runs|
      && t.runs[q] == (if q == s.jobs[j].run then s.runs[q].(parallelCompleted := s.runs[q].parallelCompleted + 1) else s.runs[q])
  {
  }

  lemma ForksCountedRun(cfg: Config, s: State, j: nat, body: Option<string>, q: nat)
    requires Inv(cfg, s) && j < |s.jobs| && Live(s.jobs[j]) && s.jobs[j].branch.Some?
    requires q < |s.runs| && ForksOk(cfg, s, q)
    ensures ForksOk(cfg, Counted(cfg, s, j, body), q)
  {
    LiveStandsAt(cfg, s, j);
    BranchHasJoin(cfg, s, j);
    CountedCounts(cfg, s, j, body, q);
    CountedRow(cfg, s, j, body, q);
    CountedBranches(cfg, s, j, body, q);
  }

  /** The tables when the last branch `j` has closed the join of its run. */
  ghost function Joined(cfg: Config, s: State, j: nat, body: Option<string>): (t: State)
    requires Shape(cfg, s) && j < |s.jobs|
    ensures Shape(cfg, t)
  {
    SetParallel(cfg, SaveOutput(cfg, SetStatus(cfg, s, j, Done), j, body), s.jobs[j].run, None, 0, 0)
  }

  lemma ForksJoined(cfg: Config, s: State, j: nat, body: Option<string>)
    requires Inv(cfg, s) && AllForksOk(cfg, s) && j < |s.jobs| && Live(s.jobs[j]) && s.jobs[j].branch.Some?
    ensures AllForksOk(cfg, Joined(cfg, s, j, body))
  {
    var r, i := s.jobs[j].run, s.jobs[j].stepIndex;
    var t := Joined(cfg, s, j, body);
    BranchHasJoin(cfg, s, j);
    LiveStandsAt(cfg, s, j);
    FinishedRow(cfg, s, j, body);
    forall q: nat | q < |t.runs|
      ensures ForksOk(cfg, t, q)
    {
      assert ForksOk(cfg, s, q);
      LiveJobsUpdate(s.jobs, j, t.jobs[j], q, false);
      forall k: nat
        ensures BranchNames(t.jobs, q, k) == BranchNames(s.jobs, q, k)
        ensures q != r || k != i ==> DoneBranches(t.jobs, q, k) == DoneBranches(s.jobs, q, k)
      {
        BranchesUpdate(s.jobs, j, t.jobs[j], q, k);
      }
    }
  }

  lemma ForksBranchDone(cfg: Config, s: State, j: nat, body: Option<string>)
    requires Inv(cfg, s) && AllForksOk(cfg, s) && j < |s.jobs| && Live(s.jobs[j]) && s.jobs[j].branch.Some?
    ensures AllForksOk(cfg, BranchDone(cfg, SetStatus(cfg, s, j, Done), j, body))
  {
    var r := s.jobs[j].run;
    if s.runs[r].parallelCompleted + 1 < s.runs[r].parallelCount {
      ForksCounted(cfg, s, j, body);
    } else {
      LastBranch(cfg, s, j, body);
      ForksJoined(cfg, s, j, body);
      LiveStandsAt(cfg, s, j);
      ForksLeave(cfg, Joined(cfg, s, j, body), r, s.jobs[j].stepIndex);
    }
  }

  lemma ForksStepSuccess(cfg: Config, s: State, j: nat, body: Option<string>, now: nat)
    requires Inv(cfg, s) && AllForksOk(cfg, s) && j < |s.jobs| && Live(s.jobs[j])
    ensures AllForksOk(cfg, StepSuccess(cfg, SetStatus(cfg, s, j, Done), j, body, now))
  {
    var r := s.jobs[j].run;
    if s.jobs[j].branch.Some? {
      ForksBranchDone(cfg, s, j, body);
    } else {
      ForksTake(cfg, s, j, Done, body);
      var t := SaveOutput(cfg, SetStatus(cfg, s, j, Done), j, body);
      if Expired(s.runs[r], now) {
        ForksRunStatus(cfg, t, r, Failed);
      } else {
        ForksLeave(cfg, t, r, s.jobs[j].stepIndex);
      }
    }
  }

  lemma ForksDies(cfg: Config, s: State, j: nat)
    requires Inv(cfg, s) && AllForksOk(cfg, s) && j < |s.jobs| && Live(s.jobs[j])
    ensures AllForksOk(cfg, SetRunStatus(cfg, SetStatus(cfg, s, j, Dead), s.jobs[j].run, Failed))
  {
    ForksUpdate(cfg, s, SetStatus(cfg, s, j, Dead), j);
    ForksRunStatus(cfg, SetStatus(cfg, s, j, Dead), s.jobs[j].run, Failed);
  }

  lemma ForksStepFailure(cfg: Config, s: State, j: nat, v: View)
    requires Inv(cfg, s) && AllForksOk(cfg, s) && Forward(cfg) && j < |s.jobs| && s.jobs[j].status == Running
    requires !LosesRun(cfg, s, j, v) && !Expired(s.runs[s.jobs[j].run], v.now) && v.reply.Failure?
    ensures AllForksOk(cfg, StepFailure(cfg, s, j, v.claim, v.reply.error, v.later))
  {
    var job := s.jobs[j];
    var steps := cfg.workflows[job.workflow];
    var step := steps[job.stepIndex];
    var f := v.reply.error;
    if WillRetry(step, job, v.claim, f) {
      ForksUpdate(cfg, s, SetStatus(cfg, s, j, Retryable), j);
    } else if FirstCatch(step.catches, f).Some? {
      var goto := FirstCatch(step.catches, f).value;
      assert ValidStep(cfg.workflows, job.workflow, steps, step) && ForwardStep(steps, job.stepIndex);
      ForksTake(cfg, s, j, Done, None);
      assert NoToken(SetStatus(cfg, s, j, Done), job.run);
      ForksEnter(cfg, SetStatus(cfg, s, j, Done), job.run, job.stepIndex, FindStep(steps, goto).value);
    } else if step.onFailure.Continue? {
      ForksStepSuccess(cfg, s, j, Some(ERROR_PAYLOAD), v.later);
    } else {
      ForksDies(cfg, s, j);
    }
  }

  lemma ForksInternal(cfg: Config, s: State, j: nat, v: View)
    requires j < |s.jobs| && InvBut(cfg, s, Some(s.jobs[j].run)) && AllForksOk(cfg, s) && Forward(cfg)
    requires StandsAt(cfg, s, s.jobs[j].run, s.jobs[j].stepIndex) && BranchNames(s.jobs, s.jobs[j].run, s.jobs[j].stepIndex) == []
    requires
      match cfg.workflows[s.jobs[j].workflow][s.jobs[j].stepIndex].kind
      case Parallel(branches) => JoinableCount(|branches|)
      case MapItems => v.input.Json? && JoinableCount(v.input.items)
      case _ => true
    ensures AllForksOk(cfg, Internal(cfg, s, j, v))
  {
    var w, r, i := s.jobs[j].workflow, s.jobs[j].run, s.jobs[j].stepIndex;
    var steps := cfg.workflows[w];
    assert ValidStep(cfg.workflows, w, steps, steps[i]) && ForwardStep(steps, i);
    assert NoToken(s, r);
    match steps[i].kind
    case Http =>
    case Choice(rules, default) =>
      var target := Target(rules, default, v.holds);
      if target.None? {
        ForksRunStatus(cfg, s, r, Failed);
      } else {
        ForksEnter(cfg, s, r, i, FindStep(steps, target.value).value);
      }
    case Parallel(branches) => ForksFork(cfg, s, r, i, branches);
    case MapItems => ForksFork(cfg, s, r, i, ItemNames(v.input.items));
    case Wait(_) => ForksAdvance(cfg, s, r, i);
    case Callback => ForksAwait(cfg, s, r, i);
    case SubWorkflow(target) => ForksLaunch(cfg, s, target, None, Some(Parent(r, i)));
  }

  lemma ForksDeliver(cfg: Config, s: State, j: nat, v: View)
    requires Inv(cfg, s) && AllForksOk(cfg, s) && Forward(cfg)
    requires j < |s.jobs| && s.jobs[j].status == Running && !LosesRun(cfg, s, j, v)
    ensures AllForksOk(cfg, DeliverJob(cfg, s, j, v))
  {
    var job := s.jobs[j];
    if Expired(s.runs[job.run], v.now) {
      ForksDies(cfg, s, j);
    } else if job.branch.None? && !cfg.workflows[job.workflow][job.stepIndex].kind.Http? {
      ForksTake(cfg, s, j, Done, None);
      ForksInternal(cfg, SetStatus(cfg, s, j, Done), j, v);
    } else {
      match v.reply
      case Success(body) => ForksStepSuccess(cfg, s, j, body, v.later);
      case Failure(f) => ForksStepFailure(cfg, s, j, v);
    }
  }

  lemma ForksCallback(cfg: Config, s: State, token: nat, body: string)
    requires Inv(cfg, s) && AllForksOk(cfg, s)
    ensures AllForksOk(cfg, ReceiveCallback(cfg, s, token, body))
  {
    var found := FindToken(s.jobs, token);
    if found.Some? && s.jobs[found.value].status == Waiting {
      var j := found.value;
      assert JobOk(cfg, s, j);
      ForksTake(cfg, s, j, Done, Some(body));
      ForksLeave(cfg, SaveOutput(cfg, SetStatus(cfg, s, j, Done), j, Some(body)), s.jobs[j].run, s.jobs[j].stepIndex);
    }
  }

  lemma ForksEvent(cfg: Config, s: State, e: Event)
    requires Inv(cfg, s) && AllForksOk(cfg, s) && Forward(cfg) && Benign(cfg, s, e) && Timely(s, e)
    ensures AllForksOk(cfg, Next(cfg, s, e))
  {
    match e
    case Start(w, deadline) =>
      if w in cfg.workflows {
        ForksLaunch(cfg, s, w, deadline, None);
      }
    case Claim(j) =>
      if j < |s.jobs| && (s.jobs[j].status == Available || s.jobs[j].status == Retryable) {
        ForksUpdate(cfg, s, Next(cfg, s, e), j);
      }
    case Recover(j) =>
      if j < |s.jobs| && s.jobs[j].status == Running {
        ForksUpdate(cfg, s, SetStatus(cfg, s, j, Retryable), j);
      }
    case Deliver(j, v) =>
      if j < |s.jobs| && s.jobs[j].status == Running {
        ForksDeliver(cfg, s, j, v);
      }
    case CallbackReceived(token, body) => ForksCallback(cfg, s, token, body);
  }

  /** In every run of the engine under a forward configuration. */
  lemma {:induction false} EveryForkIsRight(cfg: Config, s: State, events: seq<Event>)
    requires Inv(cfg, s) && AllForksOk(cfg, s) && Forward(cfg) && TimelyRun(cfg, s, events)
    ensures Inv(cfg, Exec(cfg, s, events)) && AllForksOk(cfg, Exec(cfg, s, events))
    decreases |events|
  {
    if |events| > 0 {
      EventKeepsToken(cfg, s, events[0]);
      ForksEvent(cfg, s, events[0]);
      EveryForkIsRight(cfg, Next(cfg, s, events[0]), events[1..]);
    }
  }

  // ---- What the join reads -------------------------------------------------

  /** The select of the join: rows of completed branch jobs of this run and step. */
  function CompletedBranchRows(jobs: seq<Job>, r: nat, step: string): seq<Row> {
    if |jobs| == 0 then []
    else
      var last := jobs[|jobs| - 1];
      CompletedBranchRows(jobs[..|jobs| - 1], r, step)
      + if last.run == r && last.stepName == step && last.branch.Some? && last.status == Done
        then [(last.branch.value, last.output)] else []
  }

  function RowNames(rows: seq<Row>): seq<string> {
    seq(|rows|, k requires 0 <= k < |rows| => rows[k].0)
  }

  /** When all branch rows of a step are done, the select sees each of them once. */
  lemma {:induction false} AllDoneAllSelected(cfg: Config, runs: seq<Run>, jobs: seq<Job>, r: nat, steps: seq<Step>, i: nat)
    requires i < |steps| && DistinctNames(steps)
    requires forall k :: 0 <= k < |jobs| ==> JobShape(cfg, runs, jobs[k]) && (jobs[k].run == r ==> cfg.workflows[jobs[k].workflow] == steps)
    requires DoneBranches(jobs, r, i) == |BranchNames(jobs, r, i)|
    ensures RowNames(CompletedBranchRows(jobs, r, steps[i].name)) == BranchNames(jobs, r, i)
  {
    if |jobs| > 0 {
      var n := |jobs| - 1;
      NoneDone(jobs[..n], r, i);
      assert JobShape(cfg, runs, jobs[n]);
      assert forall k :: 0 <= k < n ==> jobs[..n][k] == jobs[k];
      AllDoneAllSelected(cfg, runs, jobs[..n], r, steps, i);
      assert jobs[n].run == r ==> (jobs[n].stepName == steps[i].name <==> jobs[n].stepIndex == i);
    }
  }

  lemma {:induction false} BranchesAllDone(jobs: seq<Job>, r: nat, i: nat)
    requires DoneBranches(jobs, r, i) == |BranchNames(jobs, r, i)|
    ensures forall k :: 0 <= k < |jobs| && IsBranch(jobs[k], r, i) ==> jobs[k].status == Done
  {
    if |jobs| > 0 {
      var n := |jobs| - 1;
      NoneDone(jobs[..n], r, i);
      BranchesAllDone(jobs[..n], r, i);
      assert forall k :: 0 <= k < n ==> jobs[..n][k] == jobs[k];
    }
  }

  lemma {:induction false} SelectedRow(jobs: seq<Job>, r: nat, step: string, k: nat)
    requires k < |jobs| && jobs[k].run == r && jobs[k].stepName == step && jobs[k].branch.Some? && jobs[k].status == Done
    ensures (jobs[k].branch.value, jobs[k].output) in CompletedBranchRows(jobs, r, step)
  {
    var n := |jobs| - 1;
    if k < n {
      assert jobs[..n][k] == jobs[k];
      SelectedRow(jobs[..n], r, step, k);
    }
  }

  /** The row of every branch job of the step is selected, with the job's output. */
  ghost predicate AllSelected(jobs: seq<Job>, r: nat, i: nat, rows: seq<Row>) {
    forall k :: 0 <= k < |jobs| && IsBranch(jobs[k], r, i) ==>
      jobs[k].status == Done && (jobs[k].branch.value, jobs[k].output) in rows
  }

  lemma DoneBranchesSelected(cfg: Config, runs: seq<Run>, jobs: seq<Job>, r: nat, i: nat, step: string)
    requires forall k :: 0 <= k < |jobs| ==> JobShape(cfg, runs, jobs[k])
    requires r < |runs| && runs[r].workflow in cfg.workflows
    requires i < |cfg.workflows[runs[r].workflow]| && cfg.workflows[runs[r].workflow][i].name == step
    requires DoneBranches(jobs, r, i) == |BranchNames(jobs, r, i)|
    ensures AllSelected(jobs, r, i, CompletedBranchRows(jobs, r, step))
  {
    BranchesAllDone(jobs, r, i);
    forall k | 0 <= k < |jobs| && IsBranch(jobs[k], r, i)
      ensures jobs[k].status == Done && (jobs[k].branch.value, jobs[k].output) in CompletedBranchRows(jobs, r, step)
    {
      assert JobShape(cfg, runs, jobs[k]);
      SelectedRow(jobs, r, step, k);
    }
  }

  /**
   * The last branch of a join reads back exactly one row for each branch of the fork, the
   * configured branches of a parallel step or the item positions of a map step, and each row is the
   * name and the output of a branch job of the step.
   */
  lemma JoinSeesEveryBranch(cfg: Config, s: State, j: nat, body: Option<string>)
    requires Inv(cfg, s) && AllForksOk(cfg, s) && j < |s.jobs| && Live(s.jobs[j]) && s.jobs[j].branch.Some?
    requires s.runs[s.jobs[j].run].parallelCompleted + 1 >= s.runs[s.jobs[j].run].parallelCount
    ensures
      var job := s.jobs[j];
      var saved := SaveOutput(cfg, SetStatus(cfg, s, j, Done), j, body);
      var rows := CompletedBranchRows(saved.jobs, job.run, job.stepName);
      && RowNames(rows) == ForkNames(cfg.workflows[job.workflow][job.stepIndex].kind, s.runs[job.run].parallelCount)
      && |rows| == s.runs[job.run].parallelCount
      && AllSelected(saved.jobs, job.run, job.stepIndex, rows)
  {
    var job := s.jobs[j];
    var r, i := job.run, job.stepIndex;
    var saved := SaveOutput(cfg, SetStatus(cfg, s, j, Done), j, body);
    FinishedRow(cfg, s, j, body);
    BranchHasJoin(cfg, s, j);
    LiveStandsAt(cfg, s, j);
    assert RunOk(s, r) && ForksOk(cfg, s, r);
    BranchesUpdate(s.jobs, j, saved.jobs[j], r, i);
    assert ValidSteps(cfg.workflows, job.workflow, StepsOf(cfg, s, r));
    AllDoneAllSelected(cfg, saved.runs, saved.jobs, r, StepsOf(cfg, s, r), i);
    DoneBranchesSelected(cfg, saved.runs, saved.jobs, r, i, job.stepName);
  }

  // ---- The merged value ----------------------------------------------------

  /** The merged object of a parallel step: outputs inserted by branch name. */
  function MergedObject(rows: seq<Row>): map<string, Option<string>> {
    if |rows| == 0 then map[] else MergedObject(rows[..|rows| - 1])[rows[|rows| - 1].0 := rows[|rows| - 1].1]
  }

  /** What the last branch of a parallel step hands on: the object of the selected rows. */
  function JoinedObject(jobs: seq<Job>, r: nat, step: string): map<string, Option<string>> {
    MergedObject(OrderByName(CompletedBranchRows(jobs, r, step)))
  }

  /** What the last item of a map step hands on: the array of the selected outputs. */
  function JoinedArray(jobs: seq<Job>, r: nat, step: string): seq<Option<string>> {
    Outputs(OrderByName(CompletedBranchRows(jobs, r, step)))
  }

  /** No two rows have one name. */
  ghost predicate NamesApart(rows: seq<Row>) {
    forall x, y | x in rows && y in rows && x.0 == y.0 :: x == y
  }

  lemma {:induction false} MergedObjectKeys(rows: seq<Row>)
    ensures forall name :: name in MergedObject(rows) <==> exists k :: 0 <= k < |rows| && rows[k].0 == name
  {
    if |rows| > 0 {
      var n := |rows| - 1;
      MergedObjectKeys(rows[..n]);
      assert forall k :: 0 <= k < n ==> rows[..n][k] == rows[k];
    }
  }

  /** Every row's output is kept when no two rows have one name. */
  lemma {:induction false} MergedObjectValues(rows: seq<Row>)
    requires NamesApart(rows)
    ensures forall x | x in rows :: x.0 in MergedObject(rows) && MergedObject(rows)[x.0] == x.1
  {
    if |rows| > 0 {
      var n := |rows| - 1;
      assert rows == rows[..n] + [rows[n]];
      MergedObjectValues(rows[..n]);
    }
  }

  lemma SameRows(xs: seq<Row>)
    ensures forall x :: x in OrderByName(xs) <==> x in xs
    ensures |OrderByName(xs)| == |xs|
  {
    OrderByNameSorts(xs);
    forall x
      ensures x in OrderByName(xs) <==> x in xs
    {
      assert x in multiset(OrderByName(xs)) <==> x in multiset(xs);
    }
    assert |multiset(OrderByName(xs))| == |multiset(xs)|;
  }

  /** The object of ordered rows is that of the rows. */
  lemma OrderedObject(rows: seq<Row>)
    requires NamesApart(rows)
    ensures
      var merged := MergedObject(OrderByName(rows));
      && (forall name :: name in merged <==> name in RowNames(rows))
      && (forall x | x in rows :: x.0 in merged && merged[x.0] == x.1)
  {
    var ordered := OrderByName(rows);
    SameRows(rows);
    MergedObjectKeys(ordered);
    MergedObjectValues(ordered);
    forall name
      ensures name in MergedObject(ordered) <==> name in RowNames(rows)
    {
      if name in MergedObject(ordered) {
        var k :| 0 <= k < |ordered| && ordered[k].0 == name;
        assert ordered[k] in rows;
        var i :| 0 <= i < |rows| && rows[i] == ordered[k];
        assert RowNames(rows)[i] == name;
      }
      if name in RowNames(rows) {
        var i :| 0 <= i < |rows| && RowNames(rows)[i] == name;
        assert rows[i] in ordered;
      }
    }
  }

  lemma DistinctNamesApart(rows: seq<Row>)
    requires Distinct(RowNames(rows))
    ensures NamesApart(rows)
  {
    forall x, y | x in rows && y in rows && x.0 == y.0
      ensures x == y
    {
      var i :| 0 <= i < |rows| && rows[i] == x;
      var k :| 0 <= k < |rows| && rows[k] == y;
      assert RowNames(rows)[i] == RowNames(rows)[k];
    }
  }

  /**
   * The merged object of a parallel step has exactly the configured branches as keys, and under each
   * the output of that branch's job; the last branch's is its body, if it has one.
   */
  lemma ParallelMergesBranches(cfg: Config, s: State, j: nat, body: Option<string>)
    requires Inv(cfg, s) && AllForksOk(cfg, s) && j < |s.jobs| && Live(s.jobs[j]) && s.jobs[j].branch.Some?
    requires s.runs[s.jobs[j].run].parallelCompleted + 1 >= s.runs[s.jobs[j].run].parallelCount
    requires cfg.workflows[s.jobs[j].workflow][s.jobs[j].stepIndex].kind.Parallel?
    ensures
      var job := s.jobs[j];
      var saved := SaveOutput(cfg, SetStatus(cfg, s, j, Done), j, body);
      var merged := JoinedObject(saved.jobs, job.run, job.stepName);
      && (forall name :: name in merged <==> name in cfg.workflows[job.workflow][job.stepIndex].kind.branches)
      && (forall k :: 0 <= k < |saved.jobs| && IsBranch(saved.jobs[k], job.run, job.stepIndex) ==>
            saved.jobs[k].branch.value in merged && merged[saved.jobs[k].branch.value] == saved.jobs[k].output)
      && job.branch.value in merged
      && (body != None ==> merged[job.branch.value] == body)
  {
    var job := s.jobs[j];
    var saved := SaveOutput(cfg, SetStatus(cfg, s, j, Done), j, body);
    var rows := CompletedBranchRows(saved.jobs, job.run, job.stepName);
    JoinSeesEveryBranch(cfg, s, j, body);
    assert Distinct(RowNames(rows)) by {
      assert ValidStep(cfg.workflows, job.workflow, cfg.workflows[job.workflow], cfg.workflows[job.workflow][job.stepIndex]);
    }
    DistinctNamesApart(rows);
    OrderedObject(rows);
    assert IsBranch(saved.jobs[j], job.run, job.stepIndex) by {
      FinishedRow(cfg, s, j, body);
    }
  }

  lemma RowsAreItems(rows: seq<Row>)
    requires RowNames(rows) == ItemNames(|rows|)
    ensures rows == ItemRows(Outputs(rows))
  {
    forall k | 0 <= k < |rows|
      ensures rows[k] == ItemRows(Outputs(rows))[k]
    {
      assert RowNames(rows)[k] == ItemNames(|rows|)[k];
    }
  }

  lemma ItemAt(outs: seq<Option<string>>, n: nat, row: Row)
    requires row in ItemRows(outs) && row.0 == Text.Decimal(n)
    ensures n < |outs| && outs[n] == row.1
  {
    var rows := ItemRows(outs);
    var k: nat :| k < |rows| && rows[k] == row;
    Text.DecimalInjective(n, k);
  }

  /** Each item's job has its output at the item's position. */
  ghost predicate ItemsInPlace(jobs: seq<Job>, r: nat, i: nat, list: seq<Option<string>>) {
    forall k, n: nat :: 0 <= k < |jobs| && IsBranch(jobs[k], r, i) && jobs[k].branch == Some(Text.Decimal(n)) ==>
      n < |list| && list[n] == jobs[k].output
  }

  lemma ItemRowsInPlace(jobs: seq<Job>, r: nat, i: nat, outs: seq<Option<string>>)
    requires AllSelected(jobs, r, i, ItemRows(outs))
    ensures ItemsInPlace(jobs, r, i, outs)
  {
    forall k, n: nat | 0 <= k < |jobs| && IsBranch(jobs[k], r, i) && jobs[k].branch == Some(Text.Decimal(n))
      ensures n < |outs| && outs[n] == jobs[k].output
    {
      ItemAt(outs, n, (jobs[k].branch.value, jobs[k].output));
    }
  }

  lemma SelectedInPlace(jobs: seq<Job>, r: nat, i: nat, rows: seq<Row>)
    requires AllSelected(jobs, r, i, rows) && RowNames(rows) == ItemNames(|rows|) && |rows| <= 10
    ensures ItemsInPlace(jobs, r, i, Outputs(OrderByName(rows)))
  {
    RowsAreItems(rows);
    UpToTenInOrder(Outputs(rows));
    ItemRowsInPlace(jobs, r, i, Outputs(rows));
  }

  /** `list` holds the outputs of the branch jobs of the step, in the text order of their names. */
  ghost predicate InTextOrder(jobs: seq<Job>, r: nat, i: nat, list: seq<Option<string>>, names: seq<string>) {
    && |names| == |list|
    && (forall m, n :: 0 <= m < n < |names| ==> !Text.Less(names[n], names[m]))
    && (forall k :: 0 <= k < |jobs| && IsBranch(jobs[k], r, i) ==>
          exists m :: 0 <= m < |names| && names[m] == jobs[k].branch.value && list[m] == jobs[k].output)
  }

  lemma SelectedInTextOrder(jobs: seq<Job>, r: nat, i: nat, rows: seq<Row>)
    requires AllSelected(jobs, r, i, rows)
    ensures InTextOrder(jobs, r, i, Outputs(OrderByName(rows)), RowNames(OrderByName(rows)))
  {
    var ordered := OrderByName(rows);
    SameRows(rows);
    OrderByNameSorts(rows);
    forall k | 0 <= k < |jobs| && IsBranch(jobs[k], r, i)
      ensures exists m :: 0 <= m < |ordered| && RowNames(ordered)[m] == jobs[k].branch.value && Outputs(ordered)[m] == jobs[k].output
    {
      assert (jobs[k].branch.value, jobs[k].output) in ordered;
      var m :| 0 <= m < |ordered| && ordered[m] == (jobs[k].branch.value, jobs[k].output);
      assert RowNames(ordered)[m] == jobs[k].branch.value && Outputs(ordered)[m] == jobs[k].output;
    }
  }

  /**
   * The merged array of a map step has one output for each item, in the text order of the item
   * numbers; so up to ten items, item `i`'s job has its output at position `i`.
   */
  lemma MapMergesItems(cfg: Config, s: State, j: nat, body: Option<string>)
    requires Inv(cfg, s) && AllForksOk(cfg, s) && j < |s.jobs| && Live(s.jobs[j]) && s.jobs[j].branch.Some?
    requires s.runs[s.jobs[j].run].parallelCompleted + 1 >= s.runs[s.jobs[j].run].parallelCount
    requires cfg.workflows[s.jobs[j].workflow][s.jobs[j].stepIndex].kind.MapItems?
    ensures
      var job := s.jobs[j];
      var saved := SaveOutput(cfg, SetStatus(cfg, s, j, Done), j, body);
      var list := JoinedArray(saved.jobs, job.run, job.stepName);
      && |list| == s.runs[job.run].parallelCount
      && (exists names :: InTextOrder(saved.jobs, job.run, job.stepIndex, list, names))
      && (|list| <= 10 ==> ItemsInPlace(saved.jobs, job.run, job.stepIndex, list))
  {
    var job := s.jobs[j];
    var saved := SaveOutput(cfg, SetStatus(cfg, s, j, Done), j, body);
    var rows := CompletedBranchRows(saved.jobs, job.run, job.stepName);
    JoinSeesEveryBranch(cfg, s, j, body);
    SameRows(rows);
    SelectedInTextOrder(saved.jobs, job.run, job.stepIndex, rows);
    assert |RowNames(rows)| == |rows|;
    if |rows| <= 10 {
      SelectedInPlace(saved.jobs, job.run, job.stepIndex, rows);
    }
  }
}
