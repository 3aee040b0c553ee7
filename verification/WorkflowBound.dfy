/**
 * How much work a run can cause: when gotos lead forward and sub-workflow references are acyclic,
 * every handled delivery uses up part of a budget that only starting a run can raise. The budget of
 * a run is the largest sum, over a way that it can take through its steps, of branches times
 * attempts, with the runs that they launch.
 */
module WorkflowBound {
  import opened Wrappers
  import opened WorkflowConfig
  import opened WorkflowModel
  import opened WorkflowToken
  import opened WorkflowDelivery
  import opened WorkflowLate
  import opened WorkflowSafety
  import opened WorkflowJoin

  /** A ranking of the workflows that every sub-workflow step descends, and the longest map. */
  datatype Limits = Limits(rank: map<string, nat>, items: nat)

  /** Gotos lead forward, and sub-workflow steps down the ranking. */
  ghost predicate Acyclic(cfg: Config, lim: Limits) {
    && ValidWorkflows(cfg.workflows)
    && Forward(cfg)
    && (forall w | w in cfg.workflows :: w in lim.rank)
    && forall w, i | w in cfg.workflows && 0 <= i < |cfg.workflows[w]| && cfg.workflows[w][i].kind.SubWorkflow? ::
         cfg.workflows[w][i].kind.target in cfg.workflows && lim.rank[cfg.workflows[w][i].kind.target] < lim.rank[w]
  }

  function AtLeastOne(n: int): nat {
    if n < 1 then 1 else n
  }

  /** Deliveries of `n` branch jobs of a step. */
  function ForkCost(cfg: Config, w: string, i: nat, n: nat): nat
    requires w in cfg.workflows && i < |cfg.workflows[w]|
  {
    if n == 0 then 0 else ForkCost(cfg, w, i, n - 1) + AtLeastOne(MaxAttempts(cfg, cfg.workflows[w][i]))
  }

  /** Deliveries that step `i` of workflow `w` can cause, its branches and child runs included. */
  ghost function StepCost(cfg: Config, lim: Limits, w: string, i: nat): (c: nat)
    requires Acyclic(cfg, lim) && w in cfg.workflows && i < |cfg.workflows[w]|
    ensures c >= 1
    decreases lim.rank[w], |cfg.workflows[w]| - i, 0
  {
    match cfg.workflows[w][i].kind
    case Http => AtLeastOne(MaxAttempts(cfg, cfg.workflows[w][i]))
    case Parallel(branches) => 1 + ForkCost(cfg, w, i, |branches|)
    case MapItems => 1 + ForkCost(cfg, w, i, lim.items)
    case SubWorkflow(target) => 1 + Cost(cfg, lim, target, 0)
    case _ => 1
  }

  function Max(a: nat, b: nat): nat {
    if a <= b then b else a
  }

  /** Deliveries that a run which enters step `i` can cause from there on. */
  ghost function Cost(cfg: Config, lim: Limits, w: string, i: nat): nat
    requires Acyclic(cfg, lim) && w in cfg.workflows
    decreases lim.rank[w], |cfg.workflows[w]| - i, 3
  {
    if i >= |cfg.workflows[w]| then 0 else StepCost(cfg, lim, w, i) + Onward(cfg, lim, w, i)
  }

  /** When the step is left in the ordinary way: nothing after the step that ends the run. */
  ghost function LeaveCost(cfg: Config, lim: Limits, w: string, i: nat): nat
    requires Acyclic(cfg, lim) && w in cfg.workflows && i < |cfg.workflows[w]|
    decreases lim.rank[w], |cfg.workflows[w]| - i, 1
  {
    if cfg.workflows[w][i].end then 0 else Cost(cfg, lim, w, i + 1)
  }

  /** The largest cost of a goto's target. */
  ghost function GotoCost(cfg: Config, lim: Limits, w: string, i: nat, gotos: seq<string>): nat
    requires Acyclic(cfg, lim) && w in cfg.workflows && i < |cfg.workflows[w]|
    requires forall goto | goto in gotos :: LeadsForward(cfg.workflows[w], i, goto)
    decreases lim.rank[w], |cfg.workflows[w]| - i, 1, |gotos|
  {
    if |gotos| == 0 then 0
    else
      assert LeadsForward(cfg.workflows[w], i, gotos[0]);
      var rest := GotoCost(cfg, lim, w, i, gotos[1..]);
      match FindStep(cfg.workflows[w], gotos[0])
      case None => rest
      case Some(k) => Max(Cost(cfg, lim, w, k), rest)
  }

  /** What can follow step `i`: the alternatives count once, with the dearest. Wait and sub-workflow steps ignore `end`. */
  ghost function Onward(cfg: Config, lim: Limits, w: string, i: nat): nat
    requires Acyclic(cfg, lim) && w in cfg.workflows && i < |cfg.workflows[w]|
    decreases lim.rank[w], |cfg.workflows[w]| - i, 2
  {
    var steps := cfg.workflows[w];
    assert ForwardStep(steps, i);
    match steps[i].kind
    case Http => Max(LeaveCost(cfg, lim, w, i), GotoCost(cfg, lim, w, i, CatchGotos(steps[i].catches)))
    case Choice(rules, default) => GotoCost(cfg, lim, w, i, RuleGotos(rules) + if default.Some? then [default.value] else [])
    case Wait(_) => Cost(cfg, lim, w, i + 1)
    case SubWorkflow(_) => Cost(cfg, lim, w, i + 1)
    case _ => LeaveCost(cfg, lim, w, i)
  }

  lemma {:induction false} GotoCovers(cfg: Config, lim: Limits, w: string, i: nat, gotos: seq<string>, goto: string)
    requires Acyclic(cfg, lim) && w in cfg.workflows && i < |cfg.workflows[w]|
    requires forall g | g in gotos :: LeadsForward(cfg.workflows[w], i, g)
    requires goto in gotos && FindStep(cfg.workflows[w], goto).Some?
    ensures Cost(cfg, lim, w, FindStep(cfg.workflows[w], goto).value) <= GotoCost(cfg, lim, w, i, gotos)
    decreases |gotos|
  {
    if goto != gotos[0] {
      GotoCovers(cfg, lim, w, i, gotos[1..], goto);
    }
  }

  // ---- The budget ----------------------------------------------------------

  /** Deliveries this job can still have. */
  function Remaining(job: Job): nat {
    AtLeastOne(job.maxAttempts - job.attempt + if job.status == Running then 1 else 0)
  }

  /** What a live job can still cause, its run's later steps included. */
  ghost function JobBudget(cfg: Config, lim: Limits, job: Job): nat
    requires Acyclic(cfg, lim) && job.workflow in cfg.workflows && job.stepIndex < |cfg.workflows[job.workflow]|
  {
    if !Live(job) then 0
    else if job.branch.Some? then Remaining(job)
    else if job.status == Waiting then LeaveCost(cfg, lim, job.workflow, job.stepIndex)
    else
      Onward(cfg, lim, job.workflow, job.stepIndex)
      + if cfg.workflows[job.workflow][job.stepIndex].kind.Http? then Remaining(job)
        else StepCost(cfg, lim, job.workflow, job.stepIndex)
  }

  ghost function JoinBudget(cfg: Config, lim: Limits, s: State, r: nat): nat
    requires Acyclic(cfg, lim) && Shape(cfg, s) && r < |s.runs|
  {
    var at := FindStep(StepsOf(cfg, s, r), s.runs[r].currentStep);
    if s.runs[r].parallelStep.Some? && at.Some? then LeaveCost(cfg, lim, s.runs[r].workflow, at.value) else 0
  }

  /** What follows the sub-workflow step at which the parent of `r` waits. */
  ghost function ParentCost(cfg: Config, lim: Limits, s: State, r: nat): nat
    requires Acyclic(cfg, lim) && Shape(cfg, s) && r < |s.runs|
  {
    match s.runs[r].parent
    case None => 0
    case Some(p) => Cost(cfg, lim, s.runs[p.run].workflow, p.stepIndex + 1)
  }

  ghost function ParentBudget(cfg: Config, lim: Limits, s: State, r: nat): nat
    requires Acyclic(cfg, lim) && Shape(cfg, s) && r < |s.runs|
  {
    if s.runs[r].status == Completed then 0 else ParentCost(cfg, lim, s, r)
  }

  ghost function JobsBudget(cfg: Config, lim: Limits, jobs: seq<Job>): nat
    requires Acyclic(cfg, lim)
    requires forall j :: 0 <= j < |jobs| ==> jobs[j].workflow in cfg.workflows && jobs[j].stepIndex < |cfg.workflows[jobs[j].workflow]|
  {
    if |jobs| == 0 then 0 else JobsBudget(cfg, lim, jobs[..|jobs| - 1]) + JobBudget(cfg, lim, jobs[|jobs| - 1])
  }

  /** What run `r`'s row keeps. */
  ghost function RowBudget(cfg: Config, lim: Limits, s: State, r: nat): nat
    requires Acyclic(cfg, lim) && Shape(cfg, s) && r < |s.runs|
  {
    JoinBudget(cfg, lim, s, r) + ParentBudget(cfg, lim, s, r)
  }

  function Sum(xs: seq<nat>): nat {
    if |xs| == 0 then 0 else Sum(xs[..|xs| - 1]) + xs[|xs| - 1]
  }

  ghost function RowBudgets(cfg: Config, lim: Limits, s: State, n: nat): (xs: seq<nat>)
    requires Acyclic(cfg, lim) && Shape(cfg, s) && n <= |s.runs|
    ensures |xs| == n && forall q :: 0 <= q < n ==> xs[q] == RowBudget(cfg, lim, s, q)
  {
    seq(n, q requires 0 <= q < n => RowBudget(cfg, lim, s, q))
  }

  ghost function RunsBudget(cfg: Config, lim: Limits, s: State, n: nat): nat
    requires Acyclic(cfg, lim) && Shape(cfg, s) && n <= |s.runs|
  {
    Sum(RowBudgets(cfg, lim, s, n))
  }

  lemma {:induction false} SumUpdate(xs: seq<nat>, ys: seq<nat>, r: nat)
    requires |xs| == |ys| && forall q :: 0 <= q < |xs| && q != r ==> ys[q] == xs[q]
    ensures Sum(ys) + (if r < |xs| then xs[r] else 0) == Sum(xs) + if r < |xs| then ys[r] else 0
    decreases |xs|
  {
    if |xs| > 0 {
      var n := |xs| - 1;
      SumUpdate(xs[..n], ys[..n], r);
      if r == n {
        assert xs[..n] == ys[..n];
      }
    }
  }

  /** All deliveries that the rows of the tables can still cause. */
  ghost function Budget(cfg: Config, lim: Limits, s: State): nat
    requires Acyclic(cfg, lim) && Shape(cfg, s)
  {
    JobsBudget(cfg, lim, s.jobs) + RunsBudget(cfg, lim, s, |s.runs|)
  }

  lemma {:induction false} JobsBudgetUpdate(cfg: Config, lim: Limits, jobs: seq<Job>, k: nat, j: Job)
    requires Acyclic(cfg, lim) && k < |jobs|
    requires forall j :: 0 <= j < |jobs| ==> jobs[j].workflow in cfg.workflows && jobs[j].stepIndex < |cfg.workflows[jobs[j].workflow]|
    requires j.workflow == jobs[k].workflow && j.stepIndex == jobs[k].stepIndex
    ensures JobsBudget(cfg, lim, jobs[k := j]) == JobsBudget(cfg, lim, jobs) - JobBudget(cfg, lim, jobs[k]) + JobBudget(cfg, lim, j)
  {
    var n := |jobs| - 1;
    if k == n {
      assert jobs[k := j][..n] == jobs[..n];
    } else {
      assert jobs[k := j][..n] == jobs[..n][k := j];
      JobsBudgetUpdate(cfg, lim, jobs[..n], k, j);
    }
  }

  lemma JobsBudgetAppendOne(cfg: Config, lim: Limits, jobs: seq<Job>, j: Job)
    requires Acyclic(cfg, lim) && j.workflow in cfg.workflows && j.stepIndex < |cfg.workflows[j.workflow]|
    requires forall j :: 0 <= j < |jobs| ==> jobs[j].workflow in cfg.workflows && jobs[j].stepIndex < |cfg.workflows[jobs[j].workflow]|
    ensures JobsBudget(cfg, lim, jobs + [j]) == JobsBudget(cfg, lim, jobs) + JobBudget(cfg, lim, j)
  {
    assert (jobs + [j])[..|jobs|] == jobs;
  }

  lemma {:induction false} JobsBudgetAppendFork(cfg: Config, lim: Limits, jobs: seq<Job>, w: string, r: nat, i: nat, names: seq<string>)
    requires Acyclic(cfg, lim) && w in cfg.workflows && i < |cfg.workflows[w]|
    requires forall j :: 0 <= j < |jobs| ==> jobs[j].workflow in cfg.workflows && jobs[j].stepIndex < |cfg.workflows[jobs[j].workflow]|
    ensures JobsBudget(cfg, lim, jobs + BranchJobs(cfg, w, r, i, names))
         == JobsBudget(cfg, lim, jobs) + ForkCost(cfg, w, i, |names|)
  {
    var forked := BranchJobs(cfg, w, r, i, names);
    if |names| == 0 {
      assert jobs + forked == jobs;
    } else {
      var n := |names| - 1;
      var fewer := jobs + BranchJobs(cfg, w, r, i, names[..n]);
      assert jobs + forked == fewer + [forked[n]];
      assert forall j :: 0 <= j < |fewer| ==> fewer[j] == (jobs + forked)[j];
      JobsBudgetAppendFork(cfg, lim, jobs, w, r, i, names[..n]);
      JobsBudgetAppendOne(cfg, lim, fewer, forked[n]);
    }
  }

  /** One for each branch and attempt. */
  lemma {:induction false} ForkCostIsProduct(cfg: Config, w: string, i: nat, n: nat)
    requires w in cfg.workflows && i < |cfg.workflows[w]|
    ensures ForkCost(cfg, w, i, n) == n * AtLeastOne(MaxAttempts(cfg, cfg.workflows[w][i]))
  {
    if n > 0 {
      ForkCostIsProduct(cfg, w, i, n - 1);
    }
  }

  lemma {:induction false} ForkCostMonotone(cfg: Config, w: string, i: nat, n: nat, m: nat)
    requires w in cfg.workflows && i < |cfg.workflows[w]| && n <= m
    ensures ForkCost(cfg, w, i, n) <= ForkCost(cfg, w, i, m)
  {
    if n < m {
      ForkCostMonotone(cfg, w, i, n, m - 1);
    }
  }

  ghost predicate SameBudgetRow(s: State, t: State, q: nat)
    requires q < |s.runs| && q < |t.runs|
  {
    && t.runs[q].currentStep == s.runs[q].currentStep
    && t.runs[q].parallelStep == s.runs[q].parallelStep
    && t.runs[q].status == s.runs[q].status
  }

  lemma SameRunBudget(cfg: Config, lim: Limits, s: State, t: State, q: nat)
    requires Acyclic(cfg, lim) && Shape(cfg, s) && Shape(cfg, t) && Extends(s, t) && q < |s.runs|
    requires SameBudgetRow(s, t, q)
    ensures JoinBudget(cfg, lim, t, q) == JoinBudget(cfg, lim, s, q)
    ensures ParentBudget(cfg, lim, t, q) == ParentBudget(cfg, lim, s, q)
  {
    assert t.runs[q].workflow == s.runs[q].workflow && t.runs[q].parent == s.runs[q].parent;
  }

  /** Only run `r`'s row counts differently in `t`. */
  lemma RunsBudgetChange(cfg: Config, lim: Limits, s: State, t: State, n: nat, r: nat)
    requires Acyclic(cfg, lim) && Shape(cfg, s) && Shape(cfg, t) && Extends(s, t) && n <= |s.runs| && r < |s.runs|
    requires forall q: nat :: q < n && q != r ==> SameBudgetRow(s, t, q)
    ensures RunsBudget(cfg, lim, t, n) == RunsBudget(cfg, lim, s, n)
      + if r < n then RowBudget(cfg, lim, t, r) - RowBudget(cfg, lim, s, r) else 0
  {
    forall q | 0 <= q < n && q != r
      ensures RowBudget(cfg, lim, t, q) == RowBudget(cfg, lim, s, q)
    {
      SameRunBudget(cfg, lim, s, t, q);
    }
    SumUpdate(RowBudgets(cfg, lim, s, n), RowBudgets(cfg, lim, t, n), r);
  }

  // ---- What each statement costs -------------------------------------------

  lemma BudgetRow(cfg: Config, lim: Limits, s: State, t: State, k: nat)
    requires Acyclic(cfg, lim) && Shape(cfg, s) && Shape(cfg, t) && t.runs == s.runs && k < |s.jobs| == |t.jobs|
    requires t.jobs == s.jobs[k := t.jobs[k]]
    requires t.jobs[k].workflow == s.jobs[k].workflow && t.jobs[k].stepIndex == s.jobs[k].stepIndex
    ensures Budget(cfg, lim, t) == Budget(cfg, lim, s) - JobBudget(cfg, lim, s.jobs[k]) + JobBudget(cfg, lim, t.jobs[k])
  {
    JobsBudgetUpdate(cfg, lim, s.jobs, k, t.jobs[k]);
    SameRuns(cfg, lim, s, t, |s.runs|);
  }

  lemma SameRuns(cfg: Config, lim: Limits, s: State, t: State, n: nat)
    requires Acyclic(cfg, lim) && Shape(cfg, s) && Shape(cfg, t) && n <= |s.runs| <= |t.runs| && t.runs[..|s.runs|] == s.runs
    ensures RunsBudget(cfg, lim, t, n) == RunsBudget(cfg, lim, s, n)
  {
    forall q | 0 <= q < n
      ensures RowBudget(cfg, lim, t, q) == RowBudget(cfg, lim, s, q)
    {
      SameRow(cfg, lim, s, t, q);
    }
    assert RowBudgets(cfg, lim, t, n) == RowBudgets(cfg, lim, s, n);
  }

  lemma SameRow(cfg: Config, lim: Limits, s: State, t: State, q: nat)
    requires Acyclic(cfg, lim) && Shape(cfg, s) && Shape(cfg, t) && q < |s.runs| <= |t.runs| && t.runs[..|s.runs|] == s.runs
    ensures RowBudget(cfg, lim, t, q) == RowBudget(cfg, lim, s, q)
  {
    assert t.runs[q] == t.runs[..|s.runs|][q];
    if s.runs[q].parent.Some? {
      var p := s.runs[q].parent.value.run;
      assert ParentShape(cfg, s.runs, q, s.runs[q].parent.value);
      assert t.runs[p] == t.runs[..|s.runs|][p];
    }
  }

  lemma BudgetEnter(cfg: Config, lim: Limits, s: State, r: nat, i: nat)
    requires Acyclic(cfg, lim) && Shape(cfg, s) && r < |s.runs| && i < |StepsOf(cfg, s, r)| && s.runs[r].parallelStep.None?
    ensures Budget(cfg, lim, Enter(cfg, s, r, i)) == Budget(cfg, lim, s) + Cost(cfg, lim, s.runs[r].workflow, i)
  {
    var t := Enter(cfg, s, r, i);
    assert JobsBudget(cfg, lim, t.jobs) == JobsBudget(cfg, lim, s.jobs) + Cost(cfg, lim, s.runs[r].workflow, i) by {
      JobsBudgetAppendOne(cfg, lim, s.jobs, t.jobs[|s.jobs|]);
    }
    assert RunsBudget(cfg, lim, t, |t.runs|) == RunsBudget(cfg, lim, s, |s.runs|) by {
      EnterRow(cfg, lim, s, r, i);
      RunsBudgetChange(cfg, lim, s, t, |s.runs|, r);
    }
  }

  lemma EnterRow(cfg: Config, lim: Limits, s: State, r: nat, i: nat)
    requires Acyclic(cfg, lim) && Shape(cfg, s) && r < |s.runs| && i < |StepsOf(cfg, s, r)| && s.runs[r].parallelStep.None?
    ensures
      var t := Enter(cfg, s, r, i);
      && JoinBudget(cfg, lim, t, r) == 0
      && JoinBudget(cfg, lim, s, r) == 0
      && ParentBudget(cfg, lim, t, r) == ParentBudget(cfg, lim, s, r)
      && |t.runs| == |s.runs|
      && forall q: nat :: q < |s.runs| && q != r ==> SameBudgetRow(s, t, q)
  {
  }

  lemma BudgetStatus(cfg: Config, lim: Limits, s: State, r: nat, status: RunStatus)
    requires Acyclic(cfg, lim) && Shape(cfg, s) && r < |s.runs| && s.runs[r].status != Completed
    ensures Budget(cfg, lim, SetRunStatus(cfg, s, r, status))
         == Budget(cfg, lim, s) - if status == Completed then ParentBudget(cfg, lim, s, r) else 0
  {
    StatusRow(cfg, lim, s, r, status);
    RunsBudgetChange(cfg, lim, s, SetRunStatus(cfg, s, r, status), |s.runs|, r);
  }

  lemma StatusRow(cfg: Config, lim: Limits, s: State, r: nat, status: RunStatus)
    requires Acyclic(cfg, lim) && Shape(cfg, s) && r < |s.runs| && s.runs[r].status != Completed
    ensures
      var t := SetRunStatus(cfg, s, r, status);
      && RowBudget(cfg, lim, t, r) == RowBudget(cfg, lim, s, r) - (if status == Completed then ParentBudget(cfg, lim, s, r) else 0)
      && forall q: nat :: q < |s.runs| && q != r ==> SameBudgetRow(s, t, q)
  {
    var t := SetRunStatus(cfg, s, r, status);
    if s.runs[r].parent.Some? {
      assert ParentShape(cfg, s.runs, r, s.runs[r].parent.value);
    }
  }

  lemma BudgetParallel(cfg: Config, lim: Limits, s: State, r: nat, step: Option<string>, count: nat, completed: nat)
    requires Acyclic(cfg, lim) && Shape(cfg, s) && r < |s.runs|
    ensures
      var t := SetParallel(cfg, s, r, step, count, completed);
      Budget(cfg, lim, t) == Budget(cfg, lim, s) + JoinBudget(cfg, lim, t, r) - JoinBudget(cfg, lim, s, r)
  {
    RunsBudgetChange(cfg, lim, s, SetParallel(cfg, s, r, step, count, completed), |s.runs|, r);
  }

  lemma BudgetFork(cfg: Config, lim: Limits, s: State, r: nat, i: nat, names: seq<string>)
    requires Acyclic(cfg, lim) && Shape(cfg, s) && r < |s.runs| && i < |StepsOf(cfg, s, r)|
    requires s.runs[r].parallelStep.None? && StandsAt(cfg, s, r, i)
    ensures Budget(cfg, lim, Fork(cfg, s, r, i, names))
         == Budget(cfg, lim, s) + ForkCost(cfg, s.runs[r].workflow, i, |names|) + LeaveCost(cfg, lim, s.runs[r].workflow, i)
  {
    var t := Fork(cfg, s, r, i, names);
    assert JobsBudget(cfg, lim, t.jobs) == JobsBudget(cfg, lim, s.jobs) + ForkCost(cfg, s.runs[r].workflow, i, |names|) by {
      JobsBudgetAppendFork(cfg, lim, s.jobs, s.runs[r].workflow, r, i, names);
    }
    assert RunsBudget(cfg, lim, t, |t.runs|) == RunsBudget(cfg, lim, s, |s.runs|) + LeaveCost(cfg, lim, s.runs[r].workflow, i) by {
      ForkRow(cfg, lim, s, r, i, names);
      RunsBudgetChange(cfg, lim, s, t, |s.runs|, r);
    }
  }

  lemma ForkRow(cfg: Config, lim: Limits, s: State, r: nat, i: nat, names: seq<string>)
    requires Acyclic(cfg, lim) && Shape(cfg, s) && r < |s.runs| && i < |StepsOf(cfg, s, r)|
    requires s.runs[r].parallelStep.None? && StandsAt(cfg, s, r, i)
    ensures
      var t := Fork(cfg, s, r, i, names);
      && JoinBudget(cfg, lim, t, r) == LeaveCost(cfg, lim, s.runs[r].workflow, i)
      && JoinBudget(cfg, lim, s, r) == 0
      && ParentBudget(cfg, lim, t, r) == ParentBudget(cfg, lim, s, r)
      && |t.runs| == |s.runs|
      && forall q: nat :: q < |s.runs| && q != r ==> SameBudgetRow(s, t, q)
  {
  }

  lemma BudgetAwait(cfg: Config, lim: Limits, s: State, r: nat, i: nat)
    requires Acyclic(cfg, lim) && Shape(cfg, s) && r < |s.runs| && i < |StepsOf(cfg, s, r)|
    ensures Budget(cfg, lim, Await(cfg, s, r, i)) == Budget(cfg, lim, s) + LeaveCost(cfg, lim, s.runs[r].workflow, i)
  {
    var t := Await(cfg, s, r, i);
    JobsBudgetAppendOne(cfg, lim, s.jobs, t.jobs[|s.jobs|]);
    SameRuns(cfg, lim, s, t, |s.runs|);
  }

  lemma BudgetLaunch(cfg: Config, lim: Limits, s: State, w: string, deadline: Option<nat>, parent: Option<Parent>)
    requires Acyclic(cfg, lim) && Shape(cfg, s) && w in cfg.workflows
    requires parent.Some? ==> parent.value.run < |s.runs| && parent.value.stepIndex < |StepsOf(cfg, s, parent.value.run)|
    ensures Budget(cfg, lim, Launch(cfg, s, w, deadline, parent))
         == Budget(cfg, lim, s) + Cost(cfg, lim, w, 0)
          + if parent.Some? then Cost(cfg, lim, s.runs[parent.value.run].workflow, parent.value.stepIndex + 1) else 0
  {
    var t := Launch(cfg, s, w, deadline, parent);
    assert JobsBudget(cfg, lim, t.jobs) == JobsBudget(cfg, lim, s.jobs) + Cost(cfg, lim, w, 0) by {
      JobsBudgetAppendOne(cfg, lim, s.jobs, t.jobs[|s.jobs|]);
    }
    LaunchRow(cfg, lim, s, w, deadline, parent);
    assert RunsBudget(cfg, lim, t, |s.runs|) == RunsBudget(cfg, lim, s, |s.runs|) by {
      assert t.runs[..|s.runs|] == s.runs;
      SameRuns(cfg, lim, s, t, |s.runs|);
    }
    OneRunMore(cfg, lim, t);
  }

  lemma OneRunMore(cfg: Config, lim: Limits, t: State)
    requires Acyclic(cfg, lim) && Shape(cfg, t) && |t.runs| > 0
    ensures
      var n := |t.runs| - 1;
      RunsBudget(cfg, lim, t, |t.runs|) == RunsBudget(cfg, lim, t, n) + RowBudget(cfg, lim, t, n)
  {
    assert RowBudgets(cfg, lim, t, |t.runs|)[..|t.runs| - 1] == RowBudgets(cfg, lim, t, |t.runs| - 1);
  }

  lemma LaunchRow(cfg: Config, lim: Limits, s: State, w: string, deadline: Option<nat>, parent: Option<Parent>)
    requires Acyclic(cfg, lim) && Shape(cfg, s) && w in cfg.workflows
    requires parent.Some? ==> parent.value.run < |s.runs| && parent.value.stepIndex < |StepsOf(cfg, s, parent.value.run)|
    ensures
      var t := Launch(cfg, s, w, deadline, parent);
      && |t.runs| == |s.runs| + 1
      && JoinBudget(cfg, lim, t, |s.runs|) == 0
      && ParentBudget(cfg, lim, t, |s.runs|)
         == if parent.Some? then Cost(cfg, lim, s.runs[parent.value.run].workflow, parent.value.stepIndex + 1) else 0
  {
  }

  /** Leaving a step spends at most what the later steps cost. */
  lemma {:induction false} BudgetAdvance(cfg: Config, lim: Limits, s: State, r: nat, i: nat)
    requires Acyclic(cfg, lim) && r < |s.runs| && InvBut(cfg, s, Some(r)) && i < |StepsOf(cfg, s, r)|
    ensures Budget(cfg, lim, Advance(cfg, s, r, i)) <= Budget(cfg, lim, s) + Cost(cfg, lim, s.runs[r].workflow, i + 1)
    decreases r, 2
  {
    assert NoToken(s, r);
    if i + 1 < |StepsOf(cfg, s, r)| {
      BudgetEnter(cfg, lim, s, r, i + 1);
    } else {
      BudgetFinish(cfg, lim, s, r);
    }
  }

  lemma {:induction false} BudgetFinish(cfg: Config, lim: Limits, s: State, r: nat)
    requires Acyclic(cfg, lim) && r < |s.runs| && InvBut(cfg, s, Some(r))
    ensures Budget(cfg, lim, ResumeParent(cfg, SetRunStatus(cfg, s, r, Completed), r)) <= Budget(cfg, lim, s)
    decreases r, 1
  {
    var done := SetRunStatus(cfg, s, r, Completed);
    BudgetCompleted(cfg, lim, s, r);
    CompleteMovesHole(cfg, s, r);
    BudgetResume(cfg, lim, done, r, Budget(cfg, lim, s));
  }

  lemma {:induction false} BudgetResume(cfg: Config, lim: Limits, done: State, r: nat, budget: nat)
    requires Acyclic(cfg, lim) && Shape(cfg, done) && r < |done.runs|
    requires done.runs[r].parent.Some? ==> InvBut(cfg, done, Some(done.runs[r].parent.value.run))
    requires Budget(cfg, lim, done) + ParentCost(cfg, lim, done, r) <= budget
    ensures Budget(cfg, lim, ResumeParent(cfg, done, r)) <= budget
    decreases r, 0
  {
    if done.runs[r].parent.Some? {
      var p := done.runs[r].parent.value;
      assert ParentShape(cfg, done.runs, r, p);
      assert Budget(cfg, lim, Advance(cfg, done, p.run, p.stepIndex)) <= Budget(cfg, lim, done) + ParentCost(cfg, lim, done, r) by {
        BudgetAdvance(cfg, lim, done, p.run, p.stepIndex);
      }
    }
  }

  /** Completing a run frees what it kept for its parent's later steps. */
  lemma BudgetCompleted(cfg: Config, lim: Limits, s: State, r: nat)
    requires Acyclic(cfg, lim) && r < |s.runs| && InvBut(cfg, s, Some(r))
    ensures
      var done := SetRunStatus(cfg, s, r, Completed);
      Budget(cfg, lim, done) + ParentCost(cfg, lim, done, r) == Budget(cfg, lim, s)
  {
    assert NoToken(s, r);
    BudgetStatus(cfg, lim, s, r, Completed);
    SameParentCost(cfg, lim, s, r);
  }

  lemma SameParentCost(cfg: Config, lim: Limits, s: State, r: nat)
    requires Acyclic(cfg, lim) && Shape(cfg, s) && r < |s.runs|
    ensures ParentCost(cfg, lim, SetRunStatus(cfg, s, r, Completed), r) == ParentCost(cfg, lim, s, r)
  {
    if s.runs[r].parent.Some? {
      assert ParentShape(cfg, s.runs, r, s.runs[r].parent.value);
    }
  }

  lemma BudgetLeave(cfg: Config, lim: Limits, s: State, r: nat, i: nat)
    requires Acyclic(cfg, lim) && r < |s.runs| && InvBut(cfg, s, Some(r)) && i < |StepsOf(cfg, s, r)|
    ensures Budget(cfg, lim, Leave(cfg, s, r, i)) <= Budget(cfg, lim, s) + LeaveCost(cfg, lim, s.runs[r].workflow, i)
  {
    if StepsOf(cfg, s, r)[i].end {
      BudgetFinish(cfg, lim, s, r);
    } else {
      BudgetAdvance(cfg, lim, s, r, i);
    }
  }

  // ---- What each event costs -----------------------------------------------

  /** Finishing a live job frees its whole budget. */
  lemma BudgetTake(cfg: Config, lim: Limits, s: State, j: nat, status: JobStatus, output: Option<string>)
    requires Acyclic(cfg, lim) && Shape(cfg, s) && j < |s.jobs| && (status == Done || status == Dead)
    ensures Budget(cfg, lim, SaveOutput(cfg, SetStatus(cfg, s, j, status), j, output))
         == Budget(cfg, lim, s) - JobBudget(cfg, lim, s.jobs[j])
  {
    var t := SaveOutput(cfg, SetStatus(cfg, s, j, status), j, output);
    assert t.jobs == s.jobs[j := t.jobs[j]];
    BudgetRow(cfg, lim, s, t, j);
  }

  lemma BudgetTokenSuccess(cfg: Config, lim: Limits, s: State, j: nat, body: Option<string>, now: nat)
    requires Acyclic(cfg, lim) && Inv(cfg, s) && j < |s.jobs| && s.jobs[j].status == Running && s.jobs[j].branch.None?
    requires cfg.workflows[s.jobs[j].workflow][s.jobs[j].stepIndex].kind.Http?
    ensures Budget(cfg, lim, StepSuccess(cfg, SetStatus(cfg, s, j, Done), j, body, now)) < Budget(cfg, lim, s)
  {
    var r, i := s.jobs[j].run, s.jobs[j].stepIndex;
    var t := SaveOutput(cfg, SetStatus(cfg, s, j, Done), j, body);
    assert Budget(cfg, lim, t) + LeaveCost(cfg, lim, s.jobs[j].workflow, i) < Budget(cfg, lim, s) by {
      BudgetTake(cfg, lim, s, j, Done, body);
    }
    TakeToken(cfg, s, j, Done, body);
    if Expired(s.runs[r], now) {
      assert NoToken(t, r);
      BudgetStatus(cfg, lim, t, r, Failed);
    } else {
      BudgetLeave(cfg, lim, t, r, i);
    }
  }

  lemma BudgetCounted(cfg: Config, lim: Limits, s: State, j: nat, body: Option<string>)
    requires Acyclic(cfg, lim) && Shape(cfg, s) && j < |s.jobs| && s.jobs[j].status == Running && s.jobs[j].branch.Some?
    ensures Budget(cfg, lim, Counted(cfg, s, j, body)) < Budget(cfg, lim, s)
  {
    var saved := SaveOutput(cfg, SetStatus(cfg, s, j, Done), j, body);
    BudgetFinished(cfg, lim, s, j, body);
    assert Counted(cfg, s, j, body) == SetParallel(cfg, saved, s.jobs[j].run, s.runs[s.jobs[j].run].parallelStep,
                                                   s.runs[s.jobs[j].run].parallelCount, s.runs[s.jobs[j].run].parallelCompleted + 1);
    assert saved.runs == s.runs by {
      FinishedRow(cfg, s, j, body);
    }
    BudgetIncrement(cfg, lim, saved, s.jobs[j].run, s.runs[s.jobs[j].run].parallelCompleted + 1);
  }

  lemma BudgetIncrement(cfg: Config, lim: Limits, s: State, r: nat, completed: nat)
    requires Acyclic(cfg, lim) && Shape(cfg, s) && r < |s.runs|
    ensures Budget(cfg, lim, SetParallel(cfg, s, r, s.runs[r].parallelStep, s.runs[r].parallelCount, completed)) == Budget(cfg, lim, s)
  {
    BudgetParallel(cfg, lim, s, r, s.runs[r].parallelStep, s.runs[r].parallelCount, completed);
  }

  /** Closing the join frees what the run kept for its later steps. */
  lemma BudgetJoined(cfg: Config, lim: Limits, s: State, j: nat, body: Option<string>)
    requires Acyclic(cfg, lim) && Inv(cfg, s) && j < |s.jobs| && s.jobs[j].status == Running && s.jobs[j].branch.Some?
    requires s.runs[s.jobs[j].run].status == InProgress
    ensures Budget(cfg, lim, Joined(cfg, s, j, body)) + LeaveCost(cfg, lim, s.jobs[j].workflow, s.jobs[j].stepIndex) < Budget(cfg, lim, s)
  {
    var r := s.jobs[j].run;
    var saved := SaveOutput(cfg, SetStatus(cfg, s, j, Done), j, body);
    BudgetClosed(cfg, lim, saved, r);
    BudgetFinished(cfg, lim, s, j, body);
    SavedKeepsJoin(cfg, lim, s, j, body);
    JoinKeeps(cfg, lim, s, j);
  }

  lemma BudgetFinished(cfg: Config, lim: Limits, s: State, j: nat, body: Option<string>)
    requires Acyclic(cfg, lim) && Shape(cfg, s) && j < |s.jobs| && s.jobs[j].status == Running && s.jobs[j].branch.Some?
    ensures Budget(cfg, lim, SaveOutput(cfg, SetStatus(cfg, s, j, Done), j, body)) < Budget(cfg, lim, s)
  {
    BudgetTake(cfg, lim, s, j, Done, body);
  }

  lemma SavedKeepsJoin(cfg: Config, lim: Limits, s: State, j: nat, body: Option<string>)
    requires Acyclic(cfg, lim) && Shape(cfg, s) && j < |s.jobs|
    ensures JoinBudget(cfg, lim, SaveOutput(cfg, SetStatus(cfg, s, j, Done), j, body), s.jobs[j].run) == JoinBudget(cfg, lim, s, s.jobs[j].run)
  {
    FinishedRow(cfg, s, j, body);
  }

  lemma BudgetClosed(cfg: Config, lim: Limits, s: State, r: nat)
    requires Acyclic(cfg, lim) && Shape(cfg, s) && r < |s.runs|
    ensures Budget(cfg, lim, SetParallel(cfg, s, r, None, 0, 0)) == Budget(cfg, lim, s) - JoinBudget(cfg, lim, s, r)
  {
    BudgetParallel(cfg, lim, s, r, None, 0, 0);
  }

  lemma JoinKeeps(cfg: Config, lim: Limits, s: State, j: nat)
    requires Acyclic(cfg, lim) && Inv(cfg, s) && j < |s.jobs| && Live(s.jobs[j]) && s.jobs[j].branch.Some?
    requires s.runs[s.jobs[j].run].status == InProgress
    ensures JoinBudget(cfg, lim, s, s.jobs[j].run) == LeaveCost(cfg, lim, s.jobs[j].workflow, s.jobs[j].stepIndex)
  {
    LiveStandsAt(cfg, s, j);
    BranchHasJoin(cfg, s, j);
  }

  lemma LastBranchLeaves(cfg: Config, s: State, j: nat, body: Option<string>)
    requires Shape(cfg, s) && j < |s.jobs|
    requires s.runs[s.jobs[j].run].parallelCompleted + 1 >= s.runs[s.jobs[j].run].parallelCount
    ensures BranchDone(cfg, SetStatus(cfg, s, j, Done), j, body)
         == Leave(cfg, Joined(cfg, s, j, body), s.jobs[j].run, s.jobs[j].stepIndex)
  {
  }

  lemma BudgetLastBranch(cfg: Config, lim: Limits, s: State, j: nat, body: Option<string>)
    requires Acyclic(cfg, lim) && Inv(cfg, s) && j < |s.jobs| && s.jobs[j].status == Running && s.jobs[j].branch.Some?
    requires s.runs[s.jobs[j].run].parallelCompleted + 1 >= s.runs[s.jobs[j].run].parallelCount
    ensures Budget(cfg, lim, Leave(cfg, Joined(cfg, s, j, body), s.jobs[j].run, s.jobs[j].stepIndex)) < Budget(cfg, lim, s)
  {
    var r, i := s.jobs[j].run, s.jobs[j].stepIndex;
    var t := Joined(cfg, s, j, body);
    var later := LeaveCost(cfg, lim, s.jobs[j].workflow, i);
    LastBranch(cfg, s, j, body);
    assert Budget(cfg, lim, t) + later < Budget(cfg, lim, s) by {
      BudgetJoined(cfg, lim, s, j, body);
    }
    assert t.runs[r].workflow == s.jobs[j].workflow by {
      FinishedRow(cfg, s, j, body);
    }
    BudgetLeave(cfg, lim, t, r, i);
  }

  lemma BudgetBranchDone(cfg: Config, lim: Limits, s: State, j: nat, body: Option<string>)
    requires Acyclic(cfg, lim) && Inv(cfg, s) && j < |s.jobs| && s.jobs[j].status == Running && s.jobs[j].branch.Some?
    ensures Budget(cfg, lim, BranchDone(cfg, SetStatus(cfg, s, j, Done), j, body)) < Budget(cfg, lim, s)
  {
    if s.runs[s.jobs[j].run].parallelCompleted + 1 < s.runs[s.jobs[j].run].parallelCount {
      BudgetCounted(cfg, lim, s, j, body);
    } else {
      LastBranchLeaves(cfg, s, j, body);
      BudgetLastBranch(cfg, lim, s, j, body);
    }
  }

  lemma BudgetStepSuccess(cfg: Config, lim: Limits, s: State, j: nat, body: Option<string>, now: nat)
    requires Acyclic(cfg, lim) && Inv(cfg, s) && j < |s.jobs| && s.jobs[j].status == Running
    requires s.jobs[j].branch.None? ==> cfg.workflows[s.jobs[j].workflow][s.jobs[j].stepIndex].kind.Http?
    ensures Budget(cfg, lim, StepSuccess(cfg, SetStatus(cfg, s, j, Done), j, body, now)) < Budget(cfg, lim, s)
  {
    if s.jobs[j].branch.Some? {
      BudgetBranchDone(cfg, lim, s, j, body);
    } else {
      BudgetTokenSuccess(cfg, lim, s, j, body, now);
    }
  }

  lemma BudgetDies(cfg: Config, lim: Limits, s: State, j: nat)
    requires Acyclic(cfg, lim) && Inv(cfg, s) && j < |s.jobs| && s.jobs[j].status == Running
    ensures Budget(cfg, lim, SetRunStatus(cfg, SetStatus(cfg, s, j, Dead), s.jobs[j].run, Failed)) < Budget(cfg, lim, s)
  {
    assert s.runs[s.jobs[j].run].status != Completed by {
      if s.jobs[j].branch.Some? {
        BranchHasJoin(cfg, s, j);
      } else {
        JobIsToken(cfg, s, j);
      }
    }
    DeadFrees(cfg, lim, s, j);
    BudgetStatus(cfg, lim, SetStatus(cfg, s, j, Dead), s.jobs[j].run, Failed);
  }

  lemma DeadFrees(cfg: Config, lim: Limits, s: State, j: nat)
    requires Acyclic(cfg, lim) && Shape(cfg, s) && j < |s.jobs| && s.jobs[j].status == Running
    ensures Budget(cfg, lim, SetStatus(cfg, s, j, Dead)) < Budget(cfg, lim, s)
  {
    BudgetRow(cfg, lim, s, SetStatus(cfg, s, j, Dead), j);
  }

  lemma BudgetCaught(cfg: Config, lim: Limits, s: State, j: nat, goto: string)
    requires Acyclic(cfg, lim) && Shape(cfg, s) && j < |s.jobs| && s.jobs[j].status == Running && s.jobs[j].branch.None?
    requires cfg.workflows[s.jobs[j].workflow][s.jobs[j].stepIndex].kind.Http? && s.runs[s.jobs[j].run].parallelStep.None?
    requires
      var steps := cfg.workflows[s.jobs[j].workflow];
      goto in CatchGotos(steps[s.jobs[j].stepIndex].catches) && FindStep(steps, goto).Some?
    ensures
      var k := FindStep(cfg.workflows[s.jobs[j].workflow], goto).value;
      Budget(cfg, lim, Enter(cfg, SetStatus(cfg, s, j, Done), s.jobs[j].run, k)) < Budget(cfg, lim, s)
  {
    var job := s.jobs[j];
    var steps := cfg.workflows[job.workflow];
    BudgetRow(cfg, lim, s, SetStatus(cfg, s, j, Done), j);
    BudgetEnter(cfg, lim, SetStatus(cfg, s, j, Done), job.run, FindStep(steps, goto).value);
    CatchCosts(cfg, lim, job.workflow, job.stepIndex, goto);
  }

  lemma CatchCosts(cfg: Config, lim: Limits, w: string, i: nat, goto: string)
    requires Acyclic(cfg, lim) && w in cfg.workflows && i < |cfg.workflows[w]| && cfg.workflows[w][i].kind.Http?
    requires goto in CatchGotos(cfg.workflows[w][i].catches) && FindStep(cfg.workflows[w], goto).Some?
    ensures Cost(cfg, lim, w, FindStep(cfg.workflows[w], goto).value) <= Onward(cfg, lim, w, i)
  {
    assert ForwardStep(cfg.workflows[w], i);
    GotoCovers(cfg, lim, w, i, CatchGotos(cfg.workflows[w][i].catches), goto);
  }

  lemma FirstCatchGoes(catches: seq<CatchRule>, f: WorkflowConfig.Failure)
    requires FirstCatch(catches, f).Some?
    ensures FirstCatch(catches, f).value in CatchGotos(catches)
  {
    var c :| c in catches && c.goto == FirstCatch(catches, f).value;
    var k :| 0 <= k < |catches| && catches[k] == c;
    assert CatchGotos(catches)[k] == c.goto;
  }

  /** A failure under an old claim number may give the row one more attempt than it had left. */
  lemma BudgetRetry(cfg: Config, lim: Limits, s: State, j: nat, v: View)
    requires Acyclic(cfg, lim) && Shape(cfg, s) && j < |s.jobs| && s.jobs[j].status == Running
    requires s.jobs[j].branch.None? ==> cfg.workflows[s.jobs[j].workflow][s.jobs[j].stepIndex].kind.Http?
    requires v.claim < s.jobs[j].maxAttempts
    ensures
      Budget(cfg, lim, SetStatus(cfg, s, j, Retryable)) + (if v.claim == s.jobs[j].attempt then 1 else 0) <= Budget(cfg, lim, s)
  {
    BudgetRow(cfg, lim, s, SetStatus(cfg, s, j, Retryable), j);
  }

  lemma BudgetStepFailure(cfg: Config, lim: Limits, s: State, j: nat, v: View)
    requires Acyclic(cfg, lim) && Inv(cfg, s) && j < |s.jobs| && s.jobs[j].status == Running
    requires s.jobs[j].branch.None? ==> cfg.workflows[s.jobs[j].workflow][s.jobs[j].stepIndex].kind.Http?
    requires !LosesRun(cfg, s, j, v) && !Expired(s.runs[s.jobs[j].run], v.now) && v.reply.Failure?
    ensures Budget(cfg, lim, StepFailure(cfg, s, j, v.claim, v.reply.error, v.later))
          + (if v.claim == s.jobs[j].attempt then 1 else 0) <= Budget(cfg, lim, s)
  {
    var job := s.jobs[j];
    var steps := cfg.workflows[job.workflow];
    var step := steps[job.stepIndex];
    var f := v.reply.error;
    if WillRetry(step, job, v.claim, f) {
      BudgetRetry(cfg, lim, s, j, v);
    } else if FirstCatch(step.catches, f).Some? {
      assert ValidStep(cfg.workflows, job.workflow, steps, step);
      JobIsToken(cfg, s, j);
      FirstCatchGoes(step.catches, f);
      BudgetCaught(cfg, lim, s, j, FirstCatch(step.catches, f).value);
    } else if step.onFailure.Continue? {
      BudgetStepSuccess(cfg, lim, s, j, Some(ERROR_PAYLOAD), v.later);
    } else {
      BudgetDies(cfg, lim, s, j);
    }
  }

  /** `t` spends one delivery of the step at which job `j` of `s` stood. */
  ghost predicate StepSpends(cfg: Config, lim: Limits, s: State, j: nat, t: State)
    requires Acyclic(cfg, lim) && Shape(cfg, s) && Shape(cfg, t) && j < |s.jobs|
  {
    Budget(cfg, lim, t) < Budget(cfg, lim, s) + StepCost(cfg, lim, s.jobs[j].workflow, s.jobs[j].stepIndex)
                        + Onward(cfg, lim, s.jobs[j].workflow, s.jobs[j].stepIndex)
  }

  lemma BudgetInternal(cfg: Config, lim: Limits, s: State, j: nat, v: View)
    requires Acyclic(cfg, lim) && j < |s.jobs| && InvBut(cfg, s, Some(s.jobs[j].run))
    requires StandsAt(cfg, s, s.jobs[j].run, s.jobs[j].stepIndex)
    requires !cfg.workflows[s.jobs[j].workflow][s.jobs[j].stepIndex].kind.Http?
    requires cfg.workflows[s.jobs[j].workflow][s.jobs[j].stepIndex].kind.MapItems? && v.input.Json? ==> 0 < v.input.items <= lim.items
    ensures StepSpends(cfg, lim, s, j, Internal(cfg, s, j, v))
  {
    assert NoToken(s, s.jobs[j].run);
    match cfg.workflows[s.jobs[j].workflow][s.jobs[j].stepIndex].kind
    case Choice(rules, default) => BudgetChoice(cfg, lim, s, j, v);
    case Parallel(branches) => BudgetParallelStep(cfg, lim, s, j, v);
    case MapItems => BudgetMap(cfg, lim, s, j, v);
    case Wait(byTimestamp) => BudgetWait(cfg, lim, s, j, v);
    case Callback => BudgetCallbackStep(cfg, lim, s, j, v);
    case SubWorkflow(target) => BudgetSubWorkflow(cfg, lim, s, j, v);
  }

  lemma BudgetWait(cfg: Config, lim: Limits, s: State, j: nat, v: View)
    requires Acyclic(cfg, lim) && j < |s.jobs| && InvBut(cfg, s, Some(s.jobs[j].run))
    requires cfg.workflows[s.jobs[j].workflow][s.jobs[j].stepIndex].kind.Wait?
    ensures StepSpends(cfg, lim, s, j, Internal(cfg, s, j, v))
  {
    var w, r, i := s.jobs[j].workflow, s.jobs[j].run, s.jobs[j].stepIndex;
    WaitMoves(cfg, s, j, v);
    assert Budget(cfg, lim, Advance(cfg, s, r, i)) <= Budget(cfg, lim, s) + Cost(cfg, lim, w, i + 1) by {
      BudgetAdvance(cfg, lim, s, r, i);
    }
    OnwardOfWait(cfg, lim, w, i);
  }

  lemma WaitMoves(cfg: Config, s: State, j: nat, v: View)
    requires Shape(cfg, s) && j < |s.jobs| && cfg.workflows[s.jobs[j].workflow][s.jobs[j].stepIndex].kind.Wait?
    ensures Internal(cfg, s, j, v) == Advance(cfg, s, s.jobs[j].run, s.jobs[j].stepIndex) || Internal(cfg, s, j, v) == s
  {
  }

  lemma OnwardOfWait(cfg: Config, lim: Limits, w: string, i: nat)
    requires Acyclic(cfg, lim) && w in cfg.workflows && i < |cfg.workflows[w]|
    requires cfg.workflows[w][i].kind.Wait? || cfg.workflows[w][i].kind.SubWorkflow?
    ensures Onward(cfg, lim, w, i) == Cost(cfg, lim, w, i + 1)
  {
  }

  lemma BudgetParallelStep(cfg: Config, lim: Limits, s: State, j: nat, v: View)
    requires Acyclic(cfg, lim) && j < |s.jobs| && Shape(cfg, s) && NoToken(s, s.jobs[j].run)
    requires StandsAt(cfg, s, s.jobs[j].run, s.jobs[j].stepIndex)
    requires cfg.workflows[s.jobs[j].workflow][s.jobs[j].stepIndex].kind.Parallel?
    ensures StepSpends(cfg, lim, s, j, Internal(cfg, s, j, v))
  {
    var i := s.jobs[j].stepIndex;
    BudgetFork(cfg, lim, s, s.jobs[j].run, i, cfg.workflows[s.jobs[j].workflow][i].kind.branches);
  }

  lemma BudgetCallbackStep(cfg: Config, lim: Limits, s: State, j: nat, v: View)
    requires Acyclic(cfg, lim) && j < |s.jobs| && Shape(cfg, s) && NoToken(s, s.jobs[j].run)
    requires cfg.workflows[s.jobs[j].workflow][s.jobs[j].stepIndex].kind.Callback?
    ensures StepSpends(cfg, lim, s, j, Internal(cfg, s, j, v))
  {
    BudgetAwait(cfg, lim, s, s.jobs[j].run, s.jobs[j].stepIndex);
  }

  lemma BudgetSubWorkflow(cfg: Config, lim: Limits, s: State, j: nat, v: View)
    requires Acyclic(cfg, lim) && j < |s.jobs| && Shape(cfg, s) && NoToken(s, s.jobs[j].run)
    requires cfg.workflows[s.jobs[j].workflow][s.jobs[j].stepIndex].kind.SubWorkflow?
    ensures StepSpends(cfg, lim, s, j, Internal(cfg, s, j, v))
  {
    var r, i := s.jobs[j].run, s.jobs[j].stepIndex;
    BudgetLaunch(cfg, lim, s, cfg.workflows[s.jobs[j].workflow][i].kind.target, None, Some(Parent(r, i)));
    OnwardOfWait(cfg, lim, s.jobs[j].workflow, i);
  }

  lemma BudgetMap(cfg: Config, lim: Limits, s: State, j: nat, v: View)
    requires Acyclic(cfg, lim) && j < |s.jobs| && Shape(cfg, s) && NoToken(s, s.jobs[j].run)
    requires StandsAt(cfg, s, s.jobs[j].run, s.jobs[j].stepIndex)
    requires cfg.workflows[s.jobs[j].workflow][s.jobs[j].stepIndex].kind.MapItems?
    requires v.input.Json? ==> 0 < v.input.items <= lim.items
    ensures StepSpends(cfg, lim, s, j, Internal(cfg, s, j, v))
  {
    if v.input.Json? {
      BudgetFork(cfg, lim, s, s.jobs[j].run, s.jobs[j].stepIndex, ItemNames(v.input.items));
      ForkCostMonotone(cfg, s.jobs[j].workflow, s.jobs[j].stepIndex, v.input.items, lim.items);
    }
  }

  lemma ChoiceCosts(cfg: Config, lim: Limits, w: string, i: nat, holds: set<string>)
    requires Acyclic(cfg, lim) && w in cfg.workflows && i < |cfg.workflows[w]| && cfg.workflows[w][i].kind.Choice?
    requires
      var steps := cfg.workflows[w];
      var target := Target(steps[i].kind.rules, steps[i].kind.default, holds);
      target.Some? && FindStep(steps, target.value).Some?
    ensures
      var steps := cfg.workflows[w];
      var target := Target(steps[i].kind.rules, steps[i].kind.default, holds).value;
      Cost(cfg, lim, w, FindStep(steps, target).value) <= Onward(cfg, lim, w, i)
  {
    var steps := cfg.workflows[w];
    var rules, default := steps[i].kind.rules, steps[i].kind.default;
    var target := Target(rules, default, holds).value;
    var gotos := RuleGotos(rules) + if default.Some? then [default.value] else [];
    assert ForwardStep(steps, i);
    if FirstHolding(rules, holds).Some? {
      var c :| c in rules && c.goto == target;
      var k :| 0 <= k < |rules| && rules[k] == c;
      assert gotos[k] == target;
    } else {
      assert gotos[|rules|] == target;
    }
    GotoCovers(cfg, lim, w, i, gotos, target);
  }

  lemma BudgetChoice(cfg: Config, lim: Limits, s: State, j: nat, v: View)
    requires Acyclic(cfg, lim) && j < |s.jobs| && Shape(cfg, s) && NoToken(s, s.jobs[j].run)
    requires cfg.workflows[s.jobs[j].workflow][s.jobs[j].stepIndex].kind.Choice?
    ensures StepSpends(cfg, lim, s, j, Internal(cfg, s, j, v))
  {
    var w, r, i := s.jobs[j].workflow, s.jobs[j].run, s.jobs[j].stepIndex;
    var steps := cfg.workflows[w];
    assert ValidStep(cfg.workflows, w, steps, steps[i]);
    var target := Target(steps[i].kind.rules, steps[i].kind.default, v.holds);
    if target.None? {
      BudgetStatus(cfg, lim, s, r, Failed);
    } else {
      BudgetEnter(cfg, lim, s, r, FindStep(steps, target.value).value);
      ChoiceCosts(cfg, lim, w, i, v.holds);
    }
  }

  /** The input of this delivery is no longer than the limit. */
  predicate WithinItems(lim: Limits, v: View) {
    v.input.Json? ==> v.input.items <= lim.items
  }

  lemma BudgetToken(cfg: Config, lim: Limits, s: State, j: nat, v: View)
    requires Acyclic(cfg, lim) && Inv(cfg, s) && j < |s.jobs| && s.jobs[j].status == Running && s.jobs[j].branch.None?
    requires !cfg.workflows[s.jobs[j].workflow][s.jobs[j].stepIndex].kind.Http? && !Expired(s.runs[s.jobs[j].run], v.now)
    requires !LosesRun(cfg, s, j, v) && WithinItems(lim, v)
    ensures Budget(cfg, lim, Internal(cfg, SetStatus(cfg, s, j, Done), j, v)) < Budget(cfg, lim, s)
  {
    var t := SetStatus(cfg, s, j, Done);
    TokenSpends(cfg, lim, s, j, v);
    TokenBudget(cfg, lim, s, j);
    assert t.jobs[j].workflow == s.jobs[j].workflow && t.jobs[j].stepIndex == s.jobs[j].stepIndex;
  }

  lemma TokenBudget(cfg: Config, lim: Limits, s: State, j: nat)
    requires Acyclic(cfg, lim) && Shape(cfg, s) && j < |s.jobs| && s.jobs[j].status == Running && s.jobs[j].branch.None?
    requires !cfg.workflows[s.jobs[j].workflow][s.jobs[j].stepIndex].kind.Http?
    ensures
      var w, i := s.jobs[j].workflow, s.jobs[j].stepIndex;
      Budget(cfg, lim, s) == Budget(cfg, lim, SetStatus(cfg, s, j, Done)) + StepCost(cfg, lim, w, i) + Onward(cfg, lim, w, i)
  {
    BudgetTake(cfg, lim, s, j, Done, None);
  }

  lemma TokenSpends(cfg: Config, lim: Limits, s: State, j: nat, v: View)
    requires Acyclic(cfg, lim) && Inv(cfg, s) && j < |s.jobs| && s.jobs[j].status == Running && s.jobs[j].branch.None?
    requires !cfg.workflows[s.jobs[j].workflow][s.jobs[j].stepIndex].kind.Http? && !Expired(s.runs[s.jobs[j].run], v.now)
    requires !LosesRun(cfg, s, j, v) && WithinItems(lim, v)
    ensures StepSpends(cfg, lim, SetStatus(cfg, s, j, Done), j, Internal(cfg, SetStatus(cfg, s, j, Done), j, v))
  {
    var t := SetStatus(cfg, s, j, Done);
    TakeToken(cfg, s, j, Done, None);
    NameStandsAt(cfg, t, s.jobs[j].run, s.jobs[j].stepIndex);
    BudgetInternal(cfg, lim, t, j, v);
  }

  lemma BudgetDeliver(cfg: Config, lim: Limits, s: State, j: nat, v: View)
    requires Acyclic(cfg, lim) && Inv(cfg, s) && j < |s.jobs| && s.jobs[j].status == Running
    requires !LosesRun(cfg, s, j, v) && WithinItems(lim, v)
    ensures Budget(cfg, lim, DeliverJob(cfg, s, j, v)) + (if v.claim == s.jobs[j].attempt then 1 else 0) <= Budget(cfg, lim, s)
  {
    var job := s.jobs[j];
    if Expired(s.runs[job.run], v.now) {
      BudgetDies(cfg, lim, s, j);
    } else if job.branch.None? && !cfg.workflows[job.workflow][job.stepIndex].kind.Http? {
      BudgetToken(cfg, lim, s, j, v);
    } else {
      match v.reply
      case Success(body) => BudgetStepSuccess(cfg, lim, s, j, body, v.later);
      case Failure(f) => BudgetStepFailure(cfg, lim, s, j, v);
    }
  }

  lemma BudgetCallback(cfg: Config, lim: Limits, s: State, token: nat, body: string)
    requires Acyclic(cfg, lim) && Inv(cfg, s)
    ensures Budget(cfg, lim, ReceiveCallback(cfg, s, token, body)) <= Budget(cfg, lim, s)
  {
    var found := FindToken(s.jobs, token);
    if found.Some? && s.jobs[found.value].status == Waiting {
      assert JobOk(cfg, s, found.value);
      BudgetWaiting(cfg, lim, s, found.value, body);
    }
  }

  lemma BudgetWaiting(cfg: Config, lim: Limits, s: State, j: nat, body: string)
    requires Acyclic(cfg, lim) && Inv(cfg, s) && j < |s.jobs| && s.jobs[j].status == Waiting && s.jobs[j].branch.None?
    ensures
      var t := SaveOutput(cfg, SetStatus(cfg, s, j, Done), j, Some(body));
      Budget(cfg, lim, Leave(cfg, t, s.jobs[j].run, s.jobs[j].stepIndex)) <= Budget(cfg, lim, s)
  {
    var r, i := s.jobs[j].run, s.jobs[j].stepIndex;
    var t := SaveOutput(cfg, SetStatus(cfg, s, j, Done), j, Some(body));
    var later := LeaveCost(cfg, lim, s.jobs[j].workflow, i);
    assert Budget(cfg, lim, t) == Budget(cfg, lim, s) - later by {
      BudgetTake(cfg, lim, s, j, Done, Some(body));
    }
    assert Budget(cfg, lim, Leave(cfg, t, r, i)) <= Budget(cfg, lim, t) + later by {
      TakeToken(cfg, s, j, Done, Some(body));
      BudgetLeave(cfg, lim, t, r, i);
    }
  }

  /** A delivery that is handled. */
  predicate Handled(s: State, e: Event) {
    e.Deliver? && e.job < |s.jobs|
  }

  /** A delivery whose copy of the row is older than the row's last claim. */
  predicate Outdated(s: State, e: Event) {
    Handled(s, e) && e.view.claim != s.jobs[e.job].attempt
  }

  ghost function Granted(cfg: Config, lim: Limits, e: Event): nat
    requires Acyclic(cfg, lim)
  {
    if e.Start? && e.workflow in cfg.workflows then Cost(cfg, lim, e.workflow, 0) else 0
  }

  lemma BudgetClaim(cfg: Config, lim: Limits, s: State, e: Event)
    requires Acyclic(cfg, lim) && Shape(cfg, s) && (e.Claim? || e.Recover?)
    ensures Budget(cfg, lim, Next(cfg, s, e)) <= Budget(cfg, lim, s)
  {
    var t := Next(cfg, s, e);
    if t != s {
      BudgetRow(cfg, lim, s, t, e.job);
    }
  }

  lemma BudgetEvent(cfg: Config, lim: Limits, s: State, e: Event)
    requires Acyclic(cfg, lim) && Inv(cfg, s) && Benign(cfg, s, e) && Timely(s, e)
    requires e.Deliver? ==> WithinItems(lim, e.view)
    ensures Budget(cfg, lim, Next(cfg, s, e)) + (if Handled(s, e) then 1 else 0)
         <= Budget(cfg, lim, s) + Granted(cfg, lim, e) + (if Outdated(s, e) then 1 else 0)
  {
    match e
    case Start(w, deadline) =>
      if w in cfg.workflows {
        BudgetLaunch(cfg, lim, s, w, deadline, None);
      }
    case Claim(j) => BudgetClaim(cfg, lim, s, e);
    case Recover(j) => BudgetClaim(cfg, lim, s, e);
    case Deliver(j, v) =>
      if j < |s.jobs| {
        BudgetDeliver(cfg, lim, s, j, v);
      }
    case CallbackReceived(token, body) => BudgetCallback(cfg, lim, s, token, body);
  }

  ghost function HandledCount(cfg: Config, s: State, events: seq<Event>): nat
    requires Shape(cfg, s)
    decreases |events|
  {
    if |events| == 0 then 0
    else (if Handled(s, events[0]) then 1 else 0) + HandledCount(cfg, Next(cfg, s, events[0]), events[1..])
  }

  ghost function OutdatedCount(cfg: Config, s: State, events: seq<Event>): nat
    requires Shape(cfg, s)
    decreases |events|
  {
    if |events| == 0 then 0
    else (if Outdated(s, events[0]) then 1 else 0) + OutdatedCount(cfg, Next(cfg, s, events[0]), events[1..])
  }

  ghost function GrantedCount(cfg: Config, lim: Limits, events: seq<Event>): nat
    requires Acyclic(cfg, lim)
  {
    if |events| == 0 then 0 else Granted(cfg, lim, events[0]) + GrantedCount(cfg, lim, events[1..])
  }

  /**
   * Over a timely history, deliveries handled, plus those still possible, never exceed the budget,
   * what starts add, and one for each delivery whose copy of the row was old.
   */
  lemma {:induction false} WorkIsBounded(cfg: Config, lim: Limits, s: State, events: seq<Event>)
    requires Acyclic(cfg, lim) && Inv(cfg, s) && TimelyRun(cfg, s, events)
    requires forall k :: 0 <= k < |events| && events[k].Deliver? ==> WithinItems(lim, events[k].view)
    ensures HandledCount(cfg, s, events) + Budget(cfg, lim, Exec(cfg, s, events))
         <= Budget(cfg, lim, s) + GrantedCount(cfg, lim, events) + OutdatedCount(cfg, s, events)
    decreases |events|
  {
    if |events| > 0 {
      BudgetEvent(cfg, lim, s, events[0]);
      EventKeepsToken(cfg, s, events[0]);
      WorkIsBounded(cfg, lim, Next(cfg, s, events[0]), events[1..]);
    }
  }

  /**
   * One start of workflow `w` on empty tables: however claims, answers, timely deliveries,
   * recoveries and callbacks interleave, at most `Cost(w, 0)` deliveries are ever handled, child
   * runs included, and one more for each delivery whose copy of the row was old.
   */
  lemma OneRunIsBounded(cfg: Config, lim: Limits, w: string, deadline: Option<nat>, events: seq<Event>)
    requires Acyclic(cfg, lim) && w in cfg.workflows
    requires TimelyRun(cfg, Next(cfg, EMPTY, Start(w, deadline)), events)
    requires forall k :: 0 <= k < |events| ==> !events[k].Start?
    requires forall k :: 0 <= k < |events| && events[k].Deliver? ==> WithinItems(lim, events[k].view)
    ensures
      var s := Next(cfg, EMPTY, Start(w, deadline));
      HandledCount(cfg, s, events) <= Cost(cfg, lim, w, 0) + OutdatedCount(cfg, s, events)
  {
    assert Inv(cfg, EMPTY);
    var e := Start(w, deadline);
    EventKeepsToken(cfg, EMPTY, e);
    BudgetEvent(cfg, lim, EMPTY, e);
    WorkIsBounded(cfg, lim, Next(cfg, EMPTY, e), events);
    NoStartsGrantNothing(cfg, lim, events);
  }

  lemma {:induction false} NoStartsGrantNothing(cfg: Config, lim: Limits, events: seq<Event>)
    requires Acyclic(cfg, lim) && forall k :: 0 <= k < |events| ==> !events[k].Start?
    ensures GrantedCount(cfg, lim, events) == 0
  {
    if |events| > 0 {
      NoStartsGrantNothing(cfg, lim, events[1..]);
    }
  }

  // ---- Late deliveries are not bounded -------------------------------------

  /** The tables after the only step of a run has been claimed and has succeeded. */
  ghost function Finished(cfg: Config, w: string, v: View): (s: State)
    requires ValidWorkflows(cfg.workflows)
    ensures Shape(cfg, s)
  {
    Next(cfg, Next(cfg, Next(cfg, EMPTY, Start(w, None)), Claim(0)), Deliver(0, v))
  }

  lemma FinishedAgain(cfg: Config, w: string, v: View)
    requires ValidWorkflows(cfg.workflows) && w in cfg.workflows && v.reply.Success?
    requires |cfg.workflows[w]| == 1 && cfg.workflows[w][0].kind.Http?
    ensures
      var s := Finished(cfg, w, v);
      && Benign(cfg, Next(cfg, Next(cfg, EMPTY, Start(w, None)), Claim(0)), Deliver(0, v))
      && |s.jobs| == 1
      && Next(cfg, s, Deliver(0, v)) == s
      && Benign(cfg, s, Deliver(0, v))
  {
    assert Inv(cfg, EMPTY);
    var s1 := Next(cfg, EMPTY, Start(w, None));
    EventKeepsToken(cfg, EMPTY, Start(w, None));
    var s2 := Next(cfg, s1, Claim(0));
    EventKeepsToken(cfg, s1, Claim(0));
    TimelyHarmless(cfg, s2, 0, v);
    EventKeepsToken(cfg, s2, Deliver(0, v));
    var s3 := Finished(cfg, w, v);
    FinishedTables(cfg, w, v);
    FinishedStays(cfg, w, s3, v);
    EventKeepsToken(cfg, s3, Deliver(0, v));
  }

  lemma FinishedTables(cfg: Config, w: string, v: View)
    requires ValidWorkflows(cfg.workflows) && w in cfg.workflows && v.reply.Success?
    requires |cfg.workflows[w]| == 1 && cfg.workflows[w][0].kind.Http?
    ensures
      var s := Finished(cfg, w, v);
      && |s.runs| == 1 && s.runs[0].workflow == w && s.runs[0].status == Completed && s.runs[0].parent.None? && s.runs[0].deadline.None?
      && |s.jobs| == 1 && s.jobs[0].status == Done && s.jobs[0].branch.None? && s.jobs[0].stepIndex == 0
      && (v.reply.body.Some? ==> s.jobs[0].output == v.reply.body)
  {
    var s2 := Next(cfg, Next(cfg, EMPTY, Start(w, None)), Claim(0));
    assert |s2.jobs| == 1 && s2.jobs[0].status == Running && s2.jobs[0].branch.None?;
  }

  /** A run of one step that is completed is completed again, and nothing changes. */
  lemma FinishedStays(cfg: Config, w: string, s: State, v: View)
    requires Shape(cfg, s) && w in cfg.workflows && v.reply.Success?
    requires |cfg.workflows[w]| == 1 && cfg.workflows[w][0].kind.Http?
    requires |s.runs| == 1 && s.runs[0].workflow == w && s.runs[0].status == Completed && s.runs[0].parent.None? && s.runs[0].deadline.None?
    requires |s.jobs| == 1 && s.jobs[0].status == Done && s.jobs[0].branch.None? && s.jobs[0].stepIndex == 0
    requires v.reply.body.Some? ==> s.jobs[0].output == v.reply.body
    ensures Next(cfg, s, Deliver(0, v)) == s
  {
    var t := Next(cfg, s, Deliver(0, v));
    assert t.runs == s.runs && t.jobs == s.jobs;
  }

  lemma {:induction false} RepeatsAreBenign(cfg: Config, s: State, v: View, n: nat)
    requires Shape(cfg, s) && |s.jobs| == 1 && Next(cfg, s, Deliver(0, v)) == s && Benign(cfg, s, Deliver(0, v))
    ensures BenignRun(cfg, s, seq(n, _ => Deliver(0, v))) && HandledCount(cfg, s, seq(n, _ => Deliver(0, v))) == n
    decreases n
  {
    if n > 0 {
      assert seq(n, _ => Deliver(0, v))[1..] == seq(n - 1, _ => Deliver(0, v));
      RepeatsAreBenign(cfg, s, v, n - 1);
    }
  }

  /**
   * The bounds are about timely histories: late deliveries of the only step of a completed run do no
   * harm and are handled as often as they come, so a benign history has no bound.
   */
  lemma LateWorkIsUnbounded(cfg: Config, w: string, v: View, n: nat)
    requires ValidWorkflows(cfg.workflows) && w in cfg.workflows && v.reply.Success?
    requires |cfg.workflows[w]| == 1 && cfg.workflows[w][0].kind.Http?
    ensures
      var s := Next(cfg, EMPTY, Start(w, None));
      var events := [Claim(0)] + ([Deliver(0, v)] + seq(n, _ => Deliver(0, v)));
      BenignRun(cfg, s, events) && HandledCount(cfg, s, events) == n + 1
  {
    var s := Next(cfg, EMPTY, Start(w, None));
    var repeats := seq(n, _ => Deliver(0, v));
    FinishedAgain(cfg, w, v);
    RepeatsAreBenign(cfg, Finished(cfg, w, v), v, n);
    assert ([Claim(0)] + ([Deliver(0, v)] + repeats))[1..] == [Deliver(0, v)] + repeats;
    assert ([Deliver(0, v)] + repeats)[1..] == repeats;
  }
}
