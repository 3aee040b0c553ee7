/**
 * The workflow engine as it works: statement after statement on the tables of runs and jobs. Each
 * handler is proved to have the effect that WorkflowModel gives for it, so what the other modules
 * prove about those functions holds of the handlers. A handler leaves early where the code returns
 * early, loops where it loops, and uses the counters that the increment statement gives back.
 */
module WorkflowEngine {
  import opened Wrappers
  import opened WorkflowConfig
  import opened WorkflowModel

  class Engine {
    const cfg: Config
    var runs: seq<Run>
    var jobs: seq<Job>

    ghost function Snapshot(): State
      reads this
    {
      State(runs, jobs)
    }

    ghost predicate Valid()
      reads this
    {
      Shape(cfg, Snapshot())
    }

    constructor (cfg: Config)
      requires ValidWorkflows(cfg.workflows)
      ensures this.cfg == cfg && Valid() && Snapshot() == EMPTY
    {
      this.cfg := cfg;
      runs, jobs := [], [];
    }

    // ---- Statements on one row ---------------------------------------------

    method MarkJob(j: nat, status: JobStatus)
      requires Valid() && j < |jobs|
      modifies this`jobs
      ensures Valid() && Snapshot() == SetStatus(cfg, old(Snapshot()), j, status)
    {
      jobs := jobs[j := jobs[j].(status := status)];
    }

    method SaveStepOutput(j: nat, output: Option<string>)
      requires Valid() && j < |jobs|
      modifies this`jobs
      ensures Valid() && Snapshot() == SaveOutput(cfg, old(Snapshot()), j, output)
    {
      if output.Some? {
        jobs := jobs[j := jobs[j].(output := output)];
      }
    }

    method MarkRun(r: nat, status: RunStatus)
      requires Valid() && r < |runs|
      modifies this`runs
      ensures Valid() && Snapshot() == SetRunStatus(cfg, old(Snapshot()), r, status)
    {
      runs := runs[r := runs[r].(status := status)];
    }

    method UpdateRunStep(r: nat, stepName: string)
      requires Valid() && r < |runs|
      modifies this`runs
      ensures Valid() && runs == old(runs)[r := old(runs)[r].(currentStep := stepName)]
    {
      runs := runs[r := runs[r].(currentStep := stepName)];
      assert Shape(cfg, old(Snapshot()));
    }

    method InsertWorkflowJob(r: nat, i: nat, branch: Option<string>)
      requires Valid() && r < |runs| && i < |StepsOf(cfg, Snapshot(), r)|
      modifies this`jobs
      ensures Valid() && jobs == old(jobs) + [NewJob(cfg, runs[r].workflow, r, i, branch)]
    {
      jobs := jobs + [NewJob(cfg, runs[r].workflow, r, i, branch)];
    }

    method SetParallelState(r: nat, step: Option<string>, count: nat)
      requires Valid() && r < |runs|
      modifies this`runs
      ensures Valid() && Snapshot() == SetParallel(cfg, old(Snapshot()), r, step, count, 0)
    {
      runs := runs[r := runs[r].(parallelStep := step, parallelCount := count, parallelCompleted := 0)];
    }

    /** One atomic statement: add one and read both columns back. */
    method IncrementParallelCompleted(r: nat) returns (completed: nat, total: nat)
      requires Valid() && r < |runs|
      modifies this`runs
      ensures Valid()
      ensures
        var run := old(runs)[r];
        Snapshot() == SetParallel(cfg, old(Snapshot()), r, run.parallelStep, run.parallelCount, run.parallelCompleted + 1)
      ensures completed == old(runs)[r].parallelCompleted + 1 && total == old(runs)[r].parallelCount
    {
      runs := runs[r := runs[r].(parallelCompleted := runs[r].parallelCompleted + 1)];
      completed, total := runs[r].parallelCompleted, runs[r].parallelCount;
    }

    // ---- Moving a run ------------------------------------------------------

    method EnterStep(r: nat, i: nat)
      requires Valid() && r < |runs| && i < |StepsOf(cfg, Snapshot(), r)|
      modifies this
      ensures Valid() && Snapshot() == Enter(cfg, old(Snapshot()), r, i)
    {
      UpdateRunStep(r, cfg.workflows[runs[r].workflow][i].name);
      InsertWorkflowJob(r, i, None);
    }

    method AdvanceRun(r: nat, i: nat)
      requires Valid() && r < |runs| && i < |StepsOf(cfg, Snapshot(), r)|
      modifies this
      ensures Valid() && Snapshot() == Advance(cfg, old(Snapshot()), r, i)
      decreases r, 1
    {
      if i + 1 >= |cfg.workflows[runs[r].workflow]| {
        MarkRun(r, Completed);
        ResumeParentWorkflow(r);
      } else {
        EnterStep(r, i + 1);
      }
    }

    method ResumeParentWorkflow(r: nat)
      requires Valid() && r < |runs|
      modifies this
      ensures Valid() && Snapshot() == ResumeParent(cfg, old(Snapshot()), r)
      decreases r, 0
    {
      if runs[r].parent.None? {
        return;
      }
      var Parent(p, i) := runs[r].parent.value;
      AdvanceRun(p, i);
    }

    method LeaveStep(r: nat, i: nat)
      requires Valid() && r < |runs| && i < |StepsOf(cfg, Snapshot(), r)|
      modifies this
      ensures Valid() && Snapshot() == Leave(cfg, old(Snapshot()), r, i)
    {
      if cfg.workflows[runs[r].workflow][i].end {
        MarkRun(r, Completed);
        ResumeParentWorkflow(r);
        return;
      }
      AdvanceRun(r, i);
    }

    // ---- Handlers ----------------------------------------------------------

    method HandleBranchCompletion(j: nat, body: Option<string>)
      requires Valid() && j < |jobs|
      modifies this
      ensures Valid() && Snapshot() == BranchDone(cfg, old(Snapshot()), j, body)
    {
      var r, i := jobs[j].run, jobs[j].stepIndex;
      SaveStepOutput(j, body);
      ghost var saved := Snapshot();
      var completed, total := IncrementParallelCompleted(r);
      if completed < total {
        return;
      }
      SetParallelState(r, None, 0);
      assert Snapshot() == SetParallel(cfg, saved, r, None, 0, 0);
      LeaveStep(r, i);
    }

    method HandleStepSuccess(j: nat, body: Option<string>, now: nat)
      requires Valid() && j < |jobs|
      modifies this
      ensures Valid() && Snapshot() == StepSuccess(cfg, old(Snapshot()), j, body, now)
    {
      if jobs[j].branch.Some? {
        HandleBranchCompletion(j, body);
        return;
      }
      var r, i := jobs[j].run, jobs[j].stepIndex;
      SaveStepOutput(j, body);
      if Expired(runs[r], now) {
        MarkRun(r, Failed);
        return;
      }
      LeaveStep(r, i);
    }

    method RouteToCatchStep(j: nat, goto: string)
      requires Valid() && j < |jobs| && HasStep(cfg.workflows[jobs[j].workflow], goto)
      modifies this
      ensures
        var s := old(Snapshot());
        var k := FindStep(cfg.workflows[s.jobs[j].workflow], goto).value;
        Valid() && Snapshot() == Enter(cfg, SetStatus(cfg, s, j, Done), s.jobs[j].run, k)
    {
      var target := FindStep(cfg.workflows[jobs[j].workflow], goto);
      MarkJob(j, Done);
      EnterStep(jobs[j].run, target.value);
    }

    /** The first catch rule that matches. */
    static method MatchingCatch(catches: seq<CatchRule>, f: WorkflowConfig.Failure) returns (goto: Option<string>)
      ensures goto == FirstCatch(catches, f)
    {
      var k := 0;
      while k < |catches|
        invariant 0 <= k <= |catches|
        invariant FirstCatch(catches, f) == FirstCatch(catches[k..], f)
      {
        if ErrorTypeMatches(catches[k].errors, f) {
          return Some(catches[k].goto);
        }
        assert catches[k..][1..] == catches[k + 1..];
        k := k + 1;
      }
      goto := None;
    }

    method HandleStepFailure(j: nat, claim: nat, f: WorkflowConfig.Failure, now: nat)
      requires Valid() && j < |jobs|
      modifies this
      ensures Valid() && Snapshot() == StepFailure(cfg, old(Snapshot()), j, claim, f, now)
    {
      var steps := cfg.workflows[jobs[j].workflow];
      assert ValidSteps(cfg.workflows, jobs[j].workflow, steps);
      FindStepUnique(steps, jobs[j].stepIndex);
      var step := steps[FindStep(steps, jobs[j].stepName).value];
      assert ValidStep(cfg.workflows, jobs[j].workflow, steps, step);
      if WillRetry(step, jobs[j], claim, f) {
        MarkJob(j, Retryable);
        return;
      }
      var goto := MatchingCatch(step.catches, f);
      if goto.Some? {
        RouteToCatchStep(j, goto.value);
        return;
      }
      if step.onFailure.Continue? {
        MarkJob(j, Done);
        HandleStepSuccess(j, Some(ERROR_PAYLOAD), now);
      } else {
        MarkJob(j, Dead);
        MarkRun(jobs[j].run, Failed);
      }
    }

    /** The first rule whose condition holds. */
    static method HoldingRule(rules: seq<ChoiceRule>, holds: set<string>) returns (goto: Option<string>)
      ensures goto == FirstHolding(rules, holds)
    {
      var k := 0;
      while k < |rules|
        invariant 0 <= k <= |rules|
        invariant FirstHolding(rules, holds) == FirstHolding(rules[k..], holds)
      {
        if rules[k].when in holds {
          return Some(rules[k].goto);
        }
        assert rules[k..][1..] == rules[k + 1..];
        k := k + 1;
      }
      goto := None;
    }

    method HandleChoiceStep(j: nat, rules: seq<ChoiceRule>, default: Option<string>, v: View)
      requires Valid() && j < |jobs|
      requires cfg.workflows[jobs[j].workflow][jobs[j].stepIndex].kind == Choice(rules, default)
      modifies this
      ensures Valid() && Snapshot() == Internal(cfg, old(Snapshot()), j, v)
    {
      var steps := cfg.workflows[jobs[j].workflow];
      assert ValidStep(cfg.workflows, jobs[j].workflow, steps, steps[jobs[j].stepIndex]);
      var goto := HoldingRule(rules, v.holds);
      if goto.None? {
        goto := default;
      }
      if goto.None? {
        MarkRun(jobs[j].run, Failed);
        return;
      }
      var target := FindStep(steps, goto.value);
      EnterStep(jobs[j].run, target.value);
    }

    /** Parallel and map steps: set the counters, then insert the branch jobs one by one. */
    method OpenJoin(j: nat, names: seq<string>)
      requires Valid() && j < |jobs|
      modifies this
      ensures
        var s := old(Snapshot());
        Valid() && Snapshot() == Fork(cfg, s, s.jobs[j].run, s.jobs[j].stepIndex, names)
    {
      var r, i := jobs[j].run, jobs[j].stepIndex;
      var w := runs[r].workflow;
      SetParallelState(r, Some(cfg.workflows[w][i].name), Clamp(|names|));
      ghost var counted := Snapshot();
      var k := 0;
      while k < |names|
        invariant 0 <= k <= |names|
        invariant Valid() && runs == counted.runs
        invariant jobs == old(jobs) + BranchJobs(cfg, w, r, i, names[..k])
      {
        InsertWorkflowJob(r, i, Some(names[k]));
        assert BranchJobs(cfg, w, r, i, names[..k + 1]) == BranchJobs(cfg, w, r, i, names[..k]) + [NewJob(cfg, w, r, i, Some(names[k]))];
        k := k + 1;
      }
      assert names[..k] == names;
    }

    method HandleMapStep(j: nat, v: View)
      requires Valid() && j < |jobs|
      requires cfg.workflows[jobs[j].workflow][jobs[j].stepIndex].kind.MapItems?
      modifies this
      ensures Valid() && Snapshot() == Internal(cfg, old(Snapshot()), j, v)
    {
      if v.input.NotJson? {
        return; // the parse error is logged; nothing else happens
      }
      if v.input.items == 0 {
        // the success handler is called with an empty table of workflows and stops there
        SaveStepOutput(j, Some("[]"));
        return;
      }
      OpenJoin(j, ItemNames(v.input.items));
    }

    method HandleWaitStep(j: nat, byTimestamp: bool, v: View)
      requires Valid() && j < |jobs|
      requires cfg.workflows[jobs[j].workflow][jobs[j].stepIndex].kind == Wait(byTimestamp)
      modifies this
      ensures Valid() && Snapshot() == Internal(cfg, old(Snapshot()), j, v)
    {
      if byTimestamp && v.input.NotJson? {
        return; // the parse error is logged; nothing else happens
      }
      AdvanceRun(jobs[j].run, jobs[j].stepIndex);
    }

    method HandleCallbackStep(j: nat)
      requires Valid() && j < |jobs|
      modifies this
      ensures
        var s := old(Snapshot());
        Valid() && Snapshot() == Await(cfg, s, s.jobs[j].run, s.jobs[j].stepIndex)
    {
      var r, i := jobs[j].run, jobs[j].stepIndex;
      var job := NewJob(cfg, runs[r].workflow, r, i, None);
      jobs := jobs + [job.(status := Waiting, token := Some(|jobs|))];
    }

    method LaunchRun(w: string, deadline: Option<nat>, parent: Option<Parent>)
      requires Valid() && w in cfg.workflows
      requires parent.Some? ==> parent.value.run < |runs| && parent.value.stepIndex < |StepsOf(cfg, Snapshot(), parent.value.run)|
      modifies this
      ensures Valid() && Snapshot() == Launch(cfg, old(Snapshot()), w, deadline, parent)
    {
      assert ValidSteps(cfg.workflows, w, cfg.workflows[w]);
      var first := cfg.workflows[w][0];
      runs := runs + [Run(w, InProgress, first.name, deadline, None, 0, 0, parent)];
      assert Shape(cfg, State(runs, jobs)) by {
        assert Shape(cfg, old(Snapshot()));
      }
      InsertWorkflowJob(|runs| - 1, 0, None);
    }

    // ---- Entry points ------------------------------------------------------

    /** A worker handles one delivery of job `j`. */
    method Deliver(j: nat, v: View)
      requires Valid() && j < |jobs|
      modifies this
      ensures Valid() && Snapshot() == DeliverJob(cfg, old(Snapshot()), j, v)
    {
      var r := jobs[j].run;
      if Expired(runs[r], v.now) {
        MarkJob(j, Dead);
        MarkRun(r, Failed);
        return;
      }
      var steps := cfg.workflows[jobs[j].workflow];
      assert ValidSteps(cfg.workflows, jobs[j].workflow, steps);
      FindStepUnique(steps, jobs[j].stepIndex);
      var step := steps[FindStep(steps, jobs[j].stepName).value];
      assert ValidStep(cfg.workflows, jobs[j].workflow, steps, step);
      if jobs[j].branch.None? && !step.kind.Http? {
        MarkJob(j, Done);
        match step.kind {
          case Choice(rules, default) => HandleChoiceStep(j, rules, default, v);
          case Parallel(branches) => OpenJoin(j, branches);
          case MapItems => HandleMapStep(j, v);
          case Wait(byTimestamp) => HandleWaitStep(j, byTimestamp, v);
          case Callback => HandleCallbackStep(j);
          case SubWorkflow(target) => LaunchRun(target, None, Some(Parent(r, jobs[j].stepIndex)));
        }
        return;
      }
      match v.reply {
        case Success(body) =>
          MarkJob(j, Done);
          HandleStepSuccess(j, body, v.later);
        case Failure(f) =>
          HandleStepFailure(j, v.claim, f, v.later);
      }
    }

    /** An external callback; the answer says whether a waiting job was resumed. */
    method ResumeCallback(token: nat, body: string) returns (resumed: bool)
      requires Valid()
      modifies this
      ensures Valid() && Snapshot() == ReceiveCallback(cfg, old(Snapshot()), token, body)
      ensures resumed <==> exists j :: FindToken(old(jobs), token) == Some(j) && old(jobs)[j].status == Waiting
    {
      var found := FindToken(jobs, token);
      if found.None? || jobs[found.value].status != Waiting {
        return false;
      }
      var j := found.value;
      MarkJob(j, Done);
      SaveStepOutput(j, Some(body));
      LeaveStep(jobs[j].run, jobs[j].stepIndex);
      return true;
    }
  }
}
