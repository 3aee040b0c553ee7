/**
 * What the workflow engine does to its two tables, as functions on table contents. Rows are
 * numbered in insertion order, which stands for the fresh identifiers of the code. Every function
 * keeps the shape of the tables: rows name workflows, steps and runs that exist, and a parent run is
 * older than its children, which is why the recursion over parents ends.
 */
module WorkflowModel {
  import opened Wrappers
  import opened WorkflowConfig
  import Text

  datatype RunStatus = InProgress | Completed | Failed

  datatype JobStatus = Available | Retryable | Running | Waiting | Done | Dead

  datatype Parent = Parent(run: nat, stepIndex: nat)

  datatype Run = Run(
    workflow: string,
    status: RunStatus,
    currentStep: string,
    deadline: Option<nat>,
    parallelStep: Option<string>,
    parallelCount: nat,
    parallelCompleted: nat,
    parent: Option<Parent>)

  datatype Job = Job(
    run: nat,
    workflow: string,
    stepName: string,
    stepIndex: nat,
    branch: Option<string>,
    status: JobStatus,
    attempt: nat,
    maxAttempts: nat,
    output: Option<string>,
    token: Option<nat>)

  datatype State = State(runs: seq<Run>, jobs: seq<Job>)

  // ---- What a delivery sees ------------------------------------------------

  /** The handler's answer. A response body may be unreadable. */
  datatype Reply = Success(body: Option<string>) | Failure(error: WorkflowConfig.Failure)

  /** The step's input as the step types look at it. */
  datatype Input = NotJson | Json(items: nat)

  /**
   * Everything a delivery takes from outside the tables: the number of its claim in the worker's
   * copy of the row, the clock when it starts and when the answer is in, the answer, the choice
   * conditions that hold of the input, and the input itself (`items` is the length of the array at
   * the step's items path, 0 when there is none).
   */
  datatype View = View(claim: nat, now: nat, later: nat, reply: Reply, holds: set<string>, input: Input)

  datatype Event =
    | Start(workflow: string, deadline: Option<nat>)
    | Claim(job: nat)
    | Recover(job: nat)
    | Deliver(job: nat, view: View)
    | CallbackReceived(token: nat, body: string)

  predicate Live(j: Job) {
    j.status == Available || j.status == Retryable || j.status == Running || j.status == Waiting
  }

  // ---- Table shape ---------------------------------------------------------

  predicate ParentShape(cfg: Config, runs: seq<Run>, r: nat, p: Parent) {
    && p.run < r < |runs|
    && runs[p.run].workflow in cfg.workflows
    && p.stepIndex < |cfg.workflows[runs[p.run].workflow]|
  }

  predicate JobShape(cfg: Config, runs: seq<Run>, j: Job) {
    && j.run < |runs|
    && j.workflow == runs[j.run].workflow
    && j.workflow in cfg.workflows
    && j.stepIndex < |cfg.workflows[j.workflow]|
    && cfg.workflows[j.workflow][j.stepIndex].name == j.stepName
  }

  /** Every row names things that exist, and a parent run is older than its children. */
  ghost predicate Shape(cfg: Config, s: State) {
    && ValidWorkflows(cfg.workflows)
    && (forall r :: 0 <= r < |s.runs| ==> s.runs[r].workflow in cfg.workflows)
    && (forall r :: 0 <= r < |s.runs| && s.runs[r].parent.Some? ==> ParentShape(cfg, s.runs, r, s.runs[r].parent.value))
    && (forall j :: 0 <= j < |s.jobs| ==> JobShape(cfg, s.runs, s.jobs[j]))
  }

  /** A job's row changes its status, attempt and output, and nothing else. */
  predicate SameJob(a: Job, b: Job) {
    && a.run == b.run && a.workflow == b.workflow && a.stepName == b.stepName && a.stepIndex == b.stepIndex
    && a.branch == b.branch && a.maxAttempts == b.maxAttempts && a.token == b.token
  }

  /** `t` extends `s`: no row goes away and none changes what it belongs to. */
  ghost predicate Extends(s: State, t: State) {
    && |s.runs| <= |t.runs|
    && |s.jobs| <= |t.jobs|
    && (forall r {:trigger t.runs[r]} :: 0 <= r < |s.runs| ==>
          && t.runs[r].workflow == s.runs[r].workflow
          && t.runs[r].parent == s.runs[r].parent)
    && (forall j {:trigger t.jobs[j]} :: 0 <= j < |s.jobs| ==>
          SameJob(s.jobs[j], t.jobs[j]))
  }

  function StepsOf(cfg: Config, s: State, r: nat): seq<Step>
    requires r < |s.runs| && s.runs[r].workflow in cfg.workflows
  {
    cfg.workflows[s.runs[r].workflow]
  }

  // ---- Single statements ---------------------------------------------------

  ghost function SetStatus(cfg: Config, s: State, j: nat, status: JobStatus): (t: State)
    requires Shape(cfg, s) && j < |s.jobs|
    ensures Shape(cfg, t) && Extends(s, t)
  {
    s.(jobs := s.jobs[j := s.jobs[j].(status := status)])
  }

  ghost function SaveOutput(cfg: Config, s: State, j: nat, output: Option<string>): (t: State)
    requires Shape(cfg, s) && j < |s.jobs|
    ensures Shape(cfg, t) && Extends(s, t)
  {
    if output.Some? then s.(jobs := s.jobs[j := s.jobs[j].(output := output)]) else s
  }

  ghost function SetRunStatus(cfg: Config, s: State, r: nat, status: RunStatus): (t: State)
    requires Shape(cfg, s) && r < |s.runs|
    ensures Shape(cfg, t) && Extends(s, t)
  {
    s.(runs := s.runs[r := s.runs[r].(status := status)])
  }

  ghost function SetParallel(cfg: Config, s: State, r: nat, step: Option<string>, count: nat, completed: nat): (t: State)
    requires Shape(cfg, s) && r < |s.runs|
    ensures Shape(cfg, t) && Extends(s, t)
  {
    s.(runs := s.runs[r := s.runs[r].(parallelStep := step, parallelCount := count, parallelCompleted := completed)])
  }

  function NewJob(cfg: Config, workflow: string, r: nat, i: nat, branch: Option<string>): Job
    requires workflow in cfg.workflows && i < |cfg.workflows[workflow]|
  {
    var step := cfg.workflows[workflow][i];
    Job(r, workflow, step.name, i, branch, Available, 0, MaxAttempts(cfg, step), None, None)
  }

  /** Move run `r` to its step `i`: note the step on the run and insert the step's job. */
  ghost function Enter(cfg: Config, s: State, r: nat, i: nat): (t: State)
    requires Shape(cfg, s) && r < |s.runs| && i < |StepsOf(cfg, s, r)|
    ensures Shape(cfg, t) && Extends(s, t)
  {
    var run := s.runs[r];
    State(s.runs[r := run.(currentStep := StepsOf(cfg, s, r)[i].name)],
          s.jobs + [NewJob(cfg, run.workflow, r, i, None)])
  }

  function BranchJobs(cfg: Config, workflow: string, r: nat, i: nat, names: seq<string>): (jobs: seq<Job>)
    requires workflow in cfg.workflows && i < |cfg.workflows[workflow]|
    ensures |jobs| == |names|
  {
    seq(|names|, k requires 0 <= k < |names| => NewJob(cfg, workflow, r, i, Some(names[k])))
  }

  /** Open a join of run `r` at step `i` and insert one job for each name. */
  ghost function Fork(cfg: Config, s: State, r: nat, i: nat, names: seq<string>): (t: State)
    requires Shape(cfg, s) && r < |s.runs| && i < |StepsOf(cfg, s, r)|
    ensures Shape(cfg, t) && Extends(s, t)
  {
    var run := s.runs[r];
    var forked := SetParallel(cfg, s, r, Some(StepsOf(cfg, s, r)[i].name), Clamp(|names|), 0);
    forked.(jobs := s.jobs + BranchJobs(cfg, run.workflow, r, i, names))
  }

  /** Insert a run of `workflow` standing at its first step, with that step's job. */
  ghost function Launch(cfg: Config, s: State, workflow: string, deadline: Option<nat>, parent: Option<Parent>): (t: State)
    requires Shape(cfg, s) && workflow in cfg.workflows
    requires parent.Some? ==> parent.value.run < |s.runs| && parent.value.stepIndex < |StepsOf(cfg, s, parent.value.run)|
    ensures Shape(cfg, t) && Extends(s, t)
  {
    var first := cfg.workflows[workflow][0].name;
    State(s.runs + [Run(workflow, InProgress, first, deadline, None, 0, 0, parent)],
          s.jobs + [NewJob(cfg, workflow, |s.runs|, 0, None)])
  }

  /** Insert the job that waits for an external callback; its token is fresh. */
  ghost function Await(cfg: Config, s: State, r: nat, i: nat): (t: State)
    requires Shape(cfg, s) && r < |s.runs| && i < |StepsOf(cfg, s, r)|
    ensures Shape(cfg, t) && Extends(s, t)
  {
    s.(jobs := s.jobs + [NewJob(cfg, s.runs[r].workflow, r, i, None).(status := Waiting, token := Some(|s.jobs|))])
  }

  // ---- Leaving a step ------------------------------------------------------

  /** Run `r` has finished its step `i`: go to the next step, or complete the run. */
  ghost function Advance(cfg: Config, s: State, r: nat, i: nat): (t: State)
    requires Shape(cfg, s) && r < |s.runs| && i < |StepsOf(cfg, s, r)|
    ensures Shape(cfg, t) && Extends(s, t)
    decreases r, 1
  {
    if i + 1 < |StepsOf(cfg, s, r)| then Enter(cfg, s, r, i + 1)
    else ResumeParent(cfg, SetRunStatus(cfg, s, r, Completed), r)
  }

  /** After run `r` completed: its parent run, if any, has finished its sub-workflow step. */
  ghost function ResumeParent(cfg: Config, s: State, r: nat): (t: State)
    requires Shape(cfg, s) && r < |s.runs|
    ensures Shape(cfg, t) && Extends(s, t)
    decreases r, 0
  {
    match s.runs[r].parent
    case None => s
    case Some(p) =>
      Advance(cfg, s, p.run, p.stepIndex)
  }

  /** Run `r` has finished its step `i`, and the step's `end` flag is honoured. */
  ghost function Leave(cfg: Config, s: State, r: nat, i: nat): (t: State)
    requires Shape(cfg, s) && r < |s.runs| && i < |StepsOf(cfg, s, r)|
    ensures Shape(cfg, t) && Extends(s, t)
  {
    if StepsOf(cfg, s, r)[i].end then ResumeParent(cfg, SetRunStatus(cfg, s, r, Completed), r)
    else Advance(cfg, s, r, i)
  }

  // ---- Handling a delivery -------------------------------------------------

  predicate Expired(run: Run, now: nat) {
    run.deadline.Some? && now > run.deadline.value
  }

  /** A branch job is done: count it, and leave the step when all are. */
  ghost function BranchDone(cfg: Config, s: State, j: nat, body: Option<string>): (t: State)
    requires Shape(cfg, s) && j < |s.jobs|
    ensures Shape(cfg, t) && Extends(s, t)
  {
    var job := s.jobs[j];
    var saved := SaveOutput(cfg, s, j, body);
    var run := saved.runs[job.run];
    if run.parallelCompleted + 1 < run.parallelCount then
      SetParallel(cfg, saved, job.run, run.parallelStep, run.parallelCount, run.parallelCompleted + 1)
    else
      Leave(cfg, SetParallel(cfg, saved, job.run, None, 0, 0), job.run, job.stepIndex)
  }

  /** The job's row is already completed; move its run on. */
  ghost function StepSuccess(cfg: Config, s: State, j: nat, body: Option<string>, now: nat): (t: State)
    requires Shape(cfg, s) && j < |s.jobs|
    ensures Shape(cfg, t) && Extends(s, t)
  {
    var job := s.jobs[j];
    if job.branch.Some? then BranchDone(cfg, s, j, body)
    else
      var saved := SaveOutput(cfg, s, j, body);
      if Expired(s.runs[job.run], now) then SetRunStatus(cfg, saved, job.run, Failed)
      else Leave(cfg, saved, job.run, job.stepIndex)
  }

  predicate WillRetry(step: Step, job: Job, claim: nat, f: WorkflowConfig.Failure) {
    (step.retry.Some? ==> ErrorTypeMatches(step.retry.value.errors, f)) && claim < job.maxAttempts
  }

  function FirstCatch(catches: seq<CatchRule>, f: WorkflowConfig.Failure): (r: Option<string>)
    ensures r.Some? <==> exists c | c in catches :: ErrorTypeMatches(c.errors, f)
    ensures r.Some? ==> exists c | c in catches :: c.goto == r.value
  {
    if |catches| == 0 then None
    else if ErrorTypeMatches(catches[0].errors, f) then Some(catches[0].goto)
    else FirstCatch(catches[1..], f)
  }

  /** Rule `k` is the first that matches. */
  predicate FirstMatch(catches: seq<CatchRule>, f: WorkflowConfig.Failure, k: nat) {
    && k < |catches|
    && ErrorTypeMatches(catches[k].errors, f)
    && forall i :: 0 <= i < k ==> !ErrorTypeMatches(catches[i].errors, f)
  }

  lemma NextMatch(catches: seq<CatchRule>, f: WorkflowConfig.Failure, k: nat)
    requires |catches| > 0 && !ErrorTypeMatches(catches[0].errors, f) && FirstMatch(catches[1..], f, k)
    ensures FirstMatch(catches, f, k + 1)
  {
    assert forall i :: 0 < i < |catches| ==> catches[i] == catches[1..][i - 1];
  }

  /** The chosen catch rule is the first that matches. */
  lemma {:induction false} FirstCatchIsFirst(catches: seq<CatchRule>, f: WorkflowConfig.Failure)
    ensures
      match FirstCatch(catches, f)
      case None => forall c | c in catches :: !ErrorTypeMatches(c.errors, f)
      case Some(goto) => exists k: nat :: FirstMatch(catches, f, k) && catches[k].goto == goto
    decreases |catches|
  {
    if |catches| > 0 {
      if ErrorTypeMatches(catches[0].errors, f) {
        assert FirstMatch(catches, f, 0);
      } else {
        FirstCatchIsFirst(catches[1..], f);
        if FirstCatch(catches[1..], f).Some? {
          var k: nat :| FirstMatch(catches[1..], f, k) && catches[1..][k].goto == FirstCatch(catches[1..], f).value;
          NextMatch(catches, f, k);
        }
      }
    }
  }

  /** The payload a failed step hands on under `on_failure: continue`. */
  const ERROR_PAYLOAD: string := "error"

  ghost function StepFailure(cfg: Config, s: State, j: nat, claim: nat, f: WorkflowConfig.Failure, now: nat): (t: State)
    requires Shape(cfg, s) && j < |s.jobs|
    ensures Shape(cfg, t) && Extends(s, t)
  {
    var job := s.jobs[j];
    var steps := cfg.workflows[job.workflow];
    var step := steps[job.stepIndex];
    if WillRetry(step, job, claim, f) then SetStatus(cfg, s, j, Retryable)
    else
      match FirstCatch(step.catches, f)
      case Some(goto) =>
        assert ValidStep(cfg.workflows, job.workflow, steps, step);
        Enter(cfg, SetStatus(cfg, s, j, Done), job.run, FindStep(steps, goto).value)
      case None =>
        if step.onFailure.Continue? then
          StepSuccess(cfg, SetStatus(cfg, s, j, Done), j, Some(ERROR_PAYLOAD), now)
        else
          SetRunStatus(cfg, SetStatus(cfg, s, j, Dead), job.run, Failed)
  }

  function FirstHolding(rules: seq<ChoiceRule>, holds: set<string>): (r: Option<string>)
    ensures r.Some? ==> exists c | c in rules :: c.goto == r.value && c.when in holds
    ensures r.None? ==> forall c | c in rules :: c.when !in holds
  {
    if |rules| == 0 then None
    else if rules[0].when in holds then Some(rules[0].goto)
    else FirstHolding(rules[1..], holds)
  }

  /** The chosen rule is the first whose condition holds. */
  lemma {:induction false} FirstHoldingIsFirst(rules: seq<ChoiceRule>, holds: set<string>)
    ensures
      match FirstHolding(rules, holds)
      case None => forall k :: 0 <= k < |rules| ==> rules[k].when !in holds
      case Some(goto) =>
        exists k :: 0 <= k < |rules| && rules[k].when in holds && rules[k].goto == goto
                    && forall i :: 0 <= i < k ==> rules[i].when !in holds
    decreases |rules|
  {
    if |rules| > 0 && rules[0].when !in holds {
      var rest := rules[1..];
      FirstHoldingIsFirst(rest, holds);
      assert forall k :: 0 < k < |rules| ==> rules[k] == rest[k - 1];
      if FirstHolding(rest, holds).Some? {
        var k :| 0 <= k < |rest| && rest[k].when in holds && rest[k].goto == FirstHolding(rest, holds).value
                 && forall i :: 0 <= i < k ==> rest[i].when !in holds;
        assert rules[k + 1].when in holds && rules[k + 1].goto == FirstHolding(rules, holds).value;
      }
    }
  }

  function Target(rules: seq<ChoiceRule>, default: Option<string>, holds: set<string>): Option<string> {
    var chosen := FirstHolding(rules, holds);
    if chosen.Some? then chosen else default
  }

  /** Names of the jobs of a map step: the item positions in decimal. */
  function ItemNames(n: nat): (names: seq<string>)
    ensures |names| == n
    ensures forall k :: 0 <= k < n ==> names[k] == Text.Decimal(k)
  {
    seq(n, k requires 0 <= k < n => Text.Decimal(k))
  }

  /** A step handled inside the engine: its job's row is already completed. */
  ghost function Internal(cfg: Config, s: State, j: nat, v: View): (t: State)
    requires Shape(cfg, s) && j < |s.jobs|
    ensures Shape(cfg, t) && Extends(s, t)
  {
    var job := s.jobs[j];
    var r, i := job.run, job.stepIndex;
    var steps := cfg.workflows[job.workflow];
    assert ValidSteps(cfg.workflows, job.workflow, steps);
    assert ValidStep(cfg.workflows, job.workflow, steps, steps[i]);
    match steps[i].kind
    case Http => s
    case Choice(rules, default) =>
      (match Target(rules, default, v.holds)
       case None => SetRunStatus(cfg, s, r, Failed)
       case Some(goto) => Enter(cfg, s, r, FindStep(steps, goto).value))
    case Parallel(branches) => Fork(cfg, s, r, i, branches)
    case MapItems =>
      (match v.input
       case NotJson => s
       case Json(n) =>
         if n == 0 then SaveOutput(cfg, s, j, Some("[]")) else Fork(cfg, s, r, i, ItemNames(n)))
    case Wait(byTimestamp) =>
      if byTimestamp && v.input.NotJson? then s else Advance(cfg, s, r, i)
    case Callback => Await(cfg, s, r, i)
    case SubWorkflow(target) => Launch(cfg, s, target, None, Some(Parent(r, i)))
  }

  /**
   * One delivery of job `j`, handled from start to end. Whatever the row's status has become in
   * the meantime, the code does not look at it.
   */
  ghost function DeliverJob(cfg: Config, s: State, j: nat, v: View): (t: State)
    requires Shape(cfg, s) && j < |s.jobs|
    ensures Shape(cfg, t) && Extends(s, t)
  {
    var job := s.jobs[j];
    if Expired(s.runs[job.run], v.now) then
      SetRunStatus(cfg, SetStatus(cfg, s, j, Dead), job.run, Failed)
    else if job.branch.None? && !cfg.workflows[job.workflow][job.stepIndex].kind.Http? then
      Internal(cfg, SetStatus(cfg, s, j, Done), j, v)
    else
      match v.reply
      case Success(body) => StepSuccess(cfg, SetStatus(cfg, s, j, Done), j, body, v.later)
      case Failure(f) => StepFailure(cfg, s, j, v.claim, f, v.later)
  }

  /** The first job that carries `token`. */
  function FindToken(jobs: seq<Job>, token: nat): (r: Option<nat>)
    ensures r.Some? ==> r.value < |jobs| && jobs[r.value].token == Some(token)
    ensures r.None? ==> forall j :: 0 <= j < |jobs| ==> jobs[j].token != Some(token)
  {
    if |jobs| == 0 then None
    else
      match FindToken(jobs[..|jobs| - 1], token)
      case Some(j) => Some(j)
      case None => if jobs[|jobs| - 1].token == Some(token) then Some(|jobs| - 1) else None
  }

  /** A callback for `token`: only a job that still waits for it moves on. */
  ghost function ReceiveCallback(cfg: Config, s: State, token: nat, body: string): (t: State)
    requires Shape(cfg, s)
    ensures Shape(cfg, t) && Extends(s, t)
  {
    match FindToken(s.jobs, token)
    case None => s
    case Some(j) =>
      if s.jobs[j].status != Waiting then s
      else
        var done := SaveOutput(cfg, SetStatus(cfg, s, j, Done), j, Some(body));
        Leave(cfg, done, s.jobs[j].run, s.jobs[j].stepIndex)
  }

  // ---- Runs of the engine --------------------------------------------------

  /** An event that does not apply leaves the tables as they are. */
  ghost function Next(cfg: Config, s: State, e: Event): (t: State)
    requires Shape(cfg, s)
    ensures Shape(cfg, t) && Extends(s, t)
  {
    match e
    case Start(w, deadline) => if w in cfg.workflows then Launch(cfg, s, w, deadline, None) else s
    case Claim(j) =>
      if j < |s.jobs| && (s.jobs[j].status == Available || s.jobs[j].status == Retryable) then
        s.(jobs := s.jobs[j := s.jobs[j].(status := Running, attempt := s.jobs[j].attempt + 1)])
      else s
    case Recover(j) =>
      if j < |s.jobs| && s.jobs[j].status == Running then SetStatus(cfg, s, j, Retryable) else s
    case Deliver(j, v) =>
      if j < |s.jobs| then DeliverJob(cfg, s, j, v) else s
    case CallbackReceived(token, body) => ReceiveCallback(cfg, s, token, body)
  }

  ghost function Exec(cfg: Config, s: State, events: seq<Event>): (t: State)
    requires Shape(cfg, s)
    ensures Shape(cfg, t)
    decreases |events|
  {
    if |events| == 0 then s
    else Exec(cfg, Next(cfg, s, events[0]), events[1..])
  }

  const EMPTY: State := State([], [])
}
