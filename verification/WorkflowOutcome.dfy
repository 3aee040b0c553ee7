/** What one delivery leaves in the tables, told from the configuration and the rows alone. */
module WorkflowOutcome {
  import opened Wrappers
  import opened WorkflowConfig
  import opened WorkflowModel
  import opened WorkflowToken
  import opened WorkflowDelivery
  import opened WorkflowLate
  import Text

  /** The list names the class of the failure, or all of them. */
  ghost predicate Lists(errors: seq<ErrorType>, f: WorkflowConfig.Failure) {
    || All in errors
    || (f == TimedOut && Timeout in errors)
    || (f == ServerError && Http5xx in errors)
    || (f == ClientError && Http4xx in errors)
    || (f == NetworkError && Network in errors)
  }

  /** The deadline is behind. */
  ghost predicate Late(run: Run, now: nat) {
    exists d :: run.deadline == Some(d) && d < now
  }

  ghost predicate FirstListing(catches: seq<CatchRule>, f: WorkflowConfig.Failure, k: nat) {
    && k < |catches|
    && Lists(catches[k].errors, f)
    && forall i :: 0 <= i < k ==> !Lists(catches[i].errors, f)
  }

  /** How often a step's job is tried: its own limit or the default, as a 32-bit column. */
  ghost predicate Tries(cfg: Config, step: Step, n: nat) {
    var wanted := match step.retry case Some(rule) => rule.max case None => cfg.defaultRetryMax;
    n == if wanted > 2147483647 then 2147483647 else wanted
  }

  /** A job of step `i` of run `r` that nobody has touched. */
  ghost predicate Untouched(cfg: Config, w: string, r: nat, i: nat, branch: Option<string>, job: Job)
    requires w in cfg.workflows && i < |cfg.workflows[w]|
  {
    var step := cfg.workflows[w][i];
    && job.run == r && job.workflow == w && job.stepName == step.name && job.stepIndex == i && job.branch == branch
    && job.status == Available && job.attempt == 0 && Tries(cfg, step, job.maxAttempts)
    && job.output == None && job.token == None
  }

  /** From `s` to `t` run `r` has gone to step `i`: the run notes it, and its job waits to be claimed. */
  ghost predicate Went(cfg: Config, s: State, t: State, r: nat, i: nat)
    requires Shape(cfg, s) && r < |s.runs|
  {
    var steps := StepsOf(cfg, s, r);
    && i < |steps|
    && t.runs == s.runs[r := s.runs[r].(currentStep := steps[i].name)]
    && |t.jobs| == |s.jobs| + 1
    && t.jobs[..|s.jobs|] == s.jobs
    && Untouched(cfg, s.runs[r].workflow, r, i, None, t.jobs[|s.jobs|])
  }

  ghost predicate WentTo(cfg: Config, s: State, t: State, r: nat, name: string)
    requires Shape(cfg, s) && r < |s.runs|
  {
    exists i: nat :: Went(cfg, s, t, r, i) && StepsOf(cfg, s, r)[i].name == name
  }

  /** Run `r` is over; only older runs, waiting for it, may have moved on. */
  ghost predicate Completes(s: State, t: State, r: nat)
    requires r < |s.runs|
  {
    && |t.runs| == |s.runs|
    && t.runs[r] == s.runs[r].(status := Completed)
    && (forall q :: r < q < |s.runs| ==> t.runs[q] == s.runs[q])
    && |s.jobs| <= |t.jobs| && t.jobs[..|s.jobs|] == s.jobs
    && (s.runs[r].parent == None ==> t.jobs == s.jobs && t.runs == s.runs[r := t.runs[r]])
  }

  /** Step `i` has been left in the ordinary way. */
  ghost predicate Left(cfg: Config, s: State, t: State, r: nat, i: nat)
    requires Shape(cfg, s) && r < |s.runs|
  {
    var steps := StepsOf(cfg, s, r);
    && i < |steps|
    && if steps[i].end || i + 1 >= |steps| then Completes(s, t, r) else Went(cfg, s, t, r, i + 1)
  }

  /** Row `j` as the delivery leaves it. */
  function Marked(s: State, j: nat, status: JobStatus, output: Option<string>): State
    requires j < |s.jobs|
  {
    State(s.runs, s.jobs[j := s.jobs[j].(status := status, output := output)])
  }

  function Failing(s: State, r: nat): State
    requires r < |s.runs|
  {
    State(s.runs[r := s.runs[r].(status := Failed)], s.jobs)
  }

  function Or(body: Option<string>, before: Option<string>): Option<string> {
    if body.Some? then body else before
  }

  // ---- Moving a run --------------------------------------------------------

  lemma EnterWent(cfg: Config, s: State, r: nat, i: nat)
    requires Shape(cfg, s) && r < |s.runs| && i < |StepsOf(cfg, s, r)|
    ensures Went(cfg, s, Enter(cfg, s, r, i), r, i)
  {
  }

  lemma ResumedOthers(cfg: Config, s: State, r: nat)
    requires Shape(cfg, s) && r < |s.runs|
    ensures
      var done := SetRunStatus(cfg, s, r, Completed);
      Completes(s, ResumeParent(cfg, done, r), r)
  {
    var done := SetRunStatus(cfg, s, r, Completed);
    ResumeLeavesRows(cfg, done, r);
    ResumeKeepsJobs(cfg, done, r);
    var t := ResumeParent(cfg, done, r);
    assert t.jobs[..|s.jobs|] == s.jobs;
    assert t.runs[r] == done.runs[r];
  }

  lemma LeaveLeft(cfg: Config, s: State, r: nat, i: nat)
    requires Shape(cfg, s) && r < |s.runs| && i < |StepsOf(cfg, s, r)|
    ensures Left(cfg, s, Leave(cfg, s, r, i), r, i)
  {
    if StepsOf(cfg, s, r)[i].end || i + 1 >= |StepsOf(cfg, s, r)| {
      ResumedOthers(cfg, s, r);
    } else {
      EnterWent(cfg, s, r, i + 1);
    }
  }

  // ---- Deadlines -----------------------------------------------------------

  /** A delivery that starts after the deadline buries its job and fails the run, whatever the step. */
  lemma DeadlineOutcome(cfg: Config, s: State, j: nat, v: View)
    requires Shape(cfg, s) && j < |s.jobs| && Late(s.runs[s.jobs[j].run], v.now)
    ensures DeliverJob(cfg, s, j, v) == Failing(Marked(s, j, Dead, s.jobs[j].output), s.jobs[j].run)
  {
  }

  // ---- Successes -----------------------------------------------------------

  /** What a success leaves: the body is saved, and the run fails at its deadline or leaves the step. */
  ghost predicate Succeeded(cfg: Config, s: State, t: State, j: nat, body: Option<string>, later: nat)
    requires Shape(cfg, s) && j < |s.jobs|
  {
    var job := s.jobs[j];
    var done := Marked(s, j, Done, Or(body, job.output));
    && Shape(cfg, done)
    && if Late(s.runs[job.run], later) then t == Failing(done, job.run) else Left(cfg, done, t, job.run, job.stepIndex)
  }

  lemma DoneIsMarked(cfg: Config, s: State, j: nat, body: Option<string>)
    requires Shape(cfg, s) && j < |s.jobs|
    ensures SaveOutput(cfg, SetStatus(cfg, s, j, Done), j, body) == Marked(s, j, Done, Or(body, s.jobs[j].output))
  {
  }

  lemma StepSucceeded(cfg: Config, s: State, j: nat, body: Option<string>, later: nat)
    requires Shape(cfg, s) && j < |s.jobs| && s.jobs[j].branch.None?
    ensures Succeeded(cfg, s, StepSuccess(cfg, SetStatus(cfg, s, j, Done), j, body, later), j, body, later)
  {
    var job := s.jobs[j];
    DoneIsMarked(cfg, s, j, body);
    LeaveLeft(cfg, SaveOutput(cfg, SetStatus(cfg, s, j, Done), j, body), job.run, job.stepIndex);
  }

  lemma SuccessOutcome(cfg: Config, s: State, j: nat, v: View)
    requires Shape(cfg, s) && j < |s.jobs| && !Late(s.runs[s.jobs[j].run], v.now) && v.reply.Success?
    requires s.jobs[j].branch == None && cfg.workflows[s.jobs[j].workflow][s.jobs[j].stepIndex].kind == Http
    ensures Succeeded(cfg, s, DeliverJob(cfg, s, j, v), j, v.reply.body, v.later)
  {
    StepSucceeded(cfg, s, j, v.reply.body, v.later);
  }

  /** A branch that is done: it is counted, and the last one closes the join and leaves the step. */
  ghost predicate BranchCounts(cfg: Config, s: State, t: State, j: nat, body: Option<string>)
    requires Shape(cfg, s) && j < |s.jobs|
  {
    var job := s.jobs[j];
    var done := Marked(s, j, Done, Or(body, job.output));
    var run := s.runs[job.run];
    if run.parallelCompleted + 1 < run.parallelCount then
      t == State(s.runs[job.run := run.(parallelCompleted := run.parallelCompleted + 1)], done.jobs)
    else
      var closed := State(s.runs[job.run := run.(parallelStep := None, parallelCount := 0, parallelCompleted := 0)], done.jobs);
      Shape(cfg, closed) && Left(cfg, closed, t, job.run, job.stepIndex)
  }

  lemma BranchCounted(cfg: Config, s: State, j: nat, body: Option<string>)
    requires Shape(cfg, s) && j < |s.jobs|
    ensures BranchCounts(cfg, s, BranchDone(cfg, SetStatus(cfg, s, j, Done), j, body), j, body)
  {
    var job := s.jobs[j];
    var saved := SaveOutput(cfg, SetStatus(cfg, s, j, Done), j, body);
    DoneIsMarked(cfg, s, j, body);
    if s.runs[job.run].parallelCompleted + 1 >= s.runs[job.run].parallelCount {
      LeaveLeft(cfg, SetParallel(cfg, saved, job.run, None, 0, 0), job.run, job.stepIndex);
    }
  }

  lemma BranchOutcome(cfg: Config, s: State, j: nat, v: View)
    requires Shape(cfg, s) && j < |s.jobs| && !Late(s.runs[s.jobs[j].run], v.now) && v.reply.Success?
    requires s.jobs[j].branch != None
    ensures BranchCounts(cfg, s, DeliverJob(cfg, s, j, v), j, v.reply.body)
  {
    BranchCounted(cfg, s, j, v.reply.body);
  }

  // ---- Failures ------------------------------------------------------------

  lemma MatchesListed(errors: seq<ErrorType>, f: WorkflowConfig.Failure)
    ensures ErrorTypeMatches(errors, f) <==> Lists(errors, f)
  {
    if ErrorTypeMatches(errors, f) {
      var e :| e in errors && Covers(e, f);
    }
    if Lists(errors, f) {
      var e := if All in errors then All
               else match f case TimedOut => Timeout case ServerError => Http5xx case ClientError => Http4xx case NetworkError => Network;
      assert e in errors && Covers(e, f);
    }
  }

  /** The failure is one to try again after, by the row's limit and the step's list. */
  ghost predicate TriesAgain(cfg: Config, job: Job, claim: nat, f: WorkflowConfig.Failure)
    requires job.workflow in cfg.workflows && job.stepIndex < |cfg.workflows[job.workflow]|
  {
    var retry := cfg.workflows[job.workflow][job.stepIndex].retry;
    claim < job.maxAttempts && (retry == None || Lists(retry.value.errors, f))
  }

  lemma FirstCatchListed(catches: seq<CatchRule>, f: WorkflowConfig.Failure, k: nat)
    requires FirstListing(catches, f, k)
    ensures FirstCatch(catches, f) == Some(catches[k].goto)
    decreases |catches|
  {
    MatchesListed(catches[0].errors, f);
    if k > 0 {
      assert FirstListing(catches[1..], f, k - 1);
      FirstCatchListed(catches[1..], f, k - 1);
    }
  }

  lemma NoCatchListed(catches: seq<CatchRule>, f: WorkflowConfig.Failure)
    requires forall c | c in catches :: !Lists(c.errors, f)
    ensures FirstCatch(catches, f) == None
  {
    forall c | c in catches
      ensures !ErrorTypeMatches(c.errors, f)
    {
      MatchesListed(c.errors, f);
    }
  }

  lemma RetriesListed(step: Step, job: Job, claim: nat, f: WorkflowConfig.Failure)
    ensures WillRetry(step, job, claim, f) <==> claim < job.maxAttempts && (step.retry == None || Lists(step.retry.value.errors, f))
  {
    if step.retry.Some? {
      MatchesListed(step.retry.value.errors, f);
    }
  }

  /** The delivery ends an HTTP step, or a branch, with a failure before the deadline. */
  ghost predicate Fails(cfg: Config, s: State, j: nat, v: View)
    requires Shape(cfg, s)
  {
    && j < |s.jobs| && !Late(s.runs[s.jobs[j].run], v.now) && v.reply.Failure?
    && (s.jobs[j].branch != None || cfg.workflows[s.jobs[j].workflow][s.jobs[j].stepIndex].kind == Http)
  }

  /**
   * A failure is tried again if and only if there are attempts left and the step, if it has a retry
   * rule, lists the failure's class; then the row is put back and nothing else changes.
   */
  lemma RetryOutcome(cfg: Config, s: State, j: nat, v: View)
    requires Shape(cfg, s) && Fails(cfg, s, j, v)
    ensures
      var t := DeliverJob(cfg, s, j, v);
      var job := s.jobs[j];
      && (TriesAgain(cfg, job, v.claim, v.reply.error) ==> t == Marked(s, j, Retryable, job.output))
      && (TriesAgain(cfg, job, v.claim, v.reply.error) <==> t.jobs[j].status == Retryable)
  {
    var job := s.jobs[j];
    RetriesListed(cfg.workflows[job.workflow][job.stepIndex], job, v.claim, v.reply.error);
    if !TriesAgain(cfg, job, v.claim, v.reply.error) {
      NotRetried(cfg, s, j, v);
    }
  }

  lemma RowStays(cfg: Config, s: State, t: State, r: nat, name: string, j: nat)
    requires Shape(cfg, s) && r < |s.runs| && j < |s.jobs| && WentTo(cfg, s, t, r, name)
    ensures j < |t.jobs| && t.jobs[j] == s.jobs[j]
  {
    assert t.jobs[..|s.jobs|][j] == s.jobs[j];
  }

  lemma LeftRow(cfg: Config, s: State, t: State, r: nat, i: nat, j: nat)
    requires Shape(cfg, s) && r < |s.runs| && j < |s.jobs| && Left(cfg, s, t, r, i)
    ensures j < |t.jobs| && t.jobs[j] == s.jobs[j]
  {
    assert t.jobs[..|s.jobs|][j] == s.jobs[j];
  }

  lemma SucceededRow(cfg: Config, s: State, t: State, j: nat, body: Option<string>, later: nat)
    requires Shape(cfg, s) && j < |s.jobs| && Succeeded(cfg, s, t, j, body, later)
    ensures j < |t.jobs| && t.jobs[j].status == Done
  {
    var done := Marked(s, j, Done, Or(body, s.jobs[j].output));
    if !Late(s.runs[s.jobs[j].run], later) {
      LeftRow(cfg, done, t, s.jobs[j].run, s.jobs[j].stepIndex, j);
    }
  }

  lemma CountedRow(cfg: Config, s: State, t: State, j: nat, body: Option<string>)
    requires Shape(cfg, s) && j < |s.jobs| && BranchCounts(cfg, s, t, j, body)
    ensures j < |t.jobs| && t.jobs[j].status == Done
  {
    var r := s.jobs[j].run;
    if s.runs[r].parallelCompleted + 1 >= s.runs[r].parallelCount {
      var closed := State(s.runs[r := s.runs[r].(parallelStep := None, parallelCount := 0, parallelCompleted := 0)],
                          Marked(s, j, Done, Or(body, s.jobs[j].output)).jobs);
      LeftRow(cfg, closed, t, r, s.jobs[j].stepIndex, j);
    }
  }

  lemma CaughtStatus(cfg: Config, s: State, j: nat, v: View, k: nat)
    requires Shape(cfg, s) && Fails(cfg, s, j, v) && !TriesAgain(cfg, s.jobs[j], v.claim, v.reply.error)
    requires FirstListing(cfg.workflows[s.jobs[j].workflow][s.jobs[j].stepIndex].catches, v.reply.error, k)
    ensures DeliverJob(cfg, s, j, v).jobs[j].status == Done
  {
    CatchOutcome(cfg, s, j, v, k);
    var catches := cfg.workflows[s.jobs[j].workflow][s.jobs[j].stepIndex].catches;
    RowStays(cfg, Marked(s, j, Done, s.jobs[j].output), DeliverJob(cfg, s, j, v), s.jobs[j].run, catches[k].goto, j);
  }

  lemma UncaughtStatus(cfg: Config, s: State, j: nat, v: View)
    requires Shape(cfg, s) && Fails(cfg, s, j, v) && !TriesAgain(cfg, s.jobs[j], v.claim, v.reply.error)
    requires forall c | c in cfg.workflows[s.jobs[j].workflow][s.jobs[j].stepIndex].catches :: !Lists(c.errors, v.reply.error)
    ensures DeliverJob(cfg, s, j, v).jobs[j].status in {Done, Dead}
  {
    UncaughtOutcome(cfg, s, j, v);
    if cfg.workflows[s.jobs[j].workflow][s.jobs[j].stepIndex].onFailure == Continue {
      if s.jobs[j].branch == None {
        SucceededRow(cfg, s, DeliverJob(cfg, s, j, v), j, Some("error"), v.later);
      } else {
        CountedRow(cfg, s, DeliverJob(cfg, s, j, v), j, Some("error"));
      }
    }
  }

  /** Whatever else happens, the row is over. */
  lemma NotRetried(cfg: Config, s: State, j: nat, v: View)
    requires Shape(cfg, s) && Fails(cfg, s, j, v) && !TriesAgain(cfg, s.jobs[j], v.claim, v.reply.error)
    ensures DeliverJob(cfg, s, j, v).jobs[j].status in {Done, Dead}
  {
    var catches := cfg.workflows[s.jobs[j].workflow][s.jobs[j].stepIndex].catches;
    if exists c | c in catches :: Lists(c.errors, v.reply.error) {
      var k := FirstListingExists(catches, v.reply.error);
      CaughtStatus(cfg, s, j, v, k);
    } else {
      UncaughtStatus(cfg, s, j, v);
    }
  }

  lemma {:induction false} FirstListingExists(catches: seq<CatchRule>, f: WorkflowConfig.Failure) returns (k: nat)
    requires exists c | c in catches :: Lists(c.errors, f)
    ensures FirstListing(catches, f, k)
    decreases |catches|
  {
    if Lists(catches[0].errors, f) {
      k := 0;
    } else {
      var rest := catches[1..];
      assert forall i :: 0 < i < |catches| ==> catches[i] == rest[i - 1];
      var i := FirstListingExists(rest, f);
      k := i + 1;
    }
  }

  /** A failure that is not tried again goes where the first catch rule leads that lists its class. */
  lemma CatchOutcome(cfg: Config, s: State, j: nat, v: View, k: nat)
    requires Shape(cfg, s) && Fails(cfg, s, j, v) && !TriesAgain(cfg, s.jobs[j], v.claim, v.reply.error)
    requires FirstListing(cfg.workflows[s.jobs[j].workflow][s.jobs[j].stepIndex].catches, v.reply.error, k)
    ensures
      var done := Marked(s, j, Done, s.jobs[j].output);
      var catches := cfg.workflows[s.jobs[j].workflow][s.jobs[j].stepIndex].catches;
      Shape(cfg, done) && WentTo(cfg, done, DeliverJob(cfg, s, j, v), s.jobs[j].run, catches[k].goto)
  {
    var job := s.jobs[j];
    var steps := cfg.workflows[job.workflow];
    var step := steps[job.stepIndex];
    assert ValidStep(cfg.workflows, job.workflow, steps, step);
    RetriesListed(step, job, v.claim, v.reply.error);
    FirstCatchListed(step.catches, v.reply.error, k);
    assert step.catches[k] in step.catches;
    var i := FindStep(steps, step.catches[k].goto).value;
    assert SetStatus(cfg, s, j, Done) == Marked(s, j, Done, job.output);
    EnterWent(cfg, SetStatus(cfg, s, j, Done), job.run, i);
  }

  /**
   * One that no catch rule lists is taken for a success with an error payload under `continue`, and
   * else buries its job and fails its run.
   */
  lemma UncaughtOutcome(cfg: Config, s: State, j: nat, v: View)
    requires Shape(cfg, s) && Fails(cfg, s, j, v) && !TriesAgain(cfg, s.jobs[j], v.claim, v.reply.error)
    requires forall c | c in cfg.workflows[s.jobs[j].workflow][s.jobs[j].stepIndex].catches :: !Lists(c.errors, v.reply.error)
    ensures
      var t := DeliverJob(cfg, s, j, v);
      var job := s.jobs[j];
      if cfg.workflows[job.workflow][job.stepIndex].onFailure == Stop then t == Failing(Marked(s, j, Dead, job.output), job.run)
      else if job.branch == None then Succeeded(cfg, s, t, j, Some("error"), v.later)
      else BranchCounts(cfg, s, t, j, Some("error"))
  {
    var job := s.jobs[j];
    RetriesListed(cfg.workflows[job.workflow][job.stepIndex], job, v.claim, v.reply.error);
    NoCatchListed(cfg.workflows[job.workflow][job.stepIndex].catches, v.reply.error);
    if job.branch.None? {
      StepSucceeded(cfg, s, j, Some("error"), v.later);
    } else {
      BranchCounted(cfg, s, j, Some("error"));
    }
  }

  // ---- Steps handled inside the engine -------------------------------------

  ghost predicate FirstToHold(rules: seq<ChoiceRule>, holds: set<string>, k: nat) {
    && k < |rules|
    && rules[k].when in holds
    && forall i :: 0 <= i < k ==> rules[i].when !in holds
  }

  lemma {:induction false} HoldingIsFirst(rules: seq<ChoiceRule>, holds: set<string>, k: nat)
    requires FirstToHold(rules, holds, k)
    ensures FirstHolding(rules, holds) == Some(rules[k].goto)
    decreases |rules|
  {
    if k > 0 {
      assert FirstToHold(rules[1..], holds, k - 1);
      HoldingIsFirst(rules[1..], holds, k - 1);
    }
  }

  /** The run goes where the first rule leads whose condition holds, else where the default leads, else it fails. */
  lemma ChoiceOutcome(cfg: Config, s: State, j: nat, v: View)
    requires Shape(cfg, s) && j < |s.jobs| && s.jobs[j].branch == None && !Late(s.runs[s.jobs[j].run], v.now)
    requires cfg.workflows[s.jobs[j].workflow][s.jobs[j].stepIndex].kind.Choice?
    ensures
      var t := DeliverJob(cfg, s, j, v);
      var r, kind := s.jobs[j].run, cfg.workflows[s.jobs[j].workflow][s.jobs[j].stepIndex].kind;
      var done := Marked(s, j, Done, s.jobs[j].output);
      && Shape(cfg, done)
      && (forall k: nat :: FirstToHold(kind.rules, v.holds, k) ==> WentTo(cfg, done, t, r, kind.rules[k].goto))
      && ((forall rule | rule in kind.rules :: rule.when !in v.holds) ==>
            match kind.default
            case Some(goto) => WentTo(cfg, done, t, r, goto)
            case None => t == Failing(done, r))
  {
    var job := s.jobs[j];
    var steps := cfg.workflows[job.workflow];
    var kind := steps[job.stepIndex].kind;
    assert ValidStep(cfg.workflows, job.workflow, steps, steps[job.stepIndex]);
    assert SetStatus(cfg, s, j, Done) == Marked(s, j, Done, job.output);
    forall k: nat | FirstToHold(kind.rules, v.holds, k)
      ensures WentTo(cfg, Marked(s, j, Done, job.output), DeliverJob(cfg, s, j, v), job.run, kind.rules[k].goto)
    {
      HoldingIsFirst(kind.rules, v.holds, k);
      assert kind.rules[k] in kind.rules;
      EnterWent(cfg, SetStatus(cfg, s, j, Done), job.run, FindStep(steps, kind.rules[k].goto).value);
    }
    if (forall rule | rule in kind.rules :: rule.when !in v.holds) && kind.default.Some? {
      EnterWent(cfg, SetStatus(cfg, s, j, Done), job.run, FindStep(steps, kind.default.value).value);
    }
  }

  /** One untouched job for each name, and a join that counts them, as far as its column reaches. */
  ghost predicate Forked(cfg: Config, s: State, t: State, r: nat, i: nat, names: seq<string>)
    requires Shape(cfg, s) && r < |s.runs|
  {
    var w := s.runs[r].workflow;
    && i < |cfg.workflows[w]|
    && t.runs == s.runs[r := s.runs[r].(
                        parallelStep := Some(cfg.workflows[w][i].name),
                        parallelCount := if |names| > 2147483647 then 2147483647 else |names|,
                        parallelCompleted := 0)]
    && |t.jobs| == |s.jobs| + |names|
    && t.jobs[..|s.jobs|] == s.jobs
    && forall k :: 0 <= k < |names| ==> Untouched(cfg, w, r, i, Some(names[k]), t.jobs[|s.jobs| + k])
  }

  lemma ForkForked(cfg: Config, s: State, r: nat, i: nat, names: seq<string>)
    requires Shape(cfg, s) && r < |s.runs| && i < |StepsOf(cfg, s, r)|
    ensures Forked(cfg, s, Fork(cfg, s, r, i, names), r, i, names)
  {
  }

  lemma ParallelOutcome(cfg: Config, s: State, j: nat, v: View)
    requires Shape(cfg, s) && j < |s.jobs| && s.jobs[j].branch == None && !Late(s.runs[s.jobs[j].run], v.now)
    requires cfg.workflows[s.jobs[j].workflow][s.jobs[j].stepIndex].kind.Parallel?
    ensures
      var done := Marked(s, j, Done, s.jobs[j].output);
      && Shape(cfg, done)
      && Forked(cfg, done, DeliverJob(cfg, s, j, v), s.jobs[j].run, s.jobs[j].stepIndex,
                cfg.workflows[s.jobs[j].workflow][s.jobs[j].stepIndex].kind.branches)
  {
    var job := s.jobs[j];
    assert SetStatus(cfg, s, j, Done) == Marked(s, j, Done, job.output);
    ForkForked(cfg, SetStatus(cfg, s, j, Done), job.run, job.stepIndex, cfg.workflows[job.workflow][job.stepIndex].kind.branches);
  }

  /** A map forks into one job for each item, named by its position; an empty list gives the empty result and no job. */
  lemma MapOutcome(cfg: Config, s: State, j: nat, v: View)
    requires Shape(cfg, s) && j < |s.jobs| && s.jobs[j].branch == None && !Late(s.runs[s.jobs[j].run], v.now)
    requires cfg.workflows[s.jobs[j].workflow][s.jobs[j].stepIndex].kind == MapItems
    ensures
      var t := DeliverJob(cfg, s, j, v);
      var done := Marked(s, j, Done, s.jobs[j].output);
      && Shape(cfg, done)
      && match v.input
         case NotJson => t == done
         case Json(n) =>
           if n == 0 then t == Marked(s, j, Done, Some("[]"))
           else
             exists names: seq<string> ::
               && |names| == n
               && (forall k :: 0 <= k < n ==> names[k] == Text.Decimal(k))
               && Forked(cfg, done, t, s.jobs[j].run, s.jobs[j].stepIndex, names)
  {
    var job := s.jobs[j];
    var done := SetStatus(cfg, s, j, Done);
    assert done == Marked(s, j, Done, job.output);
    if v.input.Json? && v.input.items > 0 {
      ForkForked(cfg, done, job.run, job.stepIndex, ItemNames(v.input.items));
    } else if v.input.Json? {
      DoneIsMarked(cfg, s, j, Some("[]"));
    }
  }

  /** A wait goes on to the next step, `end` or not, unless its timestamp cannot be read. */
  lemma WaitOutcome(cfg: Config, s: State, j: nat, v: View)
    requires Shape(cfg, s) && j < |s.jobs| && s.jobs[j].branch == None && !Late(s.runs[s.jobs[j].run], v.now)
    requires cfg.workflows[s.jobs[j].workflow][s.jobs[j].stepIndex].kind.Wait?
    ensures
      var t := DeliverJob(cfg, s, j, v);
      var job, done := s.jobs[j], Marked(s, j, Done, s.jobs[j].output);
      var steps := cfg.workflows[job.workflow];
      && Shape(cfg, done)
      && if steps[job.stepIndex].kind.byTimestamp && v.input == NotJson then t == done
         else if job.stepIndex + 1 < |steps| then Went(cfg, done, t, job.run, job.stepIndex + 1)
         else Completes(done, t, job.run)
  {
    var job := s.jobs[j];
    var done := SetStatus(cfg, s, j, Done);
    assert done == Marked(s, j, Done, job.output);
    if job.stepIndex + 1 < |cfg.workflows[job.workflow]| {
      EnterWent(cfg, done, job.run, job.stepIndex + 1);
    } else {
      ResumedOthers(cfg, done, job.run);
    }
  }

  /** A callback step leaves one job that waits under its own number as a token. */
  lemma CallbackOutcome(cfg: Config, s: State, j: nat, v: View)
    requires Shape(cfg, s) && j < |s.jobs| && s.jobs[j].branch == None && !Late(s.runs[s.jobs[j].run], v.now)
    requires cfg.workflows[s.jobs[j].workflow][s.jobs[j].stepIndex].kind == Callback
    ensures
      var t := DeliverJob(cfg, s, j, v);
      var job := s.jobs[j];
      && t.runs == s.runs
      && |t.jobs| == |s.jobs| + 1
      && t.jobs[..|s.jobs|] == Marked(s, j, Done, job.output).jobs
      && var waiting := t.jobs[|s.jobs|];
         && waiting.status == Waiting && waiting.token == Some(|s.jobs|)
         && Untouched(cfg, job.workflow, job.run, job.stepIndex, None, waiting.(status := Available, token := None))
  {
    assert SetStatus(cfg, s, j, Done) == Marked(s, j, Done, s.jobs[j].output);
  }

  /** A run of the workflow that stands at its first step, with that step's job. */
  ghost predicate Launched(cfg: Config, s: State, t: State, w: string, deadline: Option<nat>, parent: Option<Parent>)
    requires ValidWorkflows(cfg.workflows) && w in cfg.workflows
  {
    && |t.runs| == |s.runs| + 1
    && t.runs[..|s.runs|] == s.runs
    && t.runs[|s.runs|] == Run(w, InProgress, cfg.workflows[w][0].name, deadline, None, 0, 0, parent)
    && |t.jobs| == |s.jobs| + 1
    && t.jobs[..|s.jobs|] == s.jobs
    && Untouched(cfg, w, |s.runs|, 0, None, t.jobs[|s.jobs|])
  }

  /** A started run has its deadline. */
  lemma StartOutcome(cfg: Config, s: State, w: string, deadline: Option<nat>)
    requires Shape(cfg, s) && w in cfg.workflows
    ensures Launched(cfg, s, Next(cfg, s, Start(w, deadline)), w, deadline, None)
  {
  }

  /** A sub-workflow step launches a run, without a deadline of its own, that knows where its parent waits. */
  lemma SubWorkflowOutcome(cfg: Config, s: State, j: nat, v: View)
    requires Shape(cfg, s) && j < |s.jobs| && s.jobs[j].branch == None && !Late(s.runs[s.jobs[j].run], v.now)
    requires cfg.workflows[s.jobs[j].workflow][s.jobs[j].stepIndex].kind.SubWorkflow?
    ensures
      var job := s.jobs[j];
      var target := cfg.workflows[job.workflow][job.stepIndex].kind.target;
      && target in cfg.workflows
      && Launched(cfg, Marked(s, j, Done, job.output), DeliverJob(cfg, s, j, v), target, None, Some(Parent(job.run, job.stepIndex)))
  {
    var job := s.jobs[j];
    assert ValidStep(cfg.workflows, job.workflow, cfg.workflows[job.workflow], cfg.workflows[job.workflow][job.stepIndex]);
    assert SetStatus(cfg, s, j, Done) == Marked(s, j, Done, job.output);
  }

  /** The body of a callback is saved on the job that waited, and its run leaves the step. */
  lemma ResumedOutcome(cfg: Config, s: State, token: nat, body: string, j: nat)
    requires Shape(cfg, s) && j < |s.jobs| && s.jobs[j].token == Some(token)
    requires forall k :: 0 <= k < |s.jobs| && k != j ==> s.jobs[k].token != Some(token)
    ensures
      var t := Next(cfg, s, CallbackReceived(token, body));
      var done := Marked(s, j, Done, Some(body));
      if s.jobs[j].status != Waiting then t == s
      else Shape(cfg, done) && Left(cfg, done, t, s.jobs[j].run, s.jobs[j].stepIndex)
  {
    if s.jobs[j].status == Waiting {
      DoneIsMarked(cfg, s, j, Some(body));
      LeaveLeft(cfg, SaveOutput(cfg, SetStatus(cfg, s, j, Done), j, Some(body)), s.jobs[j].run, s.jobs[j].stepIndex);
    }
  }

  /** A claim takes a row that is on offer, and counts; a recovery offers a running row again. */
  lemma ClaimOutcome(cfg: Config, s: State, j: nat)
    requires Shape(cfg, s) && j < |s.jobs|
    ensures
      var job := s.jobs[j];
      && Next(cfg, s, Claim(j)) ==
           (if job.status == Available || job.status == Retryable
            then State(s.runs, s.jobs[j := job.(status := Running, attempt := job.attempt + 1)]) else s)
      && Next(cfg, s, Recover(j)) == (if job.status == Running then State(s.runs, s.jobs[j := job.(status := Retryable)]) else s)
  {
  }
}
