/** Which answer a branch's row keeps over a history, and so which answers a join merges. */
module WorkflowAnswers {
  import opened Wrappers
  import opened WorkflowConfig
  import opened WorkflowModel
  import opened WorkflowToken
  import opened WorkflowDelivery
  import opened WorkflowSafety
  import opened WorkflowJoin
  import Text

  // ---- New rows ------------------------------------------------------------

  /** The jobs of `s` stand unchanged at the front of those of `t`; the others are neither done nor have an output. */
  ghost predicate Appends(s: State, t: State) {
    s.jobs <= t.jobs && forall k :: |s.jobs| <= k < |t.jobs| ==> t.jobs[k].output == None && t.jobs[k].status in {Available, Waiting}
  }

  lemma EnterAppends(cfg: Config, s: State, r: nat, i: nat)
    requires Shape(cfg, s) && r < |s.runs| && i < |StepsOf(cfg, s, r)|
    ensures Appends(s, Enter(cfg, s, r, i))
  {
  }

  lemma ForkAppends(cfg: Config, s: State, r: nat, i: nat, names: seq<string>)
    requires Shape(cfg, s) && r < |s.runs| && i < |StepsOf(cfg, s, r)|
    ensures Appends(s, Fork(cfg, s, r, i, names))
  {
  }

  lemma {:induction false} AdvanceAppends(cfg: Config, s: State, r: nat, i: nat)
    requires Shape(cfg, s) && r < |s.runs| && i < |StepsOf(cfg, s, r)|
    ensures Appends(s, Advance(cfg, s, r, i))
    decreases r, 1
  {
    if i + 1 < |StepsOf(cfg, s, r)| {
      EnterAppends(cfg, s, r, i + 1);
    } else {
      FinishAppends(cfg, s, r);
    }
  }

  lemma {:induction false} FinishAppends(cfg: Config, s: State, r: nat)
    requires Shape(cfg, s) && r < |s.runs|
    ensures Appends(s, ResumeParent(cfg, SetRunStatus(cfg, s, r, Completed), r))
    decreases r, 0
  {
    var done := SetRunStatus(cfg, s, r, Completed);
    if s.runs[r].parent.Some? {
      var p := s.runs[r].parent.value;
      assert ParentShape(cfg, s.runs, r, p);
      AdvanceAppends(cfg, done, p.run, p.stepIndex);
    }
  }

  lemma LeaveAppends(cfg: Config, s: State, r: nat, i: nat)
    requires Shape(cfg, s) && r < |s.runs| && i < |StepsOf(cfg, s, r)|
    ensures Appends(s, Leave(cfg, s, r, i))
  {
    if StepsOf(cfg, s, r)[i].end {
      FinishAppends(cfg, s, r);
    } else {
      AdvanceAppends(cfg, s, r, i);
    }
  }

  lemma SuccessAppends(cfg: Config, s: State, j: nat, body: Option<string>, now: nat)
    requires Shape(cfg, s) && j < |s.jobs|
    ensures Appends(SaveOutput(cfg, s, j, body), StepSuccess(cfg, s, j, body, now))
  {
    var job := s.jobs[j];
    var saved := SaveOutput(cfg, s, j, body);
    LeaveAppends(cfg, saved, job.run, job.stepIndex);
    LeaveAppends(cfg, SetParallel(cfg, saved, job.run, None, 0, 0), job.run, job.stepIndex);
  }

  lemma InternalAppendsRows(cfg: Config, s: State, j: nat, v: View)
    requires Shape(cfg, s) && j < |s.jobs|
    ensures |s.jobs| <= |Internal(cfg, s, j, v).jobs|
    ensures forall k :: 0 <= k < |s.jobs| && k != j ==> Internal(cfg, s, j, v).jobs[k] == s.jobs[k]
    ensures forall k :: |s.jobs| <= k < |Internal(cfg, s, j, v).jobs| ==>
      Internal(cfg, s, j, v).jobs[k].output == None && Internal(cfg, s, j, v).jobs[k].status in {Available, Waiting}
  {
    var r, i := s.jobs[j].run, s.jobs[j].stepIndex;
    var steps := cfg.workflows[s.jobs[j].workflow];
    assert ValidStep(cfg.workflows, s.jobs[j].workflow, steps, steps[i]);
    match steps[i].kind
    case Choice(rules, default) =>
      if Target(rules, default, v.holds).Some? {
        EnterAppends(cfg, s, r, FindStep(steps, Target(rules, default, v.holds).value).value);
      }
    case Parallel(branches) => ForkAppends(cfg, s, r, i, branches);
    case MapItems =>
      if v.input.Json? && v.input.items > 0 {
        ForkAppends(cfg, s, r, i, ItemNames(v.input.items));
      }
    case Wait(_) => AdvanceAppends(cfg, s, r, i);
    case _ =>
  }

  lemma FailureAppends(cfg: Config, s: State, j: nat, v: View)
    requires Shape(cfg, s) && j < |s.jobs| && v.reply.Failure?
    ensures
      var t := StepFailure(cfg, s, j, v.claim, v.reply.error, v.later);
      forall k :: |s.jobs| <= k < |t.jobs| ==> t.jobs[k].output == None && t.jobs[k].status in {Available, Waiting}
  {
    var job := s.jobs[j];
    var steps := cfg.workflows[job.workflow];
    var f := v.reply.error;
    if !WillRetry(steps[job.stepIndex], job, v.claim, f) {
      if FirstCatch(steps[job.stepIndex].catches, f).Some? {
        assert ValidStep(cfg.workflows, job.workflow, steps, steps[job.stepIndex]);
        EnterAppends(cfg, SetStatus(cfg, s, j, Done), job.run, FindStep(steps, FirstCatch(steps[job.stepIndex].catches, f).value).value);
      } else {
        SuccessAppends(cfg, SetStatus(cfg, s, j, Done), j, Some(ERROR_PAYLOAD), v.later);
      }
    }
  }

  lemma DeliveryAppends(cfg: Config, s: State, j: nat, v: View)
    requires Shape(cfg, s) && j < |s.jobs|
    ensures
      var t := DeliverJob(cfg, s, j, v);
      forall k :: |s.jobs| <= k < |t.jobs| ==> t.jobs[k].output == None && t.jobs[k].status in {Available, Waiting}
  {
    var job := s.jobs[j];
    if !Expired(s.runs[job.run], v.now) {
      if job.branch.None? && !cfg.workflows[job.workflow][job.stepIndex].kind.Http? {
        InternalAppendsRows(cfg, SetStatus(cfg, s, j, Done), j, v);
      } else {
        match v.reply
        case Success(body) => SuccessAppends(cfg, SetStatus(cfg, s, j, Done), j, body, v.later);
        case Failure(_) => FailureAppends(cfg, s, j, v);
      }
    }
  }

  // ---- What a branch's row keeps -------------------------------------------

  /** What a delivery of a branch makes of its answer: the body, or the error payload of a failure that goes on. */
  function Answer(v: View): Option<string> {
    match v.reply
    case Success(body) => body
    case Failure(_) => Some("error")
  }

  /** A delivered branch is done with its answer, or not done. */
  lemma DeliveredBranch(cfg: Config, s: State, j: nat, v: View)
    requires Shape(cfg, s) && j < |s.jobs| && s.jobs[j].branch.Some? && s.jobs[j].output == None && !LosesRun(cfg, s, j, v)
    ensures
      var row := DeliverJob(cfg, s, j, v).jobs[j];
      row.output == if row.status == Done then Answer(v) else None
  {
    DeliveryTouchesOneRow(cfg, s, j, v);
    if !Expired(s.runs[s.jobs[j].run], v.now) {
      var done := SetStatus(cfg, s, j, Done);
      SuccessAppends(cfg, done, j, Answer(v), v.later);
      assert SaveOutput(cfg, done, j, Answer(v)).jobs[j].output == Answer(v);
    }
  }

  /** The answer to the last delivery of job `k`; `before` when the history has none. */
  ghost function LastAnswer(cfg: Config, s: State, events: seq<Event>, k: nat, before: Option<Option<string>>): Option<Option<string>>
    requires Shape(cfg, s)
    decreases |events|
  {
    if |events| == 0 then before
    else LastAnswer(cfg, Next(cfg, s, events[0]), events[1..], k, After(s, events[0], k, before))
  }

  function After(s: State, e: Event, k: nat, before: Option<Option<string>>): Option<Option<string>> {
    if e.Deliver? && e.job == k && k < |s.jobs| then Some(Answer(e.view)) else before
  }

  /** A branch that is done has the answer to its last delivery; one that is not has no output yet. */
  ghost predicate Keeps(s: State, k: nat, last: Option<Option<string>>) {
    k < |s.jobs| && s.jobs[k].branch.Some? ==>
      if s.jobs[k].status == Done then last.Some? && s.jobs[k].output == last.value else s.jobs[k].output == None
  }

  lemma DeliverKeepsAnswer(cfg: Config, s: State, j: nat, v: View, k: nat, last: Option<Option<string>>)
    requires Inv(cfg, s) && Keeps(s, k, last)
    requires j < |s.jobs| && s.jobs[j].status == Running && !LosesRun(cfg, s, j, v)
    ensures Keeps(DeliverJob(cfg, s, j, v), k, After(s, Deliver(j, v), k, last))
  {
    DeliveryTouchesOneRow(cfg, s, j, v);
    DeliveryAppends(cfg, s, j, v);
    if k == j && s.jobs[j].branch.Some? {
      DeliveredBranch(cfg, s, j, v);
    }
  }

  lemma CallbackKeepsAnswer(cfg: Config, s: State, token: nat, body: string, k: nat, last: Option<Option<string>>)
    requires Inv(cfg, s) && Keeps(s, k, last)
    ensures Keeps(ReceiveCallback(cfg, s, token, body), k, last)
  {
    var found := FindToken(s.jobs, token);
    if found.Some? && s.jobs[found.value].status == Waiting {
      var j := found.value;
      assert JobOk(cfg, s, j);
      LeaveAppends(cfg, SaveOutput(cfg, SetStatus(cfg, s, j, Done), j, Some(body)), s.jobs[j].run, s.jobs[j].stepIndex);
    }
  }

  lemma EventKeepsAnswer(cfg: Config, s: State, e: Event, k: nat, last: Option<Option<string>>)
    requires Inv(cfg, s) && Benign(cfg, s, e) && Timely(s, e) && Keeps(s, k, last)
    ensures Keeps(Next(cfg, s, e), k, After(s, e, k, last))
  {
    match e
    case Deliver(j, v) =>
      if j < |s.jobs| {
        DeliverKeepsAnswer(cfg, s, j, v, k, last);
      }
    case CallbackReceived(token, body) => CallbackKeepsAnswer(cfg, s, token, body, k, last);
    case _ =>
  }

  lemma {:induction false} HistoryKeepsAnswer(cfg: Config, s: State, events: seq<Event>, k: nat, last: Option<Option<string>>)
    requires Inv(cfg, s) && TimelyRun(cfg, s, events) && Keeps(s, k, last)
    ensures Inv(cfg, Exec(cfg, s, events)) && Keeps(Exec(cfg, s, events), k, LastAnswer(cfg, s, events, k, last))
    decreases |events|
  {
    if |events| > 0 {
      EventKeepsToken(cfg, s, events[0]);
      EventKeepsAnswer(cfg, s, events[0], k, last);
      HistoryKeepsAnswer(cfg, Next(cfg, s, events[0]), events[1..], k, After(s, events[0], k, last));
    }
  }

  /** Over every timely history from empty tables a branch that is done keeps the answer to its last delivery. */
  lemma BranchKeepsAnswer(cfg: Config, events: seq<Event>, k: nat)
    requires ValidWorkflows(cfg.workflows) && TimelyRun(cfg, EMPTY, events)
    ensures
      var jobs := Exec(cfg, EMPTY, events).jobs;
      k < |jobs| && jobs[k].branch.Some? && jobs[k].status == Done ==>
        LastAnswer(cfg, EMPTY, events, k, None) == Some(jobs[k].output)
  {
    assert Inv(cfg, EMPTY);
    HistoryKeepsAnswer(cfg, EMPTY, events, k, None);
  }

  // ---- What the join merges ------------------------------------------------

  /** The tables when the last branch `j` has been answered with `body`, and the answer to each branch. */
  ghost function AnswerTo(cfg: Config, events: seq<Event>, j: nat, body: Option<string>, k: nat): Option<string>
    requires ValidWorkflows(cfg.workflows)
  {
    if k == j then body
    else match LastAnswer(cfg, EMPTY, events, k, None) case Some(answer) => answer case None => None
  }

  lemma SavedAnswer(cfg: Config, events: seq<Event>, j: nat, body: Option<string>, k: nat)
    requires ValidWorkflows(cfg.workflows) && TimelyRun(cfg, EMPTY, events)
    requires j < |Exec(cfg, EMPTY, events).jobs| && Exec(cfg, EMPTY, events).jobs[j].status == Running
    requires k < |Exec(cfg, EMPTY, events).jobs| && Exec(cfg, EMPTY, events).jobs[k].branch.Some?
    requires k == j || Exec(cfg, EMPTY, events).jobs[k].status == Done
    ensures
      var s := Exec(cfg, EMPTY, events);
      SaveOutput(cfg, SetStatus(cfg, s, j, Done), j, body).jobs[k].output == AnswerTo(cfg, events, j, body, k)
  {
    assert Inv(cfg, EMPTY);
    HistoryKeepsAnswer(cfg, EMPTY, events, k, None);
  }

  /** Branch `j` is the last of its join to be answered. */
  ghost predicate LastOfJoin(cfg: Config, s: State, j: nat)
    requires Shape(cfg, s)
  {
    && j < |s.jobs| && s.jobs[j].status == Running && s.jobs[j].branch.Some?
    && s.runs[s.jobs[j].run].parallelCompleted + 1 >= s.runs[s.jobs[j].run].parallelCount
  }

  lemma ForksFromEmpty(cfg: Config, events: seq<Event>)
    requires ValidWorkflows(cfg.workflows) && Forward(cfg) && TimelyRun(cfg, EMPTY, events)
    ensures Inv(cfg, Exec(cfg, EMPTY, events)) && AllForksOk(cfg, Exec(cfg, EMPTY, events))
  {
    assert Inv(cfg, EMPTY) && AllForksOk(cfg, EMPTY);
    EveryForkIsRight(cfg, EMPTY, events);
  }

  /** Every branch of the join has its answer on its row. */
  lemma JoinedAnswers(cfg: Config, events: seq<Event>, j: nat, body: Option<string>, k: nat)
    requires ValidWorkflows(cfg.workflows) && Forward(cfg) && TimelyRun(cfg, EMPTY, events)
    requires LastOfJoin(cfg, Exec(cfg, EMPTY, events), j)
    requires k < |Exec(cfg, EMPTY, events).jobs|
    requires IsBranch(Exec(cfg, EMPTY, events).jobs[k], Exec(cfg, EMPTY, events).jobs[j].run, Exec(cfg, EMPTY, events).jobs[j].stepIndex)
    ensures
      var s := Exec(cfg, EMPTY, events);
      var saved := SaveOutput(cfg, SetStatus(cfg, s, j, Done), j, body);
      IsBranch(saved.jobs[k], s.jobs[j].run, s.jobs[j].stepIndex) && saved.jobs[k].branch == s.jobs[k].branch
      && saved.jobs[k].output == AnswerTo(cfg, events, j, body, k)
  {
    var s := Exec(cfg, EMPTY, events);
    var saved := SaveOutput(cfg, SetStatus(cfg, s, j, Done), j, body);
    ForksFromEmpty(cfg, events);
    FinishedRow(cfg, s, j, body);
    JoinSeesEveryBranch(cfg, s, j, body);
    assert IsBranch(saved.jobs[k], s.jobs[j].run, s.jobs[j].stepIndex);
    SavedAnswer(cfg, events, j, body, k);
  }

  /**
   * Over every timely history with forward gotos: when the last branch of a parallel step is
   * answered, the merged object has exactly the configured branches as keys and under each the
   * answer that the last delivery of that branch got.
   */
  lemma ParallelMergesAnswers(cfg: Config, events: seq<Event>, j: nat, body: Option<string>)
    requires ValidWorkflows(cfg.workflows) && Forward(cfg) && TimelyRun(cfg, EMPTY, events)
    requires LastOfJoin(cfg, Exec(cfg, EMPTY, events), j)
    requires cfg.workflows[Exec(cfg, EMPTY, events).jobs[j].workflow][Exec(cfg, EMPTY, events).jobs[j].stepIndex].kind.Parallel?
    ensures
      var s := Exec(cfg, EMPTY, events);
      var job := s.jobs[j];
      var saved := SaveOutput(cfg, SetStatus(cfg, s, j, Done), j, body);
      var merged := JoinedObject(saved.jobs, job.run, job.stepName);
      && (forall name :: name in merged <==> name in cfg.workflows[job.workflow][job.stepIndex].kind.branches)
      && (forall k :: 0 <= k < |s.jobs| && IsBranch(s.jobs[k], job.run, job.stepIndex) ==>
            s.jobs[k].branch.value in merged && merged[s.jobs[k].branch.value] == AnswerTo(cfg, events, j, body, k))
  {
    var s := Exec(cfg, EMPTY, events);
    var job := s.jobs[j];
    var saved := SaveOutput(cfg, SetStatus(cfg, s, j, Done), j, body);
    var merged := JoinedObject(saved.jobs, job.run, job.stepName);
    ForksFromEmpty(cfg, events);
    ParallelMergesBranches(cfg, s, j, body);
    forall k | 0 <= k < |s.jobs| && IsBranch(s.jobs[k], job.run, job.stepIndex)
      ensures s.jobs[k].branch.value in merged && merged[s.jobs[k].branch.value] == AnswerTo(cfg, events, j, body, k)
    {
      JoinedAnswers(cfg, events, j, body, k);
      assert k < |saved.jobs| && IsBranch(saved.jobs[k], job.run, job.stepIndex);
    }
  }

  lemma AnswerInPlace(saved: seq<Job>, r: nat, i: nat, list: seq<Option<string>>, k: nat, answer: Option<string>)
    requires ItemsInPlace(saved, r, i, list) && k < |saved| && IsBranch(saved[k], r, i) && saved[k].output == answer
    ensures InPlace(saved[k].branch, list, answer)
  {
  }

  /** The answer stands in the list at the position that the branch is named by. */
  ghost predicate InPlace(branch: Option<string>, list: seq<Option<string>>, answer: Option<string>) {
    forall n: nat :: branch == Some(Text.Decimal(n)) ==> n < |list| && list[n] == answer
  }

  lemma JoinedInPlace(cfg: Config, events: seq<Event>, j: nat, body: Option<string>, list: seq<Option<string>>, k: nat)
    requires ValidWorkflows(cfg.workflows) && Forward(cfg) && TimelyRun(cfg, EMPTY, events)
    requires LastOfJoin(cfg, Exec(cfg, EMPTY, events), j)
    requires k < |Exec(cfg, EMPTY, events).jobs|
    requires IsBranch(Exec(cfg, EMPTY, events).jobs[k], Exec(cfg, EMPTY, events).jobs[j].run, Exec(cfg, EMPTY, events).jobs[j].stepIndex)
    requires
      var s := Exec(cfg, EMPTY, events);
      ItemsInPlace(SaveOutput(cfg, SetStatus(cfg, s, j, Done), j, body).jobs, s.jobs[j].run, s.jobs[j].stepIndex, list)
    ensures InPlace(Exec(cfg, EMPTY, events).jobs[k].branch, list, AnswerTo(cfg, events, j, body, k))
  {
    var s := Exec(cfg, EMPTY, events);
    var saved := SaveOutput(cfg, SetStatus(cfg, s, j, Done), j, body).jobs;
    JoinedAnswers(cfg, events, j, body, k);
    AnswerInPlace(saved, s.jobs[j].run, s.jobs[j].stepIndex, list, k, AnswerTo(cfg, events, j, body, k));
  }

  /** The same for a map: with up to ten items, the array has at each position the answer to that item's last delivery. */
  lemma MapMergesAnswers(cfg: Config, events: seq<Event>, j: nat, body: Option<string>)
    requires ValidWorkflows(cfg.workflows) && Forward(cfg) && TimelyRun(cfg, EMPTY, events)
    requires LastOfJoin(cfg, Exec(cfg, EMPTY, events), j)
    requires cfg.workflows[Exec(cfg, EMPTY, events).jobs[j].workflow][Exec(cfg, EMPTY, events).jobs[j].stepIndex].kind.MapItems?
    ensures
      var s := Exec(cfg, EMPTY, events);
      var job := s.jobs[j];
      var saved := SaveOutput(cfg, SetStatus(cfg, s, j, Done), j, body);
      var list := JoinedArray(saved.jobs, job.run, job.stepName);
      && |list| == s.runs[job.run].parallelCount
      && (|list| <= 10 ==>
            forall k :: 0 <= k < |s.jobs| && IsBranch(s.jobs[k], job.run, job.stepIndex) ==>
              InPlace(s.jobs[k].branch, list, AnswerTo(cfg, events, j, body, k)))
  {
    var s := Exec(cfg, EMPTY, events);
    var job := s.jobs[j];
    var saved := SaveOutput(cfg, SetStatus(cfg, s, j, Done), j, body);
    var list := JoinedArray(saved.jobs, job.run, job.stepName);
    ForksFromEmpty(cfg, events);
    MapMergesItems(cfg, s, j, body);
    if |list| <= 10 {
      forall k | 0 <= k < |s.jobs| && IsBranch(s.jobs[k], job.run, job.stepIndex)
        ensures InPlace(s.jobs[k].branch, list, AnswerTo(cfg, events, j, body, k))
      {
        JoinedInPlace(cfg, events, j, body, list, k);
      }
    }
  }
}
