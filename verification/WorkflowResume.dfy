/**
 * What completing a run does to its ancestors: the maximal chain of parents that stood at their
 * last step is completed, and the first parent beyond the chain gets exactly one job.
 */
module WorkflowResume {
  import opened Wrappers
  import opened WorkflowConfig
  import opened WorkflowModel

  /** Run `q` has a parent, and the sub-workflow step where the parent waits is its last one. */
  predicate ParentAtLastStep(cfg: Config, s: State, q: nat)
    requires q < |s.runs|
    requires s.runs[q].parent.Some? ==> ParentShape(cfg, s.runs, q, s.runs[q].parent.value)
  {
    s.runs[q].parent.Some? && s.runs[q].parent.value.stepIndex + 1 >= |StepsOf(cfg, s, s.runs[q].parent.value.run)|
  }

  /** The topmost run of a chain above `r`: `r` itself when the chain is empty. */
  function Top(r: nat, chain: seq<nat>): nat {
    if |chain| == 0 then r else chain[|chain| - 1]
  }

  /** The run whose parent is the chain's entry `k`. */
  function Below(r: nat, chain: seq<nat>, k: nat): nat
    requires k <= |chain|
  {
    if k == 0 then r else chain[k - 1]
  }

  /** The ancestors of `r` that complete with it: as far up as each parent is at its last step. */
  ghost function Chain(cfg: Config, s: State, r: nat): (chain: seq<nat>)
    requires Shape(cfg, s) && r < |s.runs|
    ensures forall k :: 0 <= k < |chain| ==> chain[k] < r
    ensures Top(r, chain) < |s.runs| && !ParentAtLastStep(cfg, s, Top(r, chain))
    decreases r
  {
    if !ParentAtLastStep(cfg, s, r) then []
    else
      var p := s.runs[r].parent.value.run;
      [p] + Chain(cfg, s, p)
  }

  /** Each entry of the chain is the parent of the run below it, waiting at its last step. */
  lemma {:induction false} ChainLinks(cfg: Config, s: State, r: nat, k: nat)
    requires Shape(cfg, s) && r < |s.runs| && k < |Chain(cfg, s, r)|
    ensures
      var chain := Chain(cfg, s, r);
      var q := Below(r, chain, k);
      q < |s.runs| && ParentAtLastStep(cfg, s, q) && chain[k] == s.runs[q].parent.value.run
    decreases k
  {
    if k > 0 {
      ChainLinks(cfg, s, s.runs[r].parent.value.run, k - 1);
    }
  }

  ghost predicate MovedOn(cfg: Config, s: State, p: Parent, t: State)
    requires Shape(cfg, s) && p.run < |s.runs|
  {
    var steps := StepsOf(cfg, s, p.run);
    && |t.runs| == |s.runs|
    && p.stepIndex + 1 < |steps|
    && t.runs[p.run] == s.runs[p.run].(currentStep := steps[p.stepIndex + 1].name)
    && t.jobs == s.jobs + [NewJob(cfg, s.runs[p.run].workflow, p.run, p.stepIndex + 1, None)]
  }

  /**
   * `t` differs from `s` by completing exactly the runs of `chain` and, when there is a run above
   * the chain, by moving that one run one step on with one new job.
   */
  ghost predicate ResumedAlong(cfg: Config, s: State, chain: seq<nat>, above: Option<Parent>, t: State)
    requires Shape(cfg, s) && (above.Some? ==> above.value.run < |s.runs|)
  {
    && |t.runs| == |s.runs|
    && (forall q | q in chain :: q < |s.runs| && t.runs[q] == s.runs[q].(status := Completed))
    && (forall q :: 0 <= q < |s.runs| && q !in chain && (above.Some? ==> above.value.run != q) ==> t.runs[q] == s.runs[q])
    && match above
       case None => t.jobs == s.jobs
       case Some(p) => p.run !in chain && MovedOn(cfg, s, p, t)
  }

  lemma {:induction false} ChainOfExtension(cfg: Config, s: State, t: State, r: nat)
    requires Shape(cfg, s) && Shape(cfg, t) && Extends(s, t) && r < |s.runs|
    ensures Chain(cfg, t, r) == Chain(cfg, s, r)
    decreases r
  {
    assert t.runs[r].parent == s.runs[r].parent;
    if s.runs[r].parent.Some? {
      assert ParentShape(cfg, s.runs, r, s.runs[r].parent.value);
      ChainOfExtension(cfg, s, t, s.runs[r].parent.value.run);
    }
  }

  lemma ExtendChainDown(cfg: Config, s: State, p: nat, rest: seq<nat>, above: Option<Parent>, t: State)
    requires Shape(cfg, s) && p < |s.runs| && p !in rest
    requires above.Some? ==> above.value.run < p
    requires ResumedAlong(cfg, SetRunStatus(cfg, s, p, Completed), rest, above, t)
    ensures ResumedAlong(cfg, s, [p] + rest, above, t)
  {
    var done := SetRunStatus(cfg, s, p, Completed);
    forall q | 0 <= q < |s.runs| && q !in [p] + rest && (above.Some? ==> above.value.run != q)
      ensures t.runs[q] == s.runs[q]
    {
      assert q != p && q !in rest;
    }
  }

  /** Resuming terminates and does exactly this, in every state of the tables. */
  lemma {:induction false} ResumeCompletesChain(cfg: Config, s: State, r: nat)
    requires Shape(cfg, s) && r < |s.runs|
    ensures
      var chain := Chain(cfg, s, r);
      ResumedAlong(cfg, s, chain, s.runs[Top(r, chain)].parent, ResumeParent(cfg, s, r))
    decreases r
  {
    if ParentAtLastStep(cfg, s, r) {
      var p := s.runs[r].parent.value.run;
      var done := SetRunStatus(cfg, s, p, Completed);
      var rest := Chain(cfg, s, p);
      ResumeCompletesChain(cfg, done, p);
      ChainOfExtension(cfg, s, done, p);
      assert Top(r, Chain(cfg, s, r)) == Top(p, rest);
      var above := s.runs[Top(p, rest)].parent;
      assert done.runs[Top(p, rest)].parent == above;
      assert above.Some? ==> ParentShape(cfg, s.runs, Top(p, rest), above.value);
      assert Top(p, rest) <= p;
      ExtendChainDown(cfg, s, p, rest, above, ResumeParent(cfg, done, p));
    } else {
      ResumeOnce(cfg, s, r);
    }
  }

  lemma ResumeOnce(cfg: Config, s: State, r: nat)
    requires Shape(cfg, s) && r < |s.runs| && !ParentAtLastStep(cfg, s, r)
    ensures ResumedAlong(cfg, s, [], s.runs[r].parent, ResumeParent(cfg, s, r))
  {
    if s.runs[r].parent.Some? {
      assert ParentShape(cfg, s.runs, r, s.runs[r].parent.value);
    }
  }

  /**
   * The `end` flag of a sub-workflow step is not looked at when its child completes: the parent
   * goes on to the following step all the same.
   */
  lemma EndIgnoredAfterSubWorkflow(cfg: Config, s: State, r: nat)
    requires Shape(cfg, s) && r < |s.runs| && s.runs[r].parent.Some?
    requires
      var Parent(p, i) := s.runs[r].parent.value;
      && ParentShape(cfg, s.runs, r, s.runs[r].parent.value)
      && StepsOf(cfg, s, p)[i].end
      && i + 1 < |StepsOf(cfg, s, p)|
    ensures
      var Parent(p, i) := s.runs[r].parent.value;
      MovedOn(cfg, s, s.runs[r].parent.value, ResumeParent(cfg, s, r))
  {
    ResumeCompletesChain(cfg, s, r);
  }
}
