/** Workflow definitions and the checks that configuration loading makes on them. */
module WorkflowConfig {
  import opened Wrappers

  const I32_MAX: nat := 0x7fff_ffff

  /** What `retry.errors` and `catch.errors` may list. */
  datatype ErrorType = Timeout | Http5xx | Http4xx | Network | All

  /** How a delivery can fail: the four error classes of the worker. */
  datatype Failure = TimedOut | ServerError | ClientError | NetworkError

  datatype RetryRule = RetryRule(max: nat, errors: seq<ErrorType>)

  datatype CatchRule = CatchRule(errors: seq<ErrorType>, goto: string)

  datatype ChoiceRule = ChoiceRule(when: string, goto: string)

  datatype OnFailure = Stop | Continue

  datatype Kind =
    | Http
    | Choice(rules: seq<ChoiceRule>, default: Option<string>)
    | Parallel(branches: seq<string>)
    | MapItems
    | Wait(byTimestamp: bool)
    | Callback
    | SubWorkflow(target: string)

  datatype Step = Step(
    name: string,
    kind: Kind,
    retry: Option<RetryRule>,
    catches: seq<CatchRule>,
    onFailure: OnFailure,
    end: bool)

  type Workflows = map<string, seq<Step>>

  datatype Config = Config(workflows: Workflows, defaultRetryMax: nat)

  predicate Covers(e: ErrorType, f: Failure) {
    match e
    case All => true
    case Timeout => f == TimedOut
    case Http5xx => f == ServerError
    case Http4xx => f == ClientError
    case Network => f == NetworkError
  }

  predicate ErrorTypeMatches(errors: seq<ErrorType>, f: Failure) {
    exists e | e in errors :: Covers(e, f)
  }

  /** Position of the step with the given name. */
  function FindStep(steps: seq<Step>, name: string): (r: Option<nat>)
    ensures r.Some? ==> r.value < |steps| && steps[r.value].name == name
    ensures r.Some? ==> forall i :: 0 <= i < r.value ==> steps[i].name != name
    ensures r.None? ==> forall i :: 0 <= i < |steps| ==> steps[i].name != name
  {
    if |steps| == 0 then None
    else if steps[0].name == name then Some(0)
    else
      match FindStep(steps[1..], name)
      case None =>
        assert forall i :: 1 <= i < |steps| ==> steps[i] == steps[1..][i - 1];
        None
      case Some(i) =>
        assert forall k :: 1 <= k < |steps| ==> steps[k] == steps[1..][k - 1];
        Some(i + 1)
  }

  predicate HasStep(steps: seq<Step>, name: string) {
    exists i :: 0 <= i < |steps| && steps[i].name == name
  }

  predicate DistinctNames(steps: seq<Step>) {
    forall i, k :: 0 <= i < k < |steps| ==> steps[i].name != steps[k].name
  }

  predicate Distinct(names: seq<string>) {
    forall i, k :: 0 <= i < k < |names| ==> names[i] != names[k]
  }

  /** The step-type specific part of configuration validation. */
  predicate ValidKind(ws: Workflows, w: string, steps: seq<Step>, kind: Kind) {
    match kind
    case Http => true
    case Choice(rules, default) =>
      && |rules| > 0
      && (forall c | c in rules :: HasStep(steps, c.goto))
      && (default.Some? ==> HasStep(steps, default.value))
    case Parallel(branches) => |branches| > 0 && Distinct(branches)
    case MapItems => true
    case Wait(_) => true
    case Callback => true
    case SubWorkflow(target) => target in ws && target != w
  }

  predicate ValidStep(ws: Workflows, w: string, steps: seq<Step>, step: Step) {
    && (forall c | c in step.catches :: HasStep(steps, c.goto))
    && ValidKind(ws, w, steps, step.kind)
  }

  predicate ValidSteps(ws: Workflows, w: string, steps: seq<Step>) {
    && |steps| > 0
    && DistinctNames(steps)
    && (forall i :: 0 <= i < |steps| ==> ValidStep(ws, w, steps, steps[i]))
  }

  /** The workflow part of what configuration loading accepts. */
  predicate ValidWorkflows(ws: Workflows) {
    forall w | w in ws :: ValidSteps(ws, w, ws[w])
  }

  function Clamp(n: nat): nat {
    if n <= I32_MAX then n else I32_MAX
  }

  function MaxAttempts(cfg: Config, step: Step): nat {
    Clamp(if step.retry.Some? then step.retry.value.max else cfg.defaultRetryMax)
  }

  /** A validated name is found at the one place that carries it. */
  lemma FindStepUnique(steps: seq<Step>, i: nat)
    requires DistinctNames(steps) && i < |steps|
    ensures FindStep(steps, steps[i].name) == Some(i)
  {
  }

  // ---- The checks as configuration loading makes them ----------------------

  /** Insert names into a set until one is there already. */
  method CheckDistinct(names: seq<string>) returns (ok: bool)
    ensures ok <==> Distinct(names)
  {
    var seen: set<string> := {};
    for k := 0 to |names|
      invariant seen == set i | 0 <= i < k :: names[i]
      invariant Distinct(names[..k])
    {
      if names[k] in seen {
        return false;
      }
      seen := seen + {names[k]};
    }
    assert names[..|names|] == names;
    return true;
  }

  method CheckGotos(steps: seq<Step>, known: set<string>, gotos: seq<string>) returns (ok: bool)
    requires known == set i | 0 <= i < |steps| :: steps[i].name
    ensures ok <==> forall g | g in gotos :: HasStep(steps, g)
  {
    for k := 0 to |gotos|
      invariant forall i :: 0 <= i < k ==> HasStep(steps, gotos[i])
    {
      if gotos[k] !in known {
        assert !HasStep(steps, gotos[k]);
        return false;
      }
    }
    return true;
  }

  function CatchGotos(catches: seq<CatchRule>): (gotos: seq<string>)
    ensures |gotos| == |catches| && forall k :: 0 <= k < |gotos| ==> gotos[k] == catches[k].goto
  {
    seq(|catches|, k requires 0 <= k < |catches| => catches[k].goto)
  }

  function RuleGotos(rules: seq<ChoiceRule>): (gotos: seq<string>)
    ensures |gotos| == |rules| && forall k :: 0 <= k < |gotos| ==> gotos[k] == rules[k].goto
  {
    seq(|rules|, k requires 0 <= k < |rules| => rules[k].goto)
  }

  method CheckStep(ws: Workflows, w: string, steps: seq<Step>, known: set<string>, step: Step) returns (ok: bool)
    requires known == set i | 0 <= i < |steps| :: steps[i].name
    ensures ok <==> ValidStep(ws, w, steps, step)
  {
    ok := CheckGotos(steps, known, CatchGotos(step.catches));
    assert ok <==> forall c | c in step.catches :: HasStep(steps, c.goto) by {
      assert forall k :: 0 <= k < |step.catches| ==> CatchGotos(step.catches)[k] == step.catches[k].goto;
    }
    if !ok {
      return;
    }
    match step.kind {
      case Choice(rules, default) =>
        if |rules| == 0 {
          return false;
        }
        ok := CheckGotos(steps, known, RuleGotos(rules));
        assert ok <==> forall c | c in rules :: HasStep(steps, c.goto) by {
          assert forall k :: 0 <= k < |rules| ==> RuleGotos(rules)[k] == rules[k].goto;
        }
        if ok && default.Some? {
          ok := CheckGotos(steps, known, [default.value]);
          assert ok <==> HasStep(steps, default.value) by {
            assert default.value in [default.value];
          }
        }
      case Parallel(branches) =>
        if |branches| == 0 {
          return false;
        }
        ok := CheckDistinct(branches);
      case SubWorkflow(target) =>
        ok := target in ws && target != w;
      case _ =>
        ok := true;
    }
  }

  method CheckSteps(ws: Workflows, w: string, steps: seq<Step>) returns (ok: bool)
    ensures ok <==> ValidSteps(ws, w, steps)
  {
    if |steps| == 0 {
      return false;
    }
    var names := seq(|steps|, k requires 0 <= k < |steps| => steps[k].name);
    ok := CheckDistinct(names);
    if !ok {
      return;
    }
    assert DistinctNames(steps) by {
      assert forall i :: 0 <= i < |steps| ==> names[i] == steps[i].name;
    }
    for k := 0 to |steps|
      invariant forall i :: 0 <= i < k ==> ValidStep(ws, w, steps, steps[i])
    {
      ok := CheckStep(ws, w, steps, set i | 0 <= i < |steps| :: steps[i].name, steps[k]);
      if !ok {
        return;
      }
    }
    return true;
  }

  /** Loading accepts the workflows exactly when they are valid. */
  method Validate(ws: Workflows) returns (ok: bool)
    ensures ok <==> ValidWorkflows(ws)
  {
    var todo := ws.Keys;
    while todo != {}
      invariant todo <= ws.Keys
      invariant forall w | w in ws && w !in todo :: ValidSteps(ws, w, ws[w])
      decreases todo
    {
      var w :| w in todo;
      ok := CheckSteps(ws, w, ws[w]);
      if !ok {
        return;
      }
      todo := todo - {w};
    }
    return true;
  }
}
