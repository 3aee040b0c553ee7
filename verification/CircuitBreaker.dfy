/** The circuit breaker, with the clock as a parameter. */
module CircuitBreaker {
  import opened Wrappers

  const U32: nat := 0x1_0000_0000

  datatype Circuit = Closed | Open | HalfOpen

  /** The breaker's fields; times are ticks of a monotone clock. */
  datatype Breaker = Breaker(failures: nat, openedAt: Option<nat>, probing: bool)

  datatype Settings = Settings(threshold: nat, cooldown: nat)

  datatype Call = Allow(now: nat) | Success(now: nat) | Failure(now: nat)

  const FRESH := Breaker(0, None, false)

  function CircuitAt(c: Settings, b: Breaker, now: nat): Circuit {
    match b.openedAt
    case None => Closed
    case Some(at) => if now >= at + c.cooldown then HalfOpen else Open
  }

  ghost function Failed(c: Settings, b: Breaker, now: nat): (Breaker, bool) {
    var count := (b.failures + 1) % U32;
    var state := CircuitAt(c, b, now);
    if count >= c.threshold && state != Open
    then (Breaker(count, Some(now), false), count == c.threshold && state == Closed)
    else (Breaker(count, b.openedAt, false), false)
  }

  /** The state after a call, and what the call returns (a success returns nothing). */
  ghost function Step(c: Settings, b: Breaker, call: Call): (Breaker, bool) {
    match call
    case Allow(now) =>
      if CircuitAt(c, b, now) == HalfOpen then (b.(probing := true), !b.probing)
      else (b, b.openedAt.None?)
    case Success(now) => (FRESH, false)
    case Failure(now) => Failed(c, b, now)
  }

  class Guard {
    const threshold: nat
    const cooldown: nat
    var failures: nat
    var openedAt: Option<nat>
    var halfOpenInProgress: bool

    ghost function Fields(): Breaker
      reads this
    {
      Breaker(failures, openedAt, halfOpenInProgress)
    }

    ghost function Config(): Settings {
      Settings(threshold, cooldown)
    }

    constructor (threshold: nat, cooldown: nat)
      ensures Fields() == FRESH && Config() == Settings(threshold, cooldown)
    {
      this.threshold := threshold;
      this.cooldown := cooldown;
      failures := 0;
      openedAt := None;
      halfOpenInProgress := false;
    }

    method State(now: nat) returns (s: Circuit)
      ensures s == CircuitAt(Config(), Fields(), now)
    {
      match openedAt {
        case None => s := Closed;
        case Some(at) =>
          if now >= at + cooldown {
            s := HalfOpen;
          } else {
            s := Open;
          }
      }
    }

    method AllowRequest(now: nat) returns (allowed: bool)
      modifies this`halfOpenInProgress
      ensures (Fields(), allowed) == Step(Config(), old(Fields()), Allow(now))
    {
      var s := State(now);
      match s {
        case Closed => allowed := true;
        case Open => allowed := false;
        case HalfOpen =>
          allowed := !halfOpenInProgress;
          halfOpenInProgress := true;
      }
    }

    method RecordSuccess(now: nat)
      modifies this
      ensures Fields() == Step(Config(), old(Fields()), Success(now)).0
    {
      failures := 0;
      openedAt := None;
      halfOpenInProgress := false;
    }

    method RecordFailure(now: nat) returns (justOpened: bool)
      modifies this
      ensures (Fields(), justOpened) == Step(Config(), old(Fields()), Failure(now))
    {
      halfOpenInProgress := false;
      var count := (failures + 1) % U32;
      failures := count;
      if count >= threshold {
        var wasHalfOpen := false;
        if openedAt.Some? {
          wasHalfOpen := now >= openedAt.value + cooldown;
        }
        if openedAt.None? || wasHalfOpen {
          openedAt := Some(now);
          return count == threshold && !wasHalfOpen;
        }
      }
      return false;
    }
  }

  // ---- Histories -----------------------------------------------------------

  /** The breaker after the calls of `h`, the last of which is the latest. */
  ghost function After(c: Settings, h: seq<Call>): Breaker {
    if |h| == 0 then FRESH else Step(c, After(c, h[..|h| - 1]), h[|h| - 1]).0
  }

  /** What the last call of `h` returned. */
  ghost function Returned(c: Settings, h: seq<Call>): bool
    requires |h| > 0
  {
    Step(c, After(c, h[..|h| - 1]), h[|h| - 1]).1
  }

  ghost predicate Monotone(h: seq<Call>) {
    forall i, j :: 0 <= i < j < |h| ==> h[i].now <= h[j].now
  }

  /** Failures recorded since the last success. */
  ghost function FailuresSinceSuccess(h: seq<Call>): nat {
    if |h| == 0 then 0
    else match h[|h| - 1]
         case Success(_) => 0
         case Failure(_) => FailuresSinceSuccess(h[..|h| - 1]) + 1
         case Allow(_) => FailuresSinceSuccess(h[..|h| - 1])
  }

  ghost function Trip(c: Settings): nat {
    if c.threshold == 0 then 1 else c.threshold
  }

  lemma Wraps(n: nat)
    ensures (n % U32 + 1) % U32 == (n + 1) % U32
    ensures n < U32 ==> n % U32 == n
  {
    var q, r := n / 0x1_0000_0000, n % 0x1_0000_0000;
    assert n == q * 0x1_0000_0000 + r;
  }

  /** One more failure, after `n` of them. */
  lemma FailedCounts(c: Settings, b: Breaker, now: nat, n: nat)
    requires c.threshold < U32
    requires b.failures == n % U32 && (b.openedAt.None? <==> n < Trip(c))
    ensures Failed(c, b, now).0.failures == (n + 1) % U32
    ensures Failed(c, b, now).0.openedAt.None? <==> n + 1 < Trip(c)
  {
    Wraps(n);
    if n < Trip(c) {
      Wraps(n + 1);
    }
  }

  /**
   * Over every history: the counter holds the failures since the last success, reduced to 32 bits,
   * and the circuit is closed exactly while there were fewer than the threshold of them. Wrapping
   * never closes it.
   */
  lemma {:induction false} ClosedIffBelowThreshold(c: Settings, h: seq<Call>)
    requires c.threshold < U32
    ensures After(c, h).failures == FailuresSinceSuccess(h) % 4294967296
    ensures After(c, h).openedAt.None? <==> FailuresSinceSuccess(h) < Trip(c)
    decreases |h|
  {
    if |h| > 0 {
      var before := h[..|h| - 1];
      ClosedIffBelowThreshold(c, before);
      match h[|h| - 1] {
        case Allow(_) =>
        case Success(_) =>
        case Failure(now) => FailedCounts(c, After(c, before), now, FailuresSinceSuccess(before));
      }
    }
  }

  /** The alert: a recorded failure returns true exactly when it opens a closed circuit; with a zero threshold, never. */
  lemma ReportsOpeningOnce(c: Settings, h: seq<Call>)
    requires c.threshold < U32 && |h| > 0 && h[|h| - 1].Failure?
    ensures
      var opening := After(c, h[..|h| - 1]).openedAt.None? && After(c, h).openedAt.Some?;
      && (Returned(c, h) <==> opening && c.threshold > 0)
      && (opening <==> FailuresSinceSuccess(h) == Trip(c))
  {
    ClosedIffBelowThreshold(c, h[..|h| - 1]);
    ClosedIffBelowThreshold(c, h);
  }

  /**
   * A failure recorded on a half-open circuit restarts the cooldown exactly when the 32-bit counter
   * is still at or above the threshold; otherwise the circuit stays half-open.
   */
  lemma FailedProbeReopens(c: Settings, h: seq<Call>)
    requires c.threshold < U32 && |h| > 0 && h[|h| - 1].Failure?
    requires CircuitAt(c, After(c, h[..|h| - 1]), h[|h| - 1].now) == HalfOpen
    ensures
      var t := h[|h| - 1].now;
      && After(c, h).openedAt == (if FailuresSinceSuccess(h) % U32 >= c.threshold then Some(t)
                                  else After(c, h[..|h| - 1]).openedAt)
      && CircuitAt(c, After(c, h), t) == (if FailuresSinceSuccess(h) % U32 >= c.threshold && c.cooldown > 0 then Open
                                          else HalfOpen)
  {
    ClosedIffBelowThreshold(c, h);
  }

  // ---- Probes --------------------------------------------------------------

  ghost predicate Requests(h: seq<Call>) {
    forall i :: 0 <= i < |h| ==> h[i].Allow?
  }

  /** The requests of `quiet`, made one after the other from state `b`, that were let through. */
  ghost function Admitted(c: Settings, b: Breaker, quiet: seq<Call>): set<nat> {
    if |quiet| == 0 then {}
    else
      var n := |quiet| - 1;
      Admitted(c, b, quiet[..n]) + (if Step(c, From(c, b, quiet[..n]), quiet[n]).1 then {n} else {})
  }

  ghost function From(c: Settings, b: Breaker, quiet: seq<Call>): Breaker {
    if |quiet| == 0 then b
    else Step(c, From(c, b, quiet[..|quiet| - 1]), quiet[|quiet| - 1]).0
  }

  /** `p` is the first request at or after the end of the cooldown. */
  ghost predicate FirstDue(quiet: seq<Call>, due: nat, p: nat) {
    p < |quiet| && quiet[p].now >= due && forall i :: 0 <= i < p ==> quiet[i].now < due
  }

  lemma {:induction false} OpenAdmits(c: Settings, b: Breaker, quiet: seq<Call>)
    requires Requests(quiet) && b.openedAt.Some? && !b.probing
    ensures var due := b.openedAt.value + c.cooldown;
            forall p :: p in Admitted(c, b, quiet) <==> FirstDue(quiet, due, p)
    ensures From(c, b, quiet) == b.(probing := exists i :: 0 <= i < |quiet| && quiet[i].now >= b.openedAt.value + c.cooldown)
    decreases |quiet|
  {
    var due := b.openedAt.value + c.cooldown;
    if |quiet| > 0 {
      var n := |quiet| - 1;
      var before := quiet[..n];
      OpenAdmits(c, b, before);
      assert forall p :: 0 <= p < n ==> (FirstDue(quiet, due, p) <==> FirstDue(before, due, p));
      assert forall i :: 0 <= i < n ==> quiet[i] == before[i];
    }
  }

  lemma OutcomeClearsFlag(c: Settings, h: seq<Call>)
    requires |h| > 0 && !h[|h| - 1].Allow?
    ensures !After(c, h).probing
  {
  }

  lemma OneDue(c: Settings, b: Breaker, quiet: seq<Call>)
    requires Requests(quiet) && b.openedAt.Some? && !b.probing
    ensures
      var due := b.openedAt.value + c.cooldown;
      && (forall p :: p in Admitted(c, b, quiet) <==> FirstDue(quiet, due, p))
      && |Admitted(c, b, quiet)| <= 1
      && (|Admitted(c, b, quiet)| == 0 <==> forall i :: 0 <= i < |quiet| ==> quiet[i].now < due)
  {
    var due := b.openedAt.value + c.cooldown;
    OpenAdmits(c, b, quiet);
    var a := Admitted(c, b, quiet);
    assert a == {} <==> forall i :: 0 <= i < |quiet| ==> quiet[i].now < due by {
      if i :| 0 <= i < |quiet| && quiet[i].now >= due {
        FirstDueExists(quiet, due, i);
        var p :| FirstDue(quiet, due, p);
        assert p in a;
      }
    }
    if a != {} {
      var p :| p in a;
      forall q | q in a ensures q == p {
        FirstDueUnique(quiet, due, p, q);
      }
      assert a == {p};
    }
  }

  lemma FirstDueUnique(quiet: seq<Call>, due: nat, p: nat, q: nat)
    requires FirstDue(quiet, due, p) && FirstDue(quiet, due, q)
    ensures p == q
  {
  }

  lemma {:induction false} FirstDueExists(quiet: seq<Call>, due: nat, i: nat)
    requires i < |quiet| && quiet[i].now >= due
    ensures exists p :: FirstDue(quiet, due, p)
  {
    if j :| 0 <= j < i && quiet[j].now >= due {
      FirstDueExists(quiet, due, j);
    } else {
      assert FirstDue(quiet, due, i);
    }
  }

  /**
   * Between two recorded outcomes an open circuit lets through exactly one request, the first at
   * or after the end of its cooldown, and none if there is no such request. So a probe whose
   * outcome is never recorded blocks the endpoint for good.
   */
  lemma OneProbeBetweenOutcomes(c: Settings, h: seq<Call>, b: Breaker, quiet: seq<Call>)
    requires c.threshold < U32
    requires |h| > 0 && !h[|h| - 1].Allow? && b == After(c, h) && Requests(quiet)
    requires FailuresSinceSuccess(h) >= Trip(c)
    ensures b.openedAt.Some?
    ensures
      var due := b.openedAt.value + c.cooldown;
      && (forall p :: p in Admitted(c, b, quiet) <==> FirstDue(quiet, due, p))
      && |Admitted(c, b, quiet)| <= 1
      && (|Admitted(c, b, quiet)| == 0 <==> forall i :: 0 <= i < |quiet| ==> quiet[i].now < due)
  {
    assert b.openedAt.Some? by {
      ClosedIffBelowThreshold(c, h);
    }
    assert !b.probing by {
      OutcomeClearsFlag(c, h);
    }
    OneDue(c, b, quiet);
  }

  /** A closed circuit lets every request through. */
  lemma {:induction false} ClosedAdmitsAll(c: Settings, h: seq<Call>, quiet: seq<Call>)
    requires c.threshold < U32 && Requests(quiet)
    requires FailuresSinceSuccess(h) < Trip(c)
    ensures forall i :: 0 <= i < |quiet| ==> i in Admitted(c, After(c, h), quiet)
    ensures From(c, After(c, h), quiet) == After(c, h)
    decreases |quiet|
  {
    ClosedIffBelowThreshold(c, h);
    if |quiet| > 0 {
      ClosedAdmitsAll(c, h, quiet[..|quiet| - 1]);
    }
  }

  // ---- A probe and its own outcome -----------------------------------------

  lemma {:induction false} AfterAppend(c: Settings, h: seq<Call>, later: seq<Call>)
    ensures After(c, h + later) == From(c, After(c, h), later)
    decreases |later|
  {
    if |later| == 0 {
      assert h + later == h;
    } else {
      var n := |later| - 1;
      assert (h + later)[..|h| + n] == h + later[..n];
      AfterAppend(c, h, later[..n]);
    }
  }

  lemma {:induction false} BlockedStays(c: Settings, b: Breaker, quiet: seq<Call>)
    requires Requests(quiet) && b.openedAt.Some? && b.probing
    ensures From(c, b, quiet) == b
    decreases |quiet|
  {
    if |quiet| > 0 {
      BlockedStays(c, b, quiet[..|quiet| - 1]);
    }
  }

  lemma {:induction false} ClosedStays(c: Settings, b: Breaker, quiet: seq<Call>)
    requires Requests(quiet) && b.openedAt.None?
    ensures From(c, b, quiet) == b
    decreases |quiet|
  {
    if |quiet| > 0 {
      ClosedStays(c, b, quiet[..|quiet| - 1]);
    }
  }

  /** The last outcome in `calls`. */
  ghost predicate LastOutcome(calls: seq<Call>, q: nat) {
    q < |calls| && !calls[q].Allow? && forall i :: q < i < |calls| ==> calls[i].Allow?
  }

  lemma {:induction false} LastOutcomeExists(calls: seq<Call>)
    requires !Requests(calls)
    ensures exists q :: LastOutcome(calls, q)
    decreases |calls|
  {
    var n := |calls| - 1;
    if calls[n].Allow? {
      assert !Requests(calls[..n]) by {
        var i :| 0 <= i < |calls| && !calls[i].Allow?;
        assert calls[..n][i] == calls[i];
      }
      LastOutcomeExists(calls[..n]);
      var q :| LastOutcome(calls[..n], q);
      assert LastOutcome(calls, q);
    } else {
      assert LastOutcome(calls, n);
    }
  }

  /** After an outcome that left the breaker as `b`, and `quiet` requests, does it admit one more? */
  ghost predicate Lets(c: Settings, b: Breaker, quiet: seq<Call>, now: nat) {
    || b.openedAt.None?
    || (now >= b.openedAt.value + c.cooldown && forall i :: 0 <= i < |quiet| ==> quiet[i].now < b.openedAt.value + c.cooldown)
  }

  lemma LetsIff(c: Settings, b: Breaker, quiet: seq<Call>, now: nat)
    requires Requests(quiet) && !b.probing
    ensures Step(c, From(c, b, quiet), Allow(now)).1 <==> Lets(c, b, quiet, now)
  {
    if b.openedAt.None? {
      ClosedStays(c, b, quiet);
    } else {
      OpenAdmits(c, b, quiet);
    }
  }

  /**
   * While a probe is under way, whatever happens in between (nothing in `between` is the probe's own
   * outcome): one more request is admitted, if and only if the outcome of another request was
   * recorded since, and the last such outcome left the circuit closed, or its cooldown was over and
   * nobody was admitted since then.
   */
  lemma SecondProbeIff(c: Settings, h: seq<Call>, probe: nat, between: seq<Call>, now: nat)
    requires CircuitAt(c, After(c, h), probe) == HalfOpen && Returned(c, h + [Allow(probe)])
    ensures Returned(c, h + [Allow(probe)] + between + [Allow(now)]) <==>
      exists q :: LastOutcome(between, q) && Lets(c, After(c, h + [Allow(probe)] + between[..q + 1]), between[q + 1..], now)
  {
    var probed := h + [Allow(probe)];
    var calls := probed + between;
    assert probed[..|h|] == h && (calls + [Allow(now)])[..|calls|] == calls;
    AfterAppend(c, probed, between);
    if Requests(between) {
      BlockedStays(c, After(c, probed), between);
    } else {
      LastOutcomeExists(between);
      forall q | LastOutcome(between, q)
        ensures Returned(c, calls + [Allow(now)]) <==> Lets(c, After(c, probed + between[..q + 1]), between[q + 1..], now)
      {
        SinceOutcome(c, probed, between, q, now);
      }
    }
  }

  lemma SinceOutcome(c: Settings, probed: seq<Call>, between: seq<Call>, q: nat, now: nat)
    requires LastOutcome(between, q)
    ensures
      var b := After(c, probed + between[..q + 1]);
      Step(c, After(c, probed + between), Allow(now)).1 <==> Lets(c, b, between[q + 1..], now)
  {
    var first, quiet := probed + between[..q + 1], between[q + 1..];
    assert probed + between == first + quiet;
    assert first[|first| - 1] == between[q];
    AfterAppend(c, first, quiet);
    OutcomeClearsFlag(c, first);
    LetsIff(c, After(c, first), quiet, now);
  }

  lemma {:induction false} FailuresOpen(c: Settings, n: nat, now: nat)
    requires 0 < n <= c.threshold < U32
    ensures After(c, seq(n, _ => Failure(now))) == Breaker(n, if n < c.threshold then None else Some(now), false)
    decreases n
  {
    var h := seq(n, _ => Failure(now));
    assert h[..n - 1] == seq(n - 1, _ => Failure(now));
    Wraps(n);
    if n > 1 {
      FailuresOpen(c, n - 1, now);
    }
  }

  /**
   * It happens for every threshold: the failures that open the circuit, the probe after the
   * cooldown, the failure of an older request, and after another cooldown a second probe while the
   * first is still under way.
   */
  lemma LateFailureAllowsSecondProbe(c: Settings, tripped: nat, probe: nat, late: nat, second: nat)
    requires 0 < c.threshold < U32
    requires tripped + c.cooldown <= probe <= late && late + c.cooldown <= second
    ensures
      var h := seq(c.threshold, _ => Failure(tripped));
      && Returned(c, h + [Allow(probe)])
      && Returned(c, h + [Allow(probe)] + [Failure(late)] + [Allow(second)])
  {
    var h := seq(c.threshold, _ => Failure(tripped));
    var probed := h + [Allow(probe)];
    var between := [Failure(late)];
    FailuresOpen(c, c.threshold, tripped);
    assert probed[..|h|] == h;
    SecondProbeIff(c, h, probe, between, second);
    var late1 := probed + between[..1];
    assert late1[..|probed|] == probed;
    assert After(c, probed) == After(c, h).(probing := true);
    assert LastOutcome(between, 0) && Lets(c, After(c, late1), between[1..], second);
  }
}
