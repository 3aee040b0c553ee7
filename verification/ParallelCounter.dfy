/**
 * The completion counter of a join on the HTTP database backend, where the increment and the read
 * are two statements that other completers may come between.
 */
module ParallelCounter {
  /** The two counter columns of the run's row. */
  datatype Cell = Cell(completed: nat, total: nat)

  /** How far a completer is; `afterAll` notes whether it read when every completer had added one. */
  datatype Phase = Starting | Added | Read(seen: Cell, afterAll: bool)

  datatype State = State(cell: Cell, phases: seq<Phase>)

  /** Completer `k` adds one, reads both columns back, or (having passed the test) clears them. */
  datatype Event = Add(k: nat) | Select(k: nat) | Clear(k: nat)

  /** The test after which a completer merges the outputs and moves the run on. */
  predicate Passes(p: Phase) {
    p.Read? && !(p.seen.completed < p.seen.total)
  }

  predicate AllAdded(phases: seq<Phase>) {
    forall k :: 0 <= k < |phases| ==> !phases[k].Starting?
  }

  function Init(n: nat): State {
    State(Cell(0, n), seq(n, _ => Starting))
  }

  function Next(s: State, e: Event): State {
    if e.k >= |s.phases| then s
    else
      match e
      case Add(k) =>
        if s.phases[k].Starting? then State(s.cell.(completed := s.cell.completed + 1), s.phases[k := Added]) else s
      case Select(k) =>
        if s.phases[k].Added? then s.(phases := s.phases[k := Read(s.cell, AllAdded(s.phases))]) else s
      case Clear(k) =>
        if Passes(s.phases[k]) then s.(cell := Cell(0, 0)) else s
  }

  function Exec(s: State, events: seq<Event>): State
    decreases |events|
  {
    if |events| == 0 then s else Exec(Next(s, events[0]), events[1..])
  }

  function Adders(phases: seq<Phase>): nat {
    if |phases| == 0 then 0
    else Adders(phases[..|phases| - 1]) + if phases[|phases| - 1].Starting? then 0 else 1
  }

  lemma {:induction false} AddersUpdate(phases: seq<Phase>, k: nat, p: Phase)
    requires k < |phases|
    ensures Adders(phases[k := p])
         == Adders(phases) - (if phases[k].Starting? then 0 else 1) + (if p.Starting? then 0 else 1)
  {
    var n := |phases| - 1;
    if k == n {
      assert phases[k := p][..n] == phases[..n];
    } else {
      assert phases[k := p][..n] == phases[..n][k := p];
      AddersUpdate(phases[..n], k, p);
    }
  }

  lemma {:induction false} AddersAll(phases: seq<Phase>)
    ensures Adders(phases) <= |phases|
    ensures Adders(phases) == |phases| <==> AllAdded(phases)
  {
    if |phases| > 0 {
      var n := |phases| - 1;
      AddersAll(phases[..n]);
      assert forall k :: 0 <= k < n ==> phases[..n][k] == phases[k];
      assert AllAdded(phases) <==> AllAdded(phases[..n]) && !phases[n].Starting?;
    }
  }

  lemma {:induction false} AddersNone(n: nat)
    ensures Adders(seq(n, _ => Starting)) == 0
  {
    if n > 0 {
      assert seq(n, _ => Starting)[..n - 1] == seq(n - 1, _ => Starting);
      AddersNone(n - 1);
    }
  }

  /** The counter is exact until the first clear, and a clear needs that everybody has added. */
  ghost predicate Inv(s: State) {
    && |s.phases| > 0
    && (s.cell == Cell(Adders(s.phases), |s.phases|) || (s.cell == Cell(0, 0) && AllAdded(s.phases)))
    && (forall k :: 0 <= k < |s.phases| && s.phases[k].Read? ==>
          (Passes(s.phases[k]) <==> s.phases[k].afterAll) && (s.phases[k].afterAll ==> AllAdded(s.phases)))
    && (AllAdded(s.phases) ==>
          exists k :: 0 <= k < |s.phases| && (s.phases[k].Added? || (s.phases[k].Read? && s.phases[k].afterAll)))
  }

  lemma InitInv(n: nat)
    requires n > 0
    ensures Inv(Init(n))
  {
    AddersNone(n);
    assert Init(n).phases[0].Starting?;
  }

  lemma AddInv(s: State, k: nat)
    requires Inv(s) && k < |s.phases| && s.phases[k].Starting?
    ensures Inv(Next(s, Add(k)))
  {
    var t := Next(s, Add(k));
    AddersUpdate(s.phases, k, Added);
    AddersAll(s.phases);
    assert t.phases[k].Added?;
    forall i | 0 <= i < |t.phases| && t.phases[i].Read?
      ensures Passes(t.phases[i]) <==> t.phases[i].afterAll
      ensures !t.phases[i].afterAll
    {
      assert t.phases[i] == s.phases[i];
    }
  }

  lemma SelectInv(s: State, k: nat)
    requires Inv(s) && k < |s.phases| && s.phases[k].Added?
    ensures Inv(Next(s, Select(k)))
  {
    var t := Next(s, Select(k));
    AddersUpdate(s.phases, k, t.phases[k]);
    AddersAll(s.phases);
    assert forall i :: 0 <= i < |s.phases| ==> (t.phases[i].Starting? <==> s.phases[i].Starting?);
    assert AllAdded(t.phases) <==> AllAdded(s.phases);
    forall i | 0 <= i < |t.phases| && t.phases[i].Read?
      ensures (Passes(t.phases[i]) <==> t.phases[i].afterAll) && (t.phases[i].afterAll ==> AllAdded(t.phases))
    {
      if i != k {
        assert t.phases[i] == s.phases[i];
      }
    }
    if AllAdded(t.phases) {
      assert t.phases[k].Read? && t.phases[k].afterAll;
    }
  }

  lemma {:induction false} ExecInv(s: State, events: seq<Event>)
    requires Inv(s)
    ensures Inv(Exec(s, events)) && |Exec(s, events).phases| == |s.phases|
    decreases |events|
  {
    if |events| > 0 {
      var e := events[0];
      if e.Add? && e.k < |s.phases| && s.phases[e.k].Starting? {
        AddInv(s, e.k);
      } else if e.Select? && e.k < |s.phases| && s.phases[e.k].Added? {
        SelectInv(s, e.k);
      }
      assert Inv(Next(s, e));
      ExecInv(Next(s, e), events[1..]);
    }
  }

  /**
   * Whatever the interleaving: exactly the completers that read after the last increment pass the
   * test, and once all have read at least one did. The join is made at least once.
   */
  lemma SplitJoinsAtLeastOnce(n: nat, events: seq<Event>)
    requires n > 0
    ensures
      var t := Exec(Init(n), events);
      && |t.phases| == n
      && (forall k :: 0 <= k < n && t.phases[k].Read? ==> (Passes(t.phases[k]) <==> t.phases[k].afterAll))
      && ((forall k :: 0 <= k < n ==> t.phases[k].Read?) ==> exists k :: 0 <= k < n && Passes(t.phases[k]))
  {
    InitInv(n);
    ExecInv(Init(n), events);
    var t := Exec(Init(n), events);
    if forall k :: 0 <= k < n ==> t.phases[k].Read? {
      assert AllAdded(t.phases);
    }
  }

  /** It can be made twice: both of two completers add before either reads. */
  lemma SplitJoinsTwice()
    ensures
      var t := Exec(Init(2), [Add(0), Add(1), Select(0), Select(1)]);
      Passes(t.phases[0]) && Passes(t.phases[1])
  {
    var s1 := Next(Init(2), Add(0));
    var s2 := Next(s1, Add(1));
    var s3 := Next(s2, Select(0));
    var s4 := Next(s3, Select(1));
    assert AllAdded(s2.phases);
    assert Exec(s4, []) == s4;
    assert Exec(s3, [Select(1)]) == s4;
    assert [Select(0), Select(1)][1..] == [Select(1)];
    assert Exec(s2, [Select(0), Select(1)]) == s4;
    assert [Add(1), Select(0), Select(1)][1..] == [Select(0), Select(1)];
    assert Exec(s1, [Add(1), Select(0), Select(1)]) == s4;
    assert [Add(0), Add(1), Select(0), Select(1)][1..] == [Add(1), Select(0), Select(1)];
  }

  // ---- The atomic form -----------------------------------------------------

  /** One transaction: completer `k` adds one and reads before anybody else. */
  function NextAtomic(s: State, k: nat): State {
    Next(Next(s, Add(k)), Select(k))
  }

  function ExecAtomic(s: State, order: seq<nat>): State {
    if |order| == 0 then s
    else NextAtomic(ExecAtomic(s, order[..|order| - 1]), order[|order| - 1])
  }

  predicate DistinctBelow(order: seq<nat>, n: nat) {
    && (forall i :: 0 <= i < |order| ==> order[i] < n)
    && (forall i, j :: 0 <= i < j < |order| ==> order[i] != order[j])
  }

  /** The counter returns 1, 2, 3 and so on, in the order of completion. */
  lemma {:induction false} AtomicCounts(n: nat, order: seq<nat>)
    requires DistinctBelow(order, n)
    ensures
      var t := ExecAtomic(Init(n), order);
      && |t.phases| == n
      && t.cell == Cell(|order|, n)
      && (forall k :: 0 <= k < n && k !in order ==> t.phases[k].Starting?)
      && (forall i :: 0 <= i < |order| ==> t.phases[order[i]].Read? && t.phases[order[i]].seen == Cell(i + 1, n))
  {
    if |order| > 0 {
      var m := |order| - 1;
      var rest := order[..m];
      AtomicCounts(n, rest);
      assert forall i :: 0 <= i < m ==> rest[i] == order[i];
      assert order[m] !in rest;
      forall k | 0 <= k < n && k !in order
        ensures k !in rest
      {
      }
    }
  }

  /** In the atomic form exactly the last of the `n` completers passes: the join is made once. */
  lemma AtomicJoinsOnce(n: nat, order: seq<nat>)
    requires n > 0 && DistinctBelow(order, n) && |order| == n
    ensures forall i :: 0 <= i < n ==>
      (order[i] < |ExecAtomic(Init(n), order).phases| && Passes(ExecAtomic(Init(n), order).phases[order[i]]) <==> i == n - 1)
  {
    AtomicCounts(n, order);
  }

  /** As long as one completer is missing (its branch died), nobody passes. */
  lemma MissingBranchNeverJoins(n: nat, order: seq<nat>)
    requires DistinctBelow(order, n) && |order| < n
    ensures forall k :: 0 <= k < |ExecAtomic(Init(n), order).phases| ==> !Passes(ExecAtomic(Init(n), order).phases[k])
  {
    AtomicCounts(n, order);
  }
}
