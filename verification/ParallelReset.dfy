/** Two joins of one run on the HTTP database backend, the second opened on the columns of the first, under its slow readers. */
module ParallelReset {
  import opened ParallelCounter

  /** What a completer that passed has done: cleared the columns, and opened the next join. */
  datatype Move = Idle | Cleared | Forked

  datatype Row = Row(cell: Cell, first: seq<Phase>, moves: seq<Move>, second: seq<Phase>)

  datatype Step =
    | AddFirst(k: nat)
    | ReadFirst(k: nat)
    | ClearFirst(k: nat)
    | Fork(k: nat)
    | AddSecond(k: nat)
    | ReadSecond(k: nat)
    | ClearSecond(k: nat)

  /** The next fork has `m` branches. */
  function After(m: nat, s: Row, e: Step): Row
    requires |s.moves| == |s.first|
  {
    match e
    case AddFirst(k) =>
      if k < |s.first| && s.first[k].Starting?
      then s.(cell := s.cell.(completed := s.cell.completed + 1), first := s.first[k := Added]) else s
    case ReadFirst(k) =>
      if k < |s.first| && s.first[k].Added? then s.(first := s.first[k := Read(s.cell, AllAdded(s.first))]) else s
    case ClearFirst(k) =>
      if k < |s.first| && Passes(s.first[k]) && s.moves[k].Idle?
      then s.(cell := Cell(0, 0), moves := s.moves[k := Cleared]) else s
    case Fork(k) =>
      if k < |s.moves| && s.moves[k].Cleared?
      then s.(cell := Cell(0, m), moves := s.moves[k := Forked], second := s.second + seq(m, _ => Starting)) else s
    case AddSecond(k) =>
      if k < |s.second| && s.second[k].Starting?
      then s.(cell := s.cell.(completed := s.cell.completed + 1), second := s.second[k := Added]) else s
    case ReadSecond(k) =>
      if k < |s.second| && s.second[k].Added? then s.(second := s.second[k := Read(s.cell, AllAdded(s.second))]) else s
    case ClearSecond(k) =>
      if k < |s.second| && Passes(s.second[k]) then s.(cell := Cell(0, 0)) else s
  }

  function Run(m: nat, s: Row, steps: seq<Step>): (t: Row)
    requires |s.moves| == |s.first|
    ensures |t.moves| == |t.first| == |s.first|
    decreases |steps|
  {
    if |steps| == 0 then s else Run(m, After(m, s, steps[0]), steps[1..])
  }

  function Opened(n: nat): Row {
    Row(Cell(0, n), seq(n, _ => Starting), seq(n, _ => Idle), [])
  }

  // ---- The first join ------------------------------------------------------

  predicate Passed(s: Row) {
    exists k :: 0 <= k < |s.first| && Passes(s.first[k])
  }

  /** Up to the first passer the columns count the first join, and nothing has been moved on. */
  ghost predicate FirstOk(s: Row) {
    && |s.moves| == |s.first| > 0
    && (forall k :: 0 <= k < |s.first| && Passes(s.first[k]) ==> s.first[k].afterAll)
    && (Passed(s) ==> AllAdded(s.first))
    && (!Passed(s) ==> s.cell == Cell(Adders(s.first), |s.first|) && s.second == [])
    && (forall k :: 0 <= k < |s.moves| && !s.moves[k].Idle? ==> Passes(s.first[k]))
    && (AllAdded(s.first) ==> Passed(s) || exists k :: 0 <= k < |s.first| && s.first[k].Added?)
  }

  lemma AddFirstOk(m: nat, s: Row, k: nat)
    requires FirstOk(s) && k < |s.first| && s.first[k].Starting?
    ensures FirstOk(After(m, s, AddFirst(k)))
  {
    var t := After(m, s, AddFirst(k));
    AddersUpdate(s.first, k, Added);
    assert t.first[k].Added?;
    assert !Passed(s);
    assert forall i :: 0 <= i < |t.first| && i != k ==> t.first[i] == s.first[i];
  }

  lemma ReadFirstOk(m: nat, s: Row, k: nat)
    requires FirstOk(s) && k < |s.first| && s.first[k].Added?
    ensures FirstOk(After(m, s, ReadFirst(k)))
  {
    var t := After(m, s, ReadFirst(k));
    AddersUpdate(s.first, k, t.first[k]);
    AddersAll(s.first);
    assert forall i :: 0 <= i < |t.first| && i != k ==> t.first[i] == s.first[i];
    assert AllAdded(t.first) <==> AllAdded(s.first);
    if Passed(s) {
      var i :| 0 <= i < |s.first| && Passes(s.first[i]);
      assert Passes(t.first[i]);
    } else {
      assert Passes(t.first[k]) <==> AllAdded(s.first);
    }
  }

  lemma FirstStepOk(m: nat, s: Row, e: Step)
    requires FirstOk(s)
    ensures FirstOk(After(m, s, e))
  {
    var t := After(m, s, e);
    if e.AddFirst? && t != s {
      AddFirstOk(m, s, e.k);
    } else if e.ReadFirst? && t != s {
      ReadFirstOk(m, s, e.k);
    } else if t != s {
      assert Passed(s) && Passed(t) by {
        if e.ClearFirst? || e.Fork? {
          assert Passes(s.first[e.k]);
        }
      }
    }
  }

  lemma {:induction false} FirstRunOk(m: nat, s: Row, steps: seq<Step>)
    requires FirstOk(s)
    ensures FirstOk(Run(m, s, steps))
    decreases |steps|
  {
    if |steps| > 0 {
      FirstStepOk(m, s, steps[0]);
      FirstRunOk(m, After(m, s, steps[0]), steps[1..]);
    }
  }

  lemma OpenedOk(n: nat)
    requires n > 0
    ensures FirstOk(Opened(n))
  {
    AddersNone(n);
    assert Opened(n).first[0].Starting?;
  }

  /**
   * Whatever the interleaving, the fork after the join included: whoever passes the first join read
   * when all had completed, and once all have read somebody passed.
   */
  lemma JoinsAtLeastOnce(n: nat, m: nat, steps: seq<Step>)
    requires n > 0
    ensures
      var t := Run(m, Opened(n), steps);
      && (forall k :: 0 <= k < n && Passes(t.first[k]) ==> t.first[k].afterAll && AllAdded(t.first))
      && ((forall k :: 0 <= k < n ==> t.first[k].Read?) ==> Passed(t))
  {
    OpenedOk(n);
    FirstRunOk(m, Opened(n), steps);
    var t := Run(m, Opened(n), steps);
    if forall k :: 0 <= k < n ==> t.first[k].Read? {
      assert AllAdded(t.first);
    }
  }

  // ---- The second join -----------------------------------------------------

  predicate OnePasser(s: Row) {
    forall i, k :: 0 <= i < k < |s.first| ==> !(Passes(s.first[i]) && Passes(s.first[k]))
  }

  lemma OnePasserBefore(m: nat, s: Row, e: Step)
    requires |s.moves| == |s.first| && OnePasser(After(m, s, e))
    ensures OnePasser(s)
  {
    var t := After(m, s, e);
    forall i, k | 0 <= i < k < |s.first|
      ensures !(Passes(s.first[i]) && Passes(s.first[k]))
    {
      assert Passes(s.first[i]) ==> t.first[i] == s.first[i];
      assert Passes(s.first[k]) ==> t.first[k] == s.first[k];
    }
  }

  lemma {:induction false} OnePasserAlong(m: nat, s: Row, steps: seq<Step>)
    requires |s.moves| == |s.first| && OnePasser(Run(m, s, steps))
    ensures OnePasser(s)
    decreases |steps|
  {
    if |steps| > 0 {
      OnePasserAlong(m, After(m, s, steps[0]), steps[1..]);
      OnePasserBefore(m, s, steps[0]);
    }
  }

  predicate HasForked(s: Row) {
    exists k :: 0 <= k < |s.moves| && s.moves[k].Forked?
  }

  /** With one passer the second join has the columns for itself. */
  ghost predicate SecondOk(m: nat, s: Row) {
    && FirstOk(s)
    && (!HasForked(s) ==> s.second == [])
    && (HasForked(s) ==>
          && |s.second| == m
          && (s.cell == Cell(Adders(s.second), m) || (s.cell == Cell(0, 0) && AllAdded(s.second)))
          && (forall k :: 0 <= k < m && s.second[k].Read? ==>
                (Passes(s.second[k]) <==> s.second[k].afterAll) && (s.second[k].afterAll ==> AllAdded(s.second)))
          && (AllAdded(s.second) ==>
                exists k :: 0 <= k < m && (s.second[k].Added? || (s.second[k].Read? && s.second[k].afterAll))))
  }

  /** The second join on its own is the counter of one join. */
  ghost function Alone(s: Row): State {
    State(s.cell, s.second)
  }

  lemma SecondIsCounter(m: nat, s: Row)
    requires m > 0 && FirstOk(s) && HasForked(s) && |s.second| == m
    ensures SecondOk(m, s) <==> Inv(Alone(s))
  {
  }

  lemma ForkOpens(m: nat, s: Row, k: nat)
    requires m > 0 && SecondOk(m, s) && OnePasser(s) && k < |s.moves| && s.moves[k].Cleared?
    ensures SecondOk(m, After(m, s, Fork(k)))
  {
    var t := After(m, s, Fork(k));
    FirstStepOk(m, s, Fork(k));
    assert Passes(s.first[k]);
    assert forall i :: 0 <= i < |s.moves| && s.moves[i].Forked? ==> Passes(s.first[i]) && i != k;
    assert !HasForked(s);
    assert t.moves[k].Forked?;
    assert t.second == seq(m, _ => Starting);
    InitInv(m);
    assert Alone(t) == Init(m);
    SecondIsCounter(m, t);
  }

  lemma OnlyPasserForked(m: nat, s: Row, k: nat)
    requires FirstOk(s) && OnePasser(s) && HasForked(s) && k < |s.first| && Passes(s.first[k])
    ensures s.moves[k].Forked?
  {
    var i :| 0 <= i < |s.moves| && s.moves[i].Forked?;
    assert Passes(s.first[i]);
  }

  lemma SecondMoves(m: nat, s: Row, e: Step)
    requires m > 0 && SecondOk(m, s) && HasForked(s) && (e.AddSecond? || e.ReadSecond? || e.ClearSecond?)
    ensures SecondOk(m, After(m, s, e))
  {
    var t := After(m, s, e);
    var c := match e case AddSecond(k) => Add(k) case ReadSecond(k) => Select(k) case _ => Clear(e.k);
    FirstStepOk(m, s, e);
    assert t.moves == s.moves;
    SecondIsCounter(m, s);
    assert Alone(t) == Next(Alone(s), c);
    ExecInv(Alone(s), [c]);
    assert [c][1..] == [];
    SecondIsCounter(m, t);
  }

  lemma FirstMoves(m: nat, s: Row, e: Step)
    requires m > 0 && SecondOk(m, s) && OnePasser(s) && (e.AddFirst? || e.ReadFirst? || e.ClearFirst?)
    ensures SecondOk(m, After(m, s, e))
  {
    var t := After(m, s, e);
    FirstStepOk(m, s, e);
    if HasForked(s) {
      var i :| 0 <= i < |s.moves| && s.moves[i].Forked?;
      assert Passes(s.first[i]) && t.moves[i].Forked?;
      if e.ClearFirst? && e.k < |s.first| && Passes(s.first[e.k]) {
        OnlyPasserForked(m, s, e.k);
      }
      assert t.cell == s.cell && t.second == s.second;
    } else {
      assert !HasForked(t) by {
        if i :| 0 <= i < |t.moves| && t.moves[i].Forked? {
          assert s.moves[i].Forked?;
        }
      }
    }
  }

  lemma SecondStepOk(m: nat, s: Row, e: Step)
    requires m > 0 && SecondOk(m, s) && OnePasser(s)
    ensures SecondOk(m, After(m, s, e))
  {
    if After(m, s, e) != s {
      match e
      case Fork(k) => ForkOpens(m, s, k);
      case AddSecond(_) => SecondMoves(m, s, e);
      case ReadSecond(_) => SecondMoves(m, s, e);
      case ClearSecond(_) => SecondMoves(m, s, e);
      case _ => FirstMoves(m, s, e);
    }
  }

  lemma {:induction false} SecondRunOk(m: nat, s: Row, steps: seq<Step>)
    requires m > 0 && SecondOk(m, s) && OnePasser(Run(m, s, steps))
    ensures SecondOk(m, Run(m, s, steps))
    decreases |steps|
  {
    if |steps| > 0 {
      OnePasserAlong(m, s, steps);
      SecondStepOk(m, s, steps[0]);
      SecondRunOk(m, After(m, s, steps[0]), steps[1..]);
    }
  }

  /**
   * As long as only one completer passes the first join, the second is right in every interleaving,
   * slow readers of the first included: exactly those who read after its last increment pass it,
   * and once all have read at least one did.
   */
  lemma SecondJoinIsRight(n: nat, m: nat, steps: seq<Step>)
    requires n > 0 && m > 0 && OnePasser(Run(m, Opened(n), steps))
    ensures
      var t := Run(m, Opened(n), steps);
      && (t.second == [] || |t.second| == m)
      && (forall k :: 0 <= k < |t.second| && t.second[k].Read? ==> (Passes(t.second[k]) <==> t.second[k].afterAll))
      && (|t.second| > 0 && (forall k :: 0 <= k < |t.second| ==> t.second[k].Read?) ==>
            exists k :: 0 <= k < |t.second| && Passes(t.second[k]))
  {
    OpenedOk(n);
    assert SecondOk(m, Opened(n));
    SecondRunOk(m, Opened(n), steps);
    var t := Run(m, Opened(n), steps);
    if |t.second| > 0 && forall k :: 0 <= k < |t.second| ==> t.second[k].Read? {
      assert AllAdded(t.second);
    }
  }

  lemma OneStep(m: nat, s: Row, e: Step, rest: seq<Step>)
    requires |s.moves| == |s.first|
    ensures Run(m, s, [e] + rest) == Run(m, After(m, s, e), rest)
  {
    assert ([e] + rest)[1..] == rest;
  }

  /** The state in which both of two completers have passed the first join, and one has opened the second. */
  lemma BothPass(m: nat) returns (steps: seq<Step>)
    ensures
      var t := Run(m, Opened(2), steps);
      && t.cell == Cell(0, m) && t.second == seq(m, _ => Starting)
      && t.moves == [Forked, Idle] && Passes(t.first[0]) && Passes(t.first[1])
  {
    var s1 := After(m, Opened(2), AddFirst(0));
    var s2 := After(m, s1, AddFirst(1));
    var s3 := After(m, s2, ReadFirst(0));
    var s4 := After(m, s3, ReadFirst(1));
    var s5 := After(m, s4, ClearFirst(0));
    assert s2.first == [Added, Added] && s2.cell == Cell(2, 2);
    assert s4.first == [Read(Cell(2, 2), true), Read(Cell(2, 2), true)];
    assert s5.moves == [Cleared, Idle];
    var s6 := After(m, s5, Fork(0));
    assert s6.moves == [Forked, Idle];
    OneStep(m, s5, Fork(0), []);
    OneStep(m, s4, ClearFirst(0), [Fork(0)] + []);
    OneStep(m, s3, ReadFirst(1), [ClearFirst(0)] + ([Fork(0)] + []));
    OneStep(m, s2, ReadFirst(0), [ReadFirst(1)] + ([ClearFirst(0)] + ([Fork(0)] + [])));
    OneStep(m, s1, AddFirst(1), [ReadFirst(0)] + ([ReadFirst(1)] + ([ClearFirst(0)] + ([Fork(0)] + []))));
    OneStep(m, Opened(2), AddFirst(0),
            [AddFirst(1)] + ([ReadFirst(0)] + ([ReadFirst(1)] + ([ClearFirst(0)] + ([Fork(0)] + [])))));
    steps := [AddFirst(0)] + ([AddFirst(1)] + ([ReadFirst(0)] + ([ReadFirst(1)] + ([ClearFirst(0)] + ([Fork(0)] + [])))));
  }

  lemma {:induction false} RunAppend(m: nat, s: Row, steps: seq<Step>, more: seq<Step>)
    requires |s.moves| == |s.first|
    ensures Run(m, s, steps + more) == Run(m, Run(m, s, steps), more)
    decreases |steps|
  {
    if |steps| == 0 {
      assert steps + more == more;
    } else {
      assert (steps + more)[1..] == steps[1..] + more;
      RunAppend(m, After(m, s, steps[0]), steps[1..], more);
    }
  }

  /**
   * With two passers it is not: the clear of the second one comes after the fork of the first, and a
   * branch of the second join passes although all others of its `m` branches have not completed.
   */
  lemma SecondJoinEarly(m: nat) returns (steps: seq<Step>)
    requires m > 1
    ensures
      var t := Run(m, Opened(2), steps);
      && |t.second| == m
      && Passes(t.second[0])
      && forall k :: 0 < k < m ==> t.second[k].Starting?
  {
    var both := BothPass(m);
    var s := Run(m, Opened(2), both);
    var s1 := After(m, s, AddSecond(0));
    var s2 := After(m, s1, ClearFirst(1));
    var s3 := After(m, s2, ReadSecond(0));
    OneStep(m, s2, ReadSecond(0), []);
    OneStep(m, s1, ClearFirst(1), [ReadSecond(0)] + []);
    OneStep(m, s, AddSecond(0), [ClearFirst(1)] + ([ReadSecond(0)] + []));
    var more := [AddSecond(0)] + ([ClearFirst(1)] + ([ReadSecond(0)] + []));
    RunAppend(m, Opened(2), both, more);
    steps := both + more;
  }
}
