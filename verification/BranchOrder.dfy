/** The order in which the outputs of branch jobs are read back: by branch name, as text. */
module BranchOrder {
  import opened Wrappers
  import opened WorkflowModel
  import Text

  /** A selected row: branch name and step output. */
  type Row = (string, Option<string>)

  function Insert(x: Row, ys: seq<Row>): seq<Row> {
    if |ys| == 0 then [x]
    else if Text.Less(x.0, ys[0].0) then [x] + ys
    else [ys[0]] + Insert(x, ys[1..])
  }

  /** The rows, ordered by branch name. */
  function OrderByName(rows: seq<Row>): seq<Row> {
    if |rows| == 0 then [] else Insert(rows[|rows| - 1], OrderByName(rows[..|rows| - 1]))
  }

  predicate Ordered(rows: seq<Row>) {
    forall i, k :: 0 <= i < k < |rows| ==> !Text.Less(rows[k].0, rows[i].0)
  }

  lemma {:induction false} InsertOrdered(x: Row, ys: seq<Row>)
    requires Ordered(ys)
    ensures Ordered(Insert(x, ys)) && multiset(Insert(x, ys)) == multiset(ys) + multiset{x}
  {
    if |ys| == 0 {
    } else if Text.Less(x.0, ys[0].0) {
      forall k | 0 <= k < |ys|
        ensures !Text.Less(ys[k].0, x.0)
      {
        if Text.Less(ys[k].0, x.0) {
          Text.LessTransitive(ys[k].0, x.0, ys[0].0);
          Text.LessAsymmetric(x.0, ys[0].0);
        }
      }
    } else {
      var rest := Insert(x, ys[1..]);
      assert ys == [ys[0]] + ys[1..];
      InsertOrdered(x, ys[1..]);
      forall k | 0 <= k < |rest|
        ensures !Text.Less(rest[k].0, ys[0].0)
      {
        assert rest[k] in multiset(rest);
        if rest[k] != x {
          assert rest[k] in ys[1..];
        }
      }
    }
  }

  /** The result is the same rows, in order. */
  lemma {:induction false} OrderByNameSorts(rows: seq<Row>)
    ensures Ordered(OrderByName(rows)) && multiset(OrderByName(rows)) == multiset(rows)
  {
    if |rows| > 0 {
      var n := |rows| - 1;
      OrderByNameSorts(rows[..n]);
      InsertOrdered(rows[n], OrderByName(rows[..n]));
      assert multiset(rows) == multiset(rows[..n]) + multiset{rows[n]} by {
        assert rows == rows[..n] + [rows[n]];
      }
    }
  }

  lemma {:induction false} InsertLast(x: Row, ys: seq<Row>)
    requires forall k :: 0 <= k < |ys| ==> !Text.Less(x.0, ys[k].0)
    ensures Insert(x, ys) == ys + [x]
  {
    if |ys| > 0 {
      InsertLast(x, ys[1..]);
      assert ys == [ys[0]] + ys[1..];
    }
  }

  /** Rows that are in order already stay as they are. */
  lemma {:induction false} OrderByNameKeeps(rows: seq<Row>)
    requires Ordered(rows)
    ensures OrderByName(rows) == rows
  {
    if |rows| > 0 {
      var n := |rows| - 1;
      OrderByNameKeeps(rows[..n]);
      InsertLast(rows[n], rows[..n]);
      assert rows == rows[..n] + [rows[n]];
    }
  }

  /** The merged value of a map step: the outputs in the order of the rows. */
  function Outputs(rows: seq<Row>): seq<Option<string>> {
    seq(|rows|, k requires 0 <= k < |rows| => rows[k].1)
  }

  /** The rows that a map step over `outs` leaves: item `k` is named by its decimal position. */
  function ItemRows(outs: seq<Option<string>>): (rows: seq<Row>)
    ensures |rows| == |outs|
    ensures forall k :: 0 <= k < |outs| ==> rows[k] == (Text.Decimal(k), outs[k])
  {
    seq(|outs|, k requires 0 <= k < |outs| => (Text.Decimal(k), outs[k]))
  }

  ghost predicate KeepsItemOrder(n: nat) {
    forall outs: seq<Option<string>> | |outs| == n :: Outputs(OrderByName(ItemRows(outs))) == outs
  }

  lemma UpToTenInOrder(outs: seq<Option<string>>)
    requires |outs| <= 10
    ensures Outputs(OrderByName(ItemRows(outs))) == outs
  {
    assert Ordered(ItemRows(outs));
    OrderByNameKeeps(ItemRows(outs));
  }

  lemma ElevenOutOfOrder(n: nat)
    requires n > 10
    ensures !KeepsItemOrder(n)
  {
    var outs := seq(n, (k: int) requires 0 <= k < n => Some(Text.Decimal(k)));
    var rows := OrderByName(ItemRows(outs));
    OrderByNameSorts(ItemRows(outs));
    assert |multiset(rows)| == |multiset(ItemRows(outs))|;
    assert Text.Decimal(2)[0] == '2' && Text.Decimal(10)[0] == '1';
    assert Text.Less(Text.Decimal(10), Text.Decimal(2));
    assert rows[2].0 != Text.Decimal(2) || rows[10].0 != Text.Decimal(10);
    forall k | k == 2 || k == 10
      ensures Outputs(rows)[k] == Some(rows[k].0)
    {
      assert rows[k] in multiset(ItemRows(outs));
    }
    assert Outputs(rows)[2] != outs[2] || Outputs(rows)[10] != outs[10];
  }

  /** A map step hands its outputs on in item order for all outputs exactly up to ten items. */
  lemma ItemOrderIffTen(n: nat)
    ensures KeepsItemOrder(n) <==> n <= 10
  {
    if n <= 10 {
      forall outs: seq<Option<string>> | |outs| == n
        ensures Outputs(OrderByName(ItemRows(outs))) == outs
      {
        UpToTenInOrder(outs);
      }
    } else {
      ElevenOutOfOrder(n);
    }
  }
}
