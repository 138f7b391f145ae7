/** Plans that touch different things may be served in either order (ormpatch/plan.go, on EditJSON). */
module Commuting {
  import opened Values
  import opened Schema
  import opened Plans
  import opened Rows

  /** Edits of named map entries only: no clear, nothing positional. */
  predicate EditsKeys(op: Op) {
    op.EditJSON? && forall o <- op.ops :: o.SetEntry? || o.RemoveEntry?
  }

  function KeysOf(ops: seq<JSONOp>): set<MapKey> {
    set o | o in ops && (o.SetEntry? || o.RemoveEntry?) :: o.key
  }

  predicate WritesApart(a: Write, b: Write) {
    a.prop.Number() == b.prop.Number() ==>
      EditsKeys(a.op) && EditsKeys(b.op) && KeysOf(a.op.ops) !! KeysOf(b.op.ops)
  }

  predicate Unread(t: Test, w: Write) {
    t.prop.Number() == w.prop.Number() ==> EditsKeys(w.op) && t.addr.AtKey? && t.addr.key !in KeysOf(w.op.ops)
  }

  /** The plans edit disjoint columns or disjoint entries, and neither tests what the other writes. */
  ghost predicate Independent(a: Plan, b: Plan) {
    && (forall v, w | v in a.writes && w in b.writes :: WritesApart(v, w))
    && (forall t, w | t in a.tests && w in b.writes :: Unread(t, w))
    && (forall t, w | t in b.tests && w in a.writes :: Unread(t, w))
  }

  /** A server's answer: the row it is left with, and whether the plan was accepted. */
  function Serve(row: Row, plan: Plan): (Row, bool) {
    match Apply(row, plan)
    case None => (row, false)
    case Some(next) => (next, true)
  }

  function EntryAt(v: Value, k: MapKey): Option<Value> {
    if v.Map? && k in v.entries then Some(v.entries[k]) else None
  }

  lemma KeyAfterEdit(v: Value, o: JSONOp, k: MapKey)
    requires v.Map? && (o.SetEntry? || o.RemoveEntry?)
    ensures Edit(v, o).Map?
    ensures EntryAt(Edit(v, o), k) ==
            if o.key != k then EntryAt(v, k) else if o.SetEntry? then Some(o.value) else None
  {
  }

  lemma KeysOfSplit(ops: seq<JSONOp>)
    requires ops != [] && EditsKeys(EditJSON(ops))
    ensures EditsKeys(EditJSON(ops[..|ops| - 1])) && (ops[|ops| - 1].SetEntry? || ops[|ops| - 1].RemoveEntry?)
    ensures KeysOf(ops) == KeysOf(ops[..|ops| - 1]) + {ops[|ops| - 1].key}
  {
    var init, last := ops[..|ops| - 1], ops[|ops| - 1];
    assert ops == init + [last];
    assert last in ops && forall o <- init :: o in ops;
  }

  /** A key no edit names keeps its entry; a named key ends the same whatever it held before. */
  lemma {:induction false} KeyAfterEdits(v: Value, u: Value, ops: seq<JSONOp>, k: MapKey)
    requires v.Map? && u.Map? && EditsKeys(EditJSON(ops))
    ensures EditAll(v, ops).Map? && EditAll(u, ops).Map?
    ensures k !in KeysOf(ops) ==> EntryAt(EditAll(v, ops), k) == EntryAt(v, k)
    ensures k in KeysOf(ops) ==> EntryAt(EditAll(v, ops), k) == EntryAt(EditAll(u, ops), k)
  {
    if ops == [] {
    } else {
      var init, last := ops[..|ops| - 1], ops[|ops| - 1];
      KeysOfSplit(ops);
      KeyAfterEdits(v, u, init, k);
      KeyAfterEdit(EditAll(v, init), last, k);
      KeyAfterEdit(EditAll(u, init), last, k);
    }
  }

  lemma {:induction false} KeyEditsNeedAMap(v: Value, ops: seq<JSONOp>)
    requires !v.Map? && EditsKeys(EditJSON(ops))
    ensures EditAll(v, ops) == v
  {
    if ops == [] {
    } else {
      KeyEditsNeedAMap(v, ops[..|ops| - 1]);
    }
  }

  lemma DisjointEditsCommute(v: Value, a: seq<JSONOp>, b: seq<JSONOp>)
    requires EditsKeys(EditJSON(a)) && EditsKeys(EditJSON(b)) && KeysOf(a) !! KeysOf(b)
    ensures EditAll(EditAll(v, a), b) == EditAll(EditAll(v, b), a)
  {
    if v.Map? {
      KeyAfterEdits(v, v, a, BoolKey(true));
      KeyAfterEdits(v, v, b, BoolKey(true));
      var ab, ba := EditAll(EditAll(v, a), b), EditAll(EditAll(v, b), a);
      KeyAfterEdits(EditAll(v, a), v, b, BoolKey(true));
      KeyAfterEdits(EditAll(v, b), v, a, BoolKey(true));
      forall k ensures EntryAt(ab, k) == EntryAt(ba, k) {
        KeyAfterEdits(v, v, a, k);
        KeyAfterEdits(v, v, b, k);
        KeyAfterEdits(EditAll(v, a), v, b, k);
        KeyAfterEdits(EditAll(v, b), v, a, k);
      }
      assert ab.entries == ba.entries by {
        forall k ensures k in ab.entries <==> k in ba.entries {
          assert EntryAt(ab, k) == EntryAt(ba, k);
        }
        forall k | k in ab.entries ensures ab.entries[k] == ba.entries[k] {
          assert EntryAt(ab, k) == EntryAt(ba, k);
        }
      }
    } else {
      KeyEditsNeedAMap(v, a);
      KeyEditsNeedAMap(v, b);
    }
  }

  lemma CellsCommute(c: Cell, a: Op, b: Op)
    requires EditsKeys(a) && EditsKeys(b) && KeysOf(a.ops) !! KeysOf(b.ops)
    ensures ApplyOp(ApplyOp(c, a), b) == ApplyOp(ApplyOp(c, b), a)
  {
    if c.Some? { DisjointEditsCommute(c.value, a.ops, b.ops); }
  }

  // What a plan does to one column, if anything.
  ghost predicate ColumnOp(writes: seq<Write>, n: Num, op: Option<Op>) {
    match op
    case None => forall w <- writes :: w.prop.Number() != n
    case Some(o) => exists w <- writes :: w.prop.Number() == n && w.op == o
  }

  lemma ColumnHasOp(writes: seq<Write>, n: Num) returns (op: Option<Op>)
    ensures ColumnOp(writes, n, op)
  {
    if w :| w in writes && w.prop.Number() == n {
      op := Some(w.op);
    } else {
      op := None;
    }
  }

  lemma ColumnAfter(row: Row, writes: seq<Write>, n: Num, op: Option<Op>)
    requires OnePerColumn(writes) && ColumnOp(writes, n, op)
    ensures At(ApplyWrites(row, writes), n) == if op.Some? then ApplyOp(At(row, n), op.value) else At(row, n)
  {
    AppliedColumn(row, writes, n);
  }

  lemma WritesCommute(row: Row, a: seq<Write>, b: seq<Write>)
    requires OnePerColumn(a) && OnePerColumn(b)
    requires forall v, w | v in a && w in b :: WritesApart(v, w)
    ensures ApplyWrites(ApplyWrites(row, a), b) == ApplyWrites(ApplyWrites(row, b), a)
  {
    var ab, ba := ApplyWrites(ApplyWrites(row, a), b), ApplyWrites(ApplyWrites(row, b), a);
    AppliedColumns(row, a);
    AppliedColumns(row, b);
    AppliedColumns(ApplyWrites(row, a), b);
    AppliedColumns(ApplyWrites(row, b), a);
    assert ab.Keys == ba.Keys;
    forall n ensures At(ab, n) == At(ba, n) {
      ColumnCommutes(row, a, b, n);
    }
    forall n | n in ab ensures ab[n] == ba[n] {
      assert At(ab, n) == At(ba, n);
    }
  }

  lemma ColumnCommutes(row: Row, a: seq<Write>, b: seq<Write>, n: Num)
    requires OnePerColumn(a) && OnePerColumn(b)
    requires forall v, w | v in a && w in b :: WritesApart(v, w)
    ensures At(ApplyWrites(ApplyWrites(row, a), b), n) == At(ApplyWrites(ApplyWrites(row, b), a), n)
  {
    var x := ColumnHasOp(a, n);
    var y := ColumnHasOp(b, n);
    ColumnAfter(row, a, n, x);
    ColumnAfter(row, b, n, y);
    ColumnAfter(ApplyWrites(row, a), b, n, y);
    ColumnAfter(ApplyWrites(row, b), a, n, x);
    if x.Some? && y.Some? {
      var v :| v in a && v.prop.Number() == n && v.op == x.value;
      var w :| w in b && w.prop.Number() == n && w.op == y.value;
      assert WritesApart(v, w);
      CellsCommute(At(row, n), x.value, y.value);
    }
  }

  lemma TestUnmoved(row: Row, writes: seq<Write>, t: Test)
    requires OnePerColumn(writes) && forall w <- writes :: Unread(t, w)
    ensures Holds(ApplyWrites(row, writes), t) <==> Holds(row, t)
  {
    var n := t.prop.Number();
    var op := ColumnHasOp(writes, n);
    ColumnAfter(row, writes, n, op);
    if op.Some? {
      var w :| w in writes && w.prop.Number() == n && w.op == op.value;
      assert Unread(t, w);
      var c := At(row, n);
      if c.Some? {
        if c.value.Map? {
          KeyAfterEdits(c.value, c.value, w.op.ops, t.addr.key);
        } else {
          KeyEditsNeedAMap(c.value, w.op.ops);
        }
        assert Look(c, t.addr) == EntryAt(c.value, t.addr.key);
      }
    }
  }

  lemma TestsUnmoved(row: Row, writes: seq<Write>, tests: seq<Test>)
    requires OnePerColumn(writes) && forall t, w | t in tests && w in writes :: Unread(t, w)
    ensures TestsHold(ApplyWrites(row, writes), tests) <==> TestsHold(row, tests)
  {
    forall t <- tests ensures Holds(ApplyWrites(row, writes), t) <==> Holds(row, t) {
      TestUnmoved(row, writes, t);
    }
  }

  /** Two writers that touch different things lose nothing of each other's: either order gives the same row and the same answers. */
  lemma PlansCommute(row: Row, a: Plan, b: Plan)
    requires OnePerColumn(a.writes) && OnePerColumn(b.writes) && Independent(a, b)
    ensures var (afterA, tookA) := Serve(row, a);
            var (afterAB, tookBLast) := Serve(afterA, b);
            var (afterB, tookB) := Serve(row, b);
            var (afterBA, tookALast) := Serve(afterB, a);
            afterAB == afterBA && tookA == tookALast && tookB == tookBLast
  {
    WritesCommute(row, a.writes, b.writes);
    TestsUnmoved(row, b.writes, a.tests);
    TestsUnmoved(row, a.writes, b.tests);
  }
}
