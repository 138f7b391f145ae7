/**
 Rows, and what a backend does with a plan: all tests against the row as it is,
 then every write (the plan interpreter of ormpatch/agree_test.go).
 */
module Rows {
  import opened Values
  import opened Schema
  import opened Plans

  // A column's content; None is NULL. An edge column holds the target's key.
  type Cell = Option<Value>

  type Row = map<Num, Cell>

  function At(row: Row, n: Num): Cell {
    if n in row then row[n] else None
  }

  /** A list where the field is repeated, a map with keys of its kind where it is one, and neither otherwise. */
  predicate HasShape(fd: FieldDesc, v: Value) {
    match fd.card
    case Single => !v.List? && !v.Map?
    case Repeated => v.List?
    case Mapped => v.Map? && forall k <- v.entries :: KindOfKey(k) == fd.keyKind
  }

  predicate CellFits(p: Prop, c: Cell) {
    match c
    case None => p.IsNullable()
    case Some(v) => HasShape(p.Held(), v)
  }

  /** A row of the entity: a cell for each prop, of that prop's shape, NULL only where the prop is nullable. */
  ghost predicate RowFits(props: map<Num, Prop>, row: Row) {
    row.Keys == props.Keys && forall n <- props :: CellFits(props[n], row[n])
  }

  predicate Present(c: Cell) {
    match c
    case None => false
    case Some(List(items)) => items != []
    case Some(Map(entries)) => entries != map[]
    case Some(_) => true
  }

  /** A negative index counts from the end. */
  function Position(i: int, length: nat): int {
    if i < 0 then i + length else i
  }

  /** What stands at an address inside a cell. */
  function Look(c: Cell, addr: Address): Cell {
    match addr
    case Whole => if Present(c) then c else None
    case AtKey(k) =>
      if c.Some? && c.value.Map? && k in c.value.entries then Some(c.value.entries[k]) else None
    case AtIndex(i) =>
      if c.Some? && c.value.List? then
        var j := Position(i, |c.value.items|);
        if 0 <= j < |c.value.items| then Some(c.value.items[j]) else None
      else None
  }

  predicate Satisfies(c: Cell, addr: Address, want: Want) {
    match want
    case Exists => Look(c, addr).Some?
    case Absent => Look(c, addr).None?
    case IsEqual(v) => if addr == Whole then c == Some(v) else Look(c, addr) == Some(v)
  }

  predicate Holds(row: Row, t: Test) {
    Satisfies(At(row, t.prop.Number()), t.addr, t.want)
  }

  /** One partial edit. An element that is not there, or a cell of another shape, is left alone. */
  function Edit(v: Value, o: JSONOp): Value {
    match (o, v)
    case (SetEntry(k, x), Map(m)) => Map(m[k := x])
    case (RemoveEntry(k), Map(m)) => Map(m - {k})
    case (ClearAll, Map(_)) => Map(map[])
    case (SetElem(i, x), List(l)) =>
      var j := Position(i, |l|);
      if 0 <= j < |l| then List(l[j := x]) else v
    case (RemoveElem(i), List(l)) =>
      var j := Position(i, |l|);
      if 0 <= j < |l| then List(l[..j] + l[j + 1..]) else v
    case (AppendElem(x), List(l)) => List(l + [x])
    case (ClearAll, List(_)) => List([])
    case (_, _) => v
  }

  function EditAll(v: Value, ops: seq<JSONOp>): Value {
    if ops == [] then v else Edit(EditAll(v, ops[..|ops| - 1]), ops[|ops| - 1])
  }

  function ApplyOp(c: Cell, op: Op): Cell {
    match op
    case SetColumn(v) => Some(v)
    case ClearColumn => None
    case SetEdge(k) => Some(k)
    case ClearEdge => None
    case EditJSON(ops) => if c.Some? then Some(EditAll(c.value, ops)) else None
  }

  function PutCell(row: Row, p: Prop, op: Op): Row {
    row[p.Number() := ApplyOp(At(row, p.Number()), op)]
  }

  function ApplyWrites(row: Row, writes: seq<Write>): Row {
    if writes == [] then row
    else PutCell(ApplyWrites(row, writes[..|writes| - 1]), writes[|writes| - 1].prop, writes[|writes| - 1].op)
  }

  predicate TestsHold(row: Row, tests: seq<Test>) {
    forall t <- tests :: Holds(row, t)
  }

  /** None when a test fails: no row matches and nothing is written. */
  function Apply(row: Row, plan: Plan): Option<Row> {
    if TestsHold(row, plan.tests) then Some(ApplyWrites(row, plan.writes)) else None
  }

  // ---- Editing composes ----

  lemma {:induction false} EditAllAppend(v: Value, a: seq<JSONOp>, b: seq<JSONOp>)
    ensures EditAll(v, a + b) == EditAll(EditAll(v, a), b)
  {
    if b == [] {
      assert a + b == a;
    } else {
      assert (a + b)[..|a + b| - 1] == a + b[..|b| - 1];
      EditAllAppend(v, a, b[..|b| - 1]);
    }
  }

  lemma {:induction false} ApplyEdits(c: Cell, a: seq<JSONOp>, b: seq<JSONOp>)
    ensures ApplyOp(c, EditJSON(a + b)) == ApplyOp(ApplyOp(c, EditJSON(a)), EditJSON(b))
  {
    if c.Some? { EditAllAppend(c.value, a, b); }
  }

  lemma {:induction false} EditKeepsShape(fd: FieldDesc, v: Value, ops: seq<JSONOp>)
    requires HasShape(fd, v) && forall o <- ops :: o.SetEntry? ==> KindOfKey(o.key) == fd.keyKind
    ensures HasShape(fd, EditAll(v, ops))
  {
    if ops == [] {
    } else {
      var init := ops[..|ops| - 1];
      assert forall o <- init :: o in ops;
      EditKeepsShape(fd, v, init);
      assert ops[|ops| - 1] in ops;
    }
  }

  lemma PutCellAt(row: Row, p: Prop, op: Op, n: Num)
    ensures At(PutCell(row, p, op), n) == if n == p.Number() then ApplyOp(At(row, n), op) else At(row, n)
    ensures PutCell(row, p, op).Keys == row.Keys + {p.Number()}
  {
  }

  /** The writes of a plan with one write per column act on each column independently. */
  lemma {:induction false} AppliedColumn(row: Row, writes: seq<Write>, n: Num)
    requires OnePerColumn(writes)
    ensures forall w <- writes :: w.prop.Number() == n ==> At(ApplyWrites(row, writes), n) == ApplyOp(At(row, n), w.op)
    ensures !(exists w <- writes :: w.prop.Number() == n) ==> At(ApplyWrites(row, writes), n) == At(row, n)
  {
    if writes == [] {
    } else {
      var init, last := writes[..|writes| - 1], writes[|writes| - 1];
      AppliedColumn(row, init, n);
      PutCellAt(ApplyWrites(row, init), last.prop, last.op, n);
      forall w | w in writes && w.prop.Number() == n
        ensures At(ApplyWrites(row, writes), n) == ApplyOp(At(row, n), w.op)
      {
        if w in init {
          assert last.prop.Number() != n;
        } else {
          assert w == last;
          assert forall v <- init :: v.prop.Number() != n;
        }
      }
      assert forall w <- init :: w in writes;
    }
  }

  lemma {:induction false} AppliedColumns(row: Row, writes: seq<Write>)
    ensures ApplyWrites(row, writes).Keys == row.Keys + (set w <- writes :: w.prop.Number())
  {
    if writes == [] {
    } else {
      var init, last := writes[..|writes| - 1], writes[|writes| - 1];
      assert writes == init + [last];
      AppliedColumns(row, init);
      PutCellAt(ApplyWrites(row, init), last.prop, last.op, last.prop.Number());
      assert (set w <- writes :: w.prop.Number()) == (set w <- init :: w.prop.Number()) + {last.prop.Number()};
    }
  }
}
