/**
 Compiling preserves meaning: what the plan does at once is what the document
 does in order, and exactly when (ormpatch/doc.go, ormpatch/agree_test.go).
 */
module Agreement {
  import opened Values
  import opened Schema
  import opened Plans
  import opened Rows
  import opened Elaboration
  import opened Bookkeeping
  import opened StepSafety
  import opened InOrder
  import Doc = Documents

  // ---- The pending writes are the row so far ----

  function Pending(st: State, n: Num, c: Cell): Cell {
    if n in st.writes then ApplyOp(c, st.writes[n].op) else c
  }

  ghost predicate Sim(start: Row, st: State, row: Row) {
    && (forall n :: At(row, n) == Pending(st, n, At(start, n)))
    && row.Keys == start.Keys + st.writes.Keys
  }

  lemma FoldMeans(c: Cell, prev: Op, next: Op)
    requires Fold(prev, next).Some?
    ensures ApplyOp(c, Fold(prev, next).value) == ApplyOp(ApplyOp(c, prev), next)
  {
    if prev.EditJSON? && next.EditJSON? { ApplyEdits(c, prev.ops, next.ops); }
  }

  lemma StepSim(start: Row, st: State, row: Row, step: Step)
    requires Sim(start, st, row) && Exec(st, step).Some? && PlayStep(row, step).Some?
    ensures Sim(start, Exec(st, step).value, PlayStep(row, step).value)
  {
    if step.Put? {
      var p, op, st', row' := step.column, step.op, Exec(st, step).value, PlayStep(row, step).value;
      forall n ensures At(row', n) == Pending(st', n, At(start, n)) {
        PutCellAt(row, p, op, n);
        if n == p.Number() && n in st.writes { FoldMeans(At(start, n), st.writes[n].op, op); }
      }
    }
  }

  lemma {:induction false} RunSim(start: Row, st: State, row: Row, steps: seq<Step>)
    requires Sim(start, st, row) && Run(st, steps).Some? && PlaySteps(row, steps).Some?
    ensures Sim(start, Run(st, steps).value, PlaySteps(row, steps).value)
    decreases steps
  {
    if steps == [] {
    } else {
      StepSim(start, st, row, steps[0]);
      RunSim(start, Exec(st, steps[0]).value, PlayStep(row, steps[0]).value, steps[1..]);
    }
  }

  lemma AppliedIsPending(start: Row, st: State, n: Num)
    requires Consistent(st)
    ensures At(ApplyWrites(start, PlanOf(st).writes), n) == Pending(st, n, At(start, n))
  {
    var ws := PlanOf(st).writes;
    PlanColumns(st);
    AppliedColumn(start, ws, n);
    if n in st.writes {
      assert st.writes[n] in ws;
    } else {
      assert !PlanOf(st).Writes(n);
    }
  }

  lemma AppliedKeys(start: Row, st: State)
    requires Consistent(st)
    ensures ApplyWrites(start, PlanOf(st).writes).Keys == start.Keys + st.writes.Keys
  {
    var ws := PlanOf(st).writes;
    PlanColumns(st);
    AppliedColumns(start, ws);
    forall n ensures n in (set w <- ws :: w.prop.Number()) <==> n in st.writes {
      if n in st.writes { assert st.writes[n] in ws; }
    }
  }

  lemma SimIsApplied(start: Row, st: State, row: Row)
    requires Consistent(st) && Sim(start, st, row)
    ensures ApplyWrites(start, PlanOf(st).writes) == row
  {
    var applied := ApplyWrites(start, PlanOf(st).writes);
    AppliedKeys(start, st);
    forall n | n in row ensures applied[n] == row[n] {
      AppliedIsPending(start, st, n);
      assert At(applied, n) == At(row, n);
    }
  }

  // ---- What the in-order run needs of the row it starts from ----

  datatype Need = Author(test: Test) | KeyIn(n: Num, k: MapKey) | Longer(n: Num, than: int) | Never

  predicate Met(row: Row, need: Need) {
    match need
    case Author(t) => Holds(row, t)
    case KeyIn(n, k) => Look(At(row, n), AtKey(k)).Some?
    case Longer(n, m) => At(row, n).Some? && At(row, n).value.List? && |At(row, n).value.items| > m
    case Never => false
  }

  predicate AllMet(row: Row, needs: seq<Need>) {
    forall need <- needs :: Met(row, need)
  }

  lemma MetOne(row: Row, need: Need)
    ensures AllMet(row, [need]) <==> Met(row, need)
  {
    assert need in [need];
  }

  lemma MetBoth(row: Row, a: seq<Need>, b: seq<Need>)
    ensures AllMet(row, a + b) <==> AllMet(row, a) && AllMet(row, b)
  {
    if AllMet(row, a + b) {
      assert forall need <- a :: need in a + b;
      assert forall need <- b :: need in a + b;
    }
  }

  datatype Fate = Untouched | Held | Gone

  /** What the pending edits of a map column have done to one key. */
  function FateOf(ops: seq<JSONOp>, k: MapKey): Fate {
    if ops == [] then Untouched else
    match ops[|ops| - 1]
    case SetEntry(j, _) => if j == k then Held else FateOf(ops[..|ops| - 1], k)
    case RemoveEntry(j) => if j == k then Gone else FateOf(ops[..|ops| - 1], k)
    case ClearAll => Gone
    case _ => FateOf(ops[..|ops| - 1], k)
  }

  /** How many elements the pending edits of a list column have appended. */
  function Growth(ops: seq<JSONOp>): nat {
    if ops == [] then 0 else Growth(ops[..|ops| - 1]) + if ops[|ops| - 1].AppendElem? then 1 else 0
  }

  function GuardNeeds(st: State, t: Test): seq<Need> {
    var n := t.prop.Number();
    var ops := if n in st.writes && st.writes[n].op.EditJSON? then st.writes[n].op.ops else [];
    if n in st.writes && !st.writes[n].op.EditJSON? then
      if Look(ApplyOp(None, st.writes[n].op), t.addr).Some? then [] else [Never]
    else match t.addr
         case AtKey(k) =>
           (match FateOf(ops, k)
            case Untouched => [KeyIn(n, k)]
            case Held => []
            case Gone => [Never])
         case AtIndex(i) => [Longer(n, i - Growth(ops))]
         case Whole => [Author(t)]
  }

  function StepNeeds(st: State, step: Step): seq<Need> {
    match step
    case Check(t) => [Author(t)]
    case Guard(t) => GuardNeeds(st, t)
    case Put(_, _, _) => []
  }

  function Needs(st: State, steps: seq<Step>): seq<Need>
    decreases steps
  {
    if steps == [] then [] else
    match Exec(st, steps[0])
    case None => []
    case Some(next) => StepNeeds(st, steps[0]) + Needs(next, steps[1..])
  }

  lemma {:induction false} FateMeans(m: map<MapKey, Value>, ops: seq<JSONOp>, k: MapKey)
    ensures EditAll(Map(m), ops).Map?
    ensures k in EditAll(Map(m), ops).entries <==> FateOf(ops, k) == Held || (FateOf(ops, k) == Untouched && k in m)
  {
    if ops == [] {
    } else {
      FateMeans(m, ops[..|ops| - 1], k);
    }
  }

  predicate KeepsLength(ops: seq<JSONOp>) {
    forall o <- ops :: !o.ClearAll? && !o.RemoveElem?
  }

  lemma {:induction false} GrowthMeans(l: seq<Value>, ops: seq<JSONOp>)
    requires KeepsLength(ops)
    ensures EditAll(List(l), ops).List? && |EditAll(List(l), ops).items| == |l| + Growth(ops)
  {
    if ops == [] {
    } else {
      assert forall o <- ops[..|ops| - 1] :: o in ops;
      GrowthMeans(l, ops[..|ops| - 1]);
    }
  }

  /** A column not yet resized has only been appended to, or had elements replaced. */
  ghost predicate Steady(st: State) {
    forall n <- st.writes :: n !in st.resized && st.writes[n].op.EditJSON? ==> KeepsLength(st.writes[n].op.ops)
  }

  lemma StepSteady(env: Env, st: State, step: Step)
    requires Steady(st) && StepFits(env, step) && Exec(st, step).Some?
    ensures Steady(Exec(st, step).value)
  {
  }

  lemma GuardMeans(env: Env, start: Row, st: State, row: Row, t: Test)
    requires Sim(start, st, row) && Steady(st) && RowFits(env.props, start)
    requires StepFits(env, Guard(t)) && Exec(st, Guard(t)).Some?
    ensures Holds(row, t) <==> AllMet(start, GuardNeeds(st, t))
  {
    var n, c := t.prop.Number(), At(start, t.prop.Number());
    assert CellFits(env.props[n], start[n]);
    assert At(row, n) == Pending(st, n, c);
    var ops := if n in st.writes && st.writes[n].op.EditJSON? then st.writes[n].op.ops else [];
    if n in st.writes && !st.writes[n].op.EditJSON? {
      assert ApplyOp(None, st.writes[n].op) == ApplyOp(c, st.writes[n].op);
      MetOne(start, Never);
    } else {
      assert At(row, n) == Some(EditAll(c.value, ops));
      match t.addr {
        case AtKey(k) =>
          FateMeans(c.value.entries, ops, k);
          MetOne(start, KeyIn(n, k));
          MetOne(start, Never);
        case AtIndex(i) =>
          GrowthMeans(c.value.items, ops);
          MetOne(start, Longer(n, i - Growth(ops)));
      }
    }
  }

  /** The in-order run succeeds exactly when the row it starts from meets every need. */
  lemma {:induction false} NeedsAreWeakest(env: Env, start: Row, st: State, row: Row, steps: seq<Step>)
    requires Sim(start, st, row) && Steady(st) && Consistent(st) && RowFits(env.props, start)
    requires StepsFit(env, steps) && Run(st, steps).Some?
    ensures PlaySteps(row, steps).Some? <==> AllMet(start, Needs(st, steps))
    decreases steps
  {
    if steps == [] {
    } else {
      var step, next := steps[0], Exec(st, steps[0]).value;
      StepSteady(env, st, step);
      ExecConsistent(st, step);
      var first, rest := StepNeeds(st, step), Needs(next, steps[1..]);
      MetBoth(start, first, rest);
      if step.Guard? { GuardMeans(env, start, st, row, step.test); }
      if step.Check? {
        MetOne(start, Author(step.test));
        assert At(row, step.test.prop.Number()) == At(start, step.test.prop.Number());
      }
      assert PlayStep(row, step).Some? <==> AllMet(start, first);
      if PlayStep(row, step).Some? {
        StepSim(start, st, row, step);
        NeedsAreWeakest(env, start, next, PlayStep(row, step).value, steps[1..]);
      }
    }
  }
}
