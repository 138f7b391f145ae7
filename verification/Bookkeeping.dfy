/** The compiler's memory, and what each step does to it (the fields of `compiler` in ormpatch/compile.go). */
module Bookkeeping {
  import opened Values
  import opened Schema
  import opened Plans
  import opened Elaboration
  import Doc = Documents

  datatype State = State(
    tests: seq<Test>, order: seq<Num>, writes: map<Num, Write>, wrote: set<Num>, resized: set<Num>)

  const START := State([], [], map[], {}, {})

  /** Folding: edits concatenate, a whole write replaces, an edit after a whole write is refused. */
  function Fold(prev: Op, next: Op): Option<Op> {
    if prev.EditJSON? && next.EditJSON? then Some(EditJSON(prev.ops + next.ops))
    else if next.EditJSON? then None
    else Some(next)
  }

  function Exec(st: State, step: Step): Option<State> {
    var n := step.Prop().Number();
    if step.NamesIndex() && n in st.resized then None else
    match step
    case Check(t) => if n in st.wrote then None else Some(st.(tests := st.tests + [t]))
    case Guard(t) => Some(st.(tests := st.tests + [t]))
    case Put(p, op, resizes) => ExecPut(if resizes then st.(resized := st.resized + {n}) else st, p, op)
  }

  function ExecPut(st: State, p: Prop, op: Op): Option<State> {
    var n := p.Number();
    if !CheckOp(p, op) then None
    else if n !in st.writes then
      Some(st.(order := st.order + [n], writes := st.writes[n := Write(p, op)], wrote := st.wrote + {n}))
    else
      match Fold(st.writes[n].op, op)
      case None => None
      case Some(folded) => Some(st.(writes := st.writes[n := st.writes[n].(op := folded)], wrote := st.wrote + {n}))
  }

  function Run(st: State, steps: seq<Step>): Option<State>
    decreases steps
  {
    if steps == [] then Some(st) else
    match Exec(st, steps[0])
    case None => None
    case Some(next) => Run(next, steps[1..])
  }

  function RunIf(st: State, steps: Option<seq<Step>>): Option<State> {
    match steps
    case None => None
    case Some(ss) => Run(st, ss)
  }

  lemma {:induction false} RunAppend(st: State, a: seq<Step>, b: seq<Step>)
    ensures Run(st, a + b) == match Run(st, a) case None => None case Some(mid) => Run(mid, b)
    decreases a
  {
    if a == [] {
      assert a + b == b;
    } else {
      assert (a + b)[0] == a[0] && (a + b)[1..] == a[1..] + b;
      var next := Exec(st, a[0]);
      if next.Some? { RunAppend(next.value, a[1..], b); }
    }
  }

  lemma RunOne(st: State, step: Step)
    ensures Run(st, [step]) == Exec(st, step)
  {
    var next := Exec(st, step);
    if next.Some? { assert Run(next.value, [step][1..]) == next; }
  }

  /** The pieces agree with each other: one pending write per written column, in first-write order. */
  ghost predicate Consistent(st: State) {
    && (forall i, j | 0 <= i < j < |st.order| :: st.order[i] != st.order[j])
    && (set n <- st.order) == st.writes.Keys == st.wrote
    && st.resized <= st.wrote
    && (forall n <- st.writes :: st.writes[n].prop.Number() == n)
  }

  lemma ExecConsistent(st: State, step: Step)
    requires Consistent(st) && Exec(st, step).Some?
    ensures Consistent(Exec(st, step).value)
  {
    if step.Put? {
      var n, st' := step.column.Number(), Exec(st, step).value;
      if n !in st.writes {
        assert n !in st.order;
        assert (set m <- st'.order) == (set m <- st.order) + {n};
      }
    }
  }

  lemma {:induction false} RunConsistent(st: State, steps: seq<Step>)
    requires Consistent(st) && Run(st, steps).Some?
    ensures Consistent(Run(st, steps).value)
    decreases steps
  {
    if steps == [] {
    } else {
      ExecConsistent(st, steps[0]);
      RunConsistent(Exec(st, steps[0]).value, steps[1..]);
    }
  }

  function WritesInOrder(order: seq<Num>, writes: map<Num, Write>): seq<Write>
    requires forall n <- order :: n in writes
  {
    if order == [] then []
    else WritesInOrder(order[..|order| - 1], writes) + [writes[order[|order| - 1]]]
  }

  function PlanOf(st: State): Plan
    requires forall n <- st.order :: n in st.writes
  {
    Plan(st.tests, WritesInOrder(st.order, st.writes))
  }

  lemma {:induction false} WritesInOrderAt(order: seq<Num>, writes: map<Num, Write>)
    requires forall n <- order :: n in writes
    ensures |WritesInOrder(order, writes)| == |order|
    ensures forall i | 0 <= i < |order| :: WritesInOrder(order, writes)[i] == writes[order[i]]
  {
    if order == [] {
    } else {
      WritesInOrderAt(order[..|order| - 1], writes);
    }
  }

  lemma PlanWrites(st: State)
    requires Consistent(st)
    ensures OnePerColumn(PlanOf(st).writes)
    ensures forall w: Write :: w in PlanOf(st).writes <==> w.prop.Number() in st.writes && st.writes[w.prop.Number()] == w
  {
    WritesInOrderAt(st.order, st.writes);
    var ws := PlanOf(st).writes;
    forall w: Write | w.prop.Number() in st.writes && st.writes[w.prop.Number()] == w ensures w in ws {
      assert w.prop.Number() in st.order;
      var i :| 0 <= i < |st.order| && st.order[i] == w.prop.Number();
      assert ws[i] == w;
    }
  }

  /** One write per column, and the plan writes column n exactly when some entry wrote it. */
  lemma PlanColumns(st: State)
    requires Consistent(st)
    ensures OnePerColumn(PlanOf(st).writes)
    ensures forall n :: PlanOf(st).Writes(n) <==> n in st.wrote
    ensures forall w: Write :: w in PlanOf(st).writes <==> w.prop.Number() in st.writes && st.writes[w.prop.Number()] == w
  {
    PlanWrites(st);
    forall n ensures PlanOf(st).Writes(n) <==> n in st.wrote {
      if n in st.wrote { assert st.writes[n] in PlanOf(st).writes; }
    }
  }

  /** The specification of compiling an entity's document. */
  function Compiled(env: Env, doc: Doc.Document): Option<State> {
    if doc.messageType != "" && doc.messageType != env.entity.fullName then None
    else RunIf(START, Elaborate(env, doc.delta, Root, 0))
  }
}
