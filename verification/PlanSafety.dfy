/** What every compiled plan keeps, whatever the document nested, repeated or folded. */
module PlanSafety {
  import opened Values
  import opened Schema
  import opened Plans
  import opened Rows
  import opened Elaboration
  import opened Bookkeeping
  import opened StepSafety
  import opened InOrder
  import opened Agreement
  import opened Exactness
  import Doc = Documents

  /** Pending writes and tests fit their columns and carry values of their columns' types. */
  ghost predicate StateFits(env: Env, st: State) {
    && (forall t <- st.tests :: OnProps(env, t.prop) && TestFits(t))
    && (forall n <- st.writes :: WriteFits(env, st.writes[n]))
  }

  predicate WriteFits(env: Env, w: Write) {
    OnProps(env, w.prop) && OpFits(w.prop, w.op) && OpValuesFit(w.prop, w.op)
  }

  lemma StepKeepsFit(env: Env, st: State, step: Step)
    requires Consistent(st) && StateFits(env, st) && StepFits(env, step) && Exec(st, step).Some?
    ensures StateFits(env, Exec(st, step).value)
  {
    if step.Put? { CheckIsLengths(step.column, step.op); }
    if step.Put? && step.column.Number() in st.writes {
      var prev := st.writes[step.column.Number()];
      assert prev.prop == step.column;
      if prev.op.EditJSON? && step.op.EditJSON? {
        FittingOpsFold(step.column, prev.op.ops, step.op.ops);
      }
    }
  }

  lemma {:induction false} RunKeepsFit(env: Env, st: State, steps: seq<Step>)
    requires Consistent(st) && StateFits(env, st) && StepsFit(env, steps) && Run(st, steps).Some?
    ensures StateFits(env, Run(st, steps).value)
    decreases steps
  {
    if steps == [] {
    } else {
      ExecConsistent(st, steps[0]);
      StepKeepsFit(env, st, steps[0]);
      RunKeepsFit(env, Exec(st, steps[0]).value, steps[1..]);
    }
  }

  /** Every test and write of a compiled plan is on a column of the entity, fits it, and holds values of its type. */
  lemma PlanFits(e: Entity, types: Types, doc: Doc.Document)
    requires Compiled(NewEnv(e, types), doc).Some?
    ensures var env, plan := NewEnv(e, types), CompiledPlan(e, types, doc);
            && OnePerColumn(plan.writes)
            && (forall w <- plan.writes :: WriteFits(env, w))
            && (forall t <- plan.tests :: OnProps(env, t.prop) && TestFits(t))
  {
    var env, steps := NewEnv(e, types), StepsOf(e, types, doc);
    NewEnvOk(e, types);
    DocumentFits(e, types, doc.delta);
    RunConsistent(START, steps);
    RunKeepsFit(env, START, steps);
    PlanColumns(Run(START, steps).value);
  }

  /** No plan writes an immutable or version column that is not a collection: no row is re-keyed, no version chosen. */
  lemma NoForbiddenWrite(e: Entity, types: Types, doc: Doc.Document, p: Prop)
    requires Compiled(NewEnv(e, types), doc).Some? && OnProps(NewEnv(e, types), p)
    requires !Mutable(p) && !p.IsCollection()
    ensures !CompiledPlan(e, types, doc).Writes(p.Number())
  {
    PlanFits(e, types, doc);
    forall w <- CompiledPlan(e, types, doc).writes ensures w.prop.Number() != p.Number() {
      assert WriteFits(NewEnv(e, types), w);
    }
  }

  /** The ban reaches exactly the columns that are not collections: a container-scope entry clears an immutable one. */
  lemma BanIsExact(e: Entity, types: Types, p: Prop)
    requires WellFormed(e) && p in e.props && !Mutable(p)
    ensures (forall doc: Doc.Document | Compiled(NewEnv(e, types), doc).Some? ::
               !CompiledPlan(e, types, doc).Writes(p.Number())) <==> !p.IsCollection()
  {
    ByNumberFiles(e.props);
    if p.IsCollection() {
      var doc := ClearWhole(p);
      ClearWholeWrites(e, types, p);
      assert Compiled(NewEnv(e, types), doc).Some? && CompiledPlan(e, types, doc).Writes(p.Number());
    } else {
      forall doc: Doc.Document | Compiled(NewEnv(e, types), doc).Some?
        ensures !CompiledPlan(e, types, doc).Writes(p.Number())
      {
        NoForbiddenWrite(e, types, doc, p);
      }
    }
  }

  // "Remove, at container scope, in p."
  function ClearWhole(p: Prop): Doc.Document {
    Doc.Document("", [Doc.Entry([Doc.FieldKey(FieldRef(Some(p.Name()), Some(p.Number())))], Doc.Container, Doc.Remove, false)])
  }

  lemma ClearWholeWrites(e: Entity, types: Types, p: Prop)
    requires WellFormed(e) && p in e.props && p.IsCollection()
    ensures Compiled(NewEnv(e, types), ClearWhole(p)).Some?
    ensures CompiledPlan(e, types, ClearWhole(p)).Writes(p.Number())
  {
    hide Run, Consistent;
    var env, entry := NewEnv(e, types), ClearWhole(p).delta[0];
    var step := Put(p, EditJSON([ClearAll]), true);
    PinnedPropResolves(e, types, p);
    assert entry.path[1..] == [] && ClearWhole(p).delta[1..] == [] && [step] + [] == [step];
    assert Walk(env, Root, entry.path) == PlaceOf(p);
    assert OneEntry(env, entry, Root, 0) == Some([step]);
    assert Entries(env, ClearWhole(p).delta[1..], Root, 0) == Some([]);
    assert Elaborate(env, ClearWhole(p).delta, Root, 0) == Join(Some([step]), Some([]));
    RunOne(START, step);
    assert Exec(START, step).Some?;
    StartConsistent();
    RunConsistent(START, [step]);
    PlanColumns(Exec(START, step).value);
  }

  /** NULL reaches only a nullable column. */
  lemma ClearsAreNullable(e: Entity, types: Types, doc: Doc.Document, w: Write)
    requires Compiled(NewEnv(e, types), doc).Some? && w in CompiledPlan(e, types, doc).writes
    ensures w.op.ClearColumn? || w.op.ClearEdge? ==> w.prop.IsNullable()
    ensures !w.prop.IsCollection() ==> (w.prop.Edge? <==> w.op.SetEdge? || w.op.ClearEdge?)
  {
    PlanFits(e, types, doc);
    assert WriteFits(NewEnv(e, types), w);
  }

  /** A plan takes rows of the entity to rows of the entity: collections stay collections, no column becomes NULL that cannot be. */
  lemma AppliedRowFits(e: Entity, types: Types, doc: Doc.Document, row: Row)
    requires Compiled(NewEnv(e, types), doc).Some? && RowFits(NewEnv(e, types).props, row)
    ensures RowFits(NewEnv(e, types).props, ApplyWrites(row, CompiledPlan(e, types, doc).writes))
  {
    var env, ws := NewEnv(e, types), CompiledPlan(e, types, doc).writes;
    PlanFits(e, types, doc);
    AppliedColumns(row, ws);
    var numbers := set w <- ws :: w.prop.Number();
    forall n | n in numbers ensures n in env.props {
      var w :| w in ws && w.prop.Number() == n;
      assert WriteFits(env, w);
    }
    forall n | n in env.props ensures CellFits(env.props[n], ApplyWrites(row, ws)[n]) {
      AppliedColumn(row, ws, n);
      if w :| w in ws && w.prop.Number() == n {
        assert WriteFits(env, w);
        FittingOpKeepsCell(w.prop, row[n], w.op);
      }
    }
  }

  // ---- What a step reads, at the point of the in-order run where it stands ----

  lemma MidRun(e: Entity, types: Types, doc: Doc.Document, row: Row, before: seq<Step>, step: Step, after: seq<Step>)
    requires Compiled(NewEnv(e, types), doc).Some? && RowFits(NewEnv(e, types).props, row)
    requires StepsOf(e, types, doc) == before + ([step] + after)
    requires PlaySteps(row, before).Some?
    ensures Run(START, before).Some?
    ensures var st := Run(START, before).value;
            Consistent(st) && Steady(st) && Exec(st, step).Some? && Sim(row, st, PlaySteps(row, before).value)
    ensures StepFits(NewEnv(e, types), step)
  {
    var env, steps := NewEnv(e, types), StepsOf(e, types, doc);
    DocumentIsSteps(e, types, doc, row);
    RunAppend(START, before, [step] + after);
    RunAppend(Run(START, before).value, [step], after);
    RunOne(Run(START, before).value, step);
    StartConsistent();
    RunConsistent(START, before);
    assert step in [step] + after;
    assert forall s <- before :: s in steps;
    RunSteady(env, START, before);
    RunSim(row, START, row, before);
  }

  lemma {:induction false} RunSteady(env: Env, st: State, steps: seq<Step>)
    requires Steady(st) && StepsFit(env, steps) && Run(st, steps).Some?
    ensures Steady(Run(st, steps).value)
    decreases steps
  {
    if steps == [] {
    } else {
      StepSteady(env, st, steps[0]);
      RunSteady(env, Exec(st, steps[0]).value, steps[1..]);
    }
  }

  /** A test the author wrote reads its column as the statement will: as the row was. */
  lemma TestsReadUntouched(e: Entity, types: Types, doc: Doc.Document, row: Row, before: seq<Step>, t: Test, after: seq<Step>)
    requires Compiled(NewEnv(e, types), doc).Some? && RowFits(NewEnv(e, types).props, row)
    requires StepsOf(e, types, doc) == before + ([Check(t)] + after)
    requires PlaySteps(row, before).Some?
    ensures At(PlaySteps(row, before).value, t.prop.Number()) == At(row, t.prop.Number())
  {
    MidRun(e, types, doc, row, before, Check(t), after);
  }

  lemma PendingFits(e: Entity, types: Types, doc: Doc.Document, before: seq<Step>, after: seq<Step>, n: Num)
    requires Compiled(NewEnv(e, types), doc).Some? && StepsOf(e, types, doc) == before + after
    requires Run(START, before).Some? && n in Run(START, before).value.writes
    ensures WriteFits(NewEnv(e, types), Run(START, before).value.writes[n])
  {
    DocumentFits(e, types, doc.delta);
    assert forall s <- before :: s in StepsOf(e, types, doc);
    StartConsistent();
    RunKeepsFit(NewEnv(e, types), START, before);
  }

  /** What the pending edits last put at a position, if they put anything there. */
  function Replaced(ops: seq<JSONOp>, i: int): Option<Value> {
    if ops == [] then None
    else
      var last := ops[|ops| - 1];
      if last.SetElem? && last.index == i then Some(last.value) else Replaced(ops[..|ops| - 1], i)
  }

  lemma {:induction false} PositionsStay(l: seq<Value>, ops: seq<JSONOp>)
    requires KeepsLength(ops) && forall o <- ops :: o.SetElem? ==> 0 <= o.index
    ensures EditAll(List(l), ops).List? && |EditAll(List(l), ops).items| >= |l|
    ensures forall i | 0 <= i < |l| ::
              EditAll(List(l), ops).items[i] == match Replaced(ops, i) case None => l[i] case Some(v) => v
  {
    if ops == [] {
    } else {
      assert forall o <- ops[..|ops| - 1] :: o in ops;
      assert ops[|ops| - 1] in ops;
      PositionsStay(l, ops[..|ops| - 1]);
    }
  }

  function PendingEdits(st: State, n: Num): seq<JSONOp> {
    if n in st.writes && st.writes[n].op.EditJSON? then st.writes[n].op.ops else []
  }

  /**
   Wherever a test or an edit names an index, the list has the length it started
   with plus what container-scope inserts appended before, and every position it
   started with holds its element still, or one that an earlier entry put there.
   (A guard stands right before its edit, on the same row.)
   */
  lemma IndexStable(e: Entity, types: Types, doc: Doc.Document, row: Row, before: seq<Step>, step: Step, after: seq<Step>)
    requires Compiled(NewEnv(e, types), doc).Some? && RowFits(NewEnv(e, types).props, row)
    requires StepsOf(e, types, doc) == before + ([step] + after)
    requires PlaySteps(row, before).Some? && step.NamesIndex() && !step.Guard?
    ensures Run(START, before).Some?
    ensures var st, n := Run(START, before).value, step.Prop().Number();
            var was, now := At(row, n), At(PlaySteps(row, before).value, n);
            && was.Some? && was.value.List? && now.Some? && now.value.List?
            && |now.value.items| == |was.value.items| + Growth(PendingEdits(st, n))
            && forall i | 0 <= i < |was.value.items| ::
                 now.value.items[i] == match Replaced(PendingEdits(st, n), i)
                                       case None => was.value.items[i]
                                       case Some(v) => v
  {
    MidRun(e, types, doc, row, before, step, after);
    var st, n := Run(START, before).value, step.Prop().Number();
    assert CellFits(step.Prop(), row[n]);
    assert n in st.writes ==> st.writes[n].op.EditJSON?;
    if n in st.writes {
      PendingFits(e, types, doc, before, [step] + after, n);
      GrowthMeans(row[n].value.items, st.writes[n].op.ops);
      PositionsStay(row[n].value.items, st.writes[n].op.ops);
    }
  }
}
