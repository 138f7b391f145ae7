/** What every step of an elaborated document respects, however it was nested. */
module StepSafety {
  import opened Values
  import opened Literals
  import opened Schema
  import opened Plans
  import opened Rows
  import opened Elaboration
  import Doc = Documents

  predicate JSONOpFits(p: Prop, o: JSONOp) {
    match o
    case SetEntry(k, _) => p.IsMap() && KindOfKey(k) == p.desc.keyKind
    case RemoveEntry(k) => p.IsMap() && KindOfKey(k) == p.desc.keyKind
    case SetElem(i, _) => p.IsList() && 0 <= i <= MAX_LIST_INDEX
    case RemoveElem(i) => p.IsList() && 0 <= i <= MAX_LIST_INDEX
    case AppendElem(_) => p.IsList()
    case ClearAll => p.IsCollection()
  }

  /** An operation fits its column: the column's kind, what the schema lets be written, and where NULL may go. */
  predicate OpFits(p: Prop, op: Op) {
    match op
    case SetColumn(v) =>
      && (p.IsCollection() || (p.Field? && Mutable(p)))
      && HasShape(p.Held(), v)
    case ClearColumn => p.Field? && Mutable(p) && p.IsNullable()
    case SetEdge(k) => p.Edge? && Mutable(p) && !p.IsCollection() && HasShape(p.Held(), k)
    case ClearEdge => p.Edge? && Mutable(p) && p.IsNullable()
    case EditJSON(ops) => p.IsCollection() && forall o <- ops :: JSONOpFits(p, o)
  }

  /** A test addresses what its column has, compares no JSON document whole, and expects a value of the column's type. */
  predicate TestFits(t: Test) {
    && (match t.addr
        case Whole => true
        case AtKey(k) => t.prop.IsMap() && KindOfKey(k) == t.prop.desc.keyKind
        case AtIndex(i) => t.prop.IsList() && 0 <= i <= MAX_LIST_INDEX)
    && (t.want.IsEqual? ==> ValueFits(t.prop, t.want.value))
    && (t.want.IsEqual? && t.addr == Whole ==> !IsJSONColumn(t.prop) && HasShape(t.prop.Held(), t.want.value))
  }

  predicate StepFits(env: Env, step: Step) {
    && OnProps(env, step.Prop())
    && match step
       case Check(t) => TestFits(t)
       case Guard(t) => TestFits(t) && t.want == Exists && t.addr != Whole
       case Put(p, op, resizes) =>
         OpFits(p, op) && (op.EditJSON? && !resizes ==> forall o <- op.ops :: !o.ClearAll? && !o.RemoveElem?)
  }

  predicate StepsFit(env: Env, steps: seq<Step>) {
    forall step <- steps :: StepFits(env, step)
  }

  /** What a literal denotes has the shape of the field it lands on. */
  lemma DenotedShape(types: Types, lit: Lit, fd: FieldDesc)
    ensures var v := Denote(types, lit, fd, SiteField); v.Some? ==> HasShape(fd, v.value)
  {
    var v := Denote(types, lit, fd, SiteField);
    if v.Some? {
      MaterializedFaithfully(types, lit, fd, SiteField, v.value);
      assert Spells(types, lit, fd, SiteField, v.value);
      if lit.LMap? {
        assert forall i | 0 <= i < |lit.entries| :: MapKeyFor(lit.entries[i].key, fd).Some?;
      }
    }
  }

  lemma {:induction false} EntriesFit(env: Env, es: seq<Doc.Entry>, s: Place, depth: nat)
    requires EnvOk(env) && PlaceOk(env, s) && Entries(env, es, s, depth).Some?
    ensures StepsFit(env, Entries(env, es, s, depth).value)
    decreases es, 1
  {
    if es == [] {
    } else {
      EntryFits(env, es[0], s, depth);
      EntriesFit(env, es[1..], s, depth);
    }
  }

  lemma {:induction false} EntryFits(env: Env, e: Doc.Entry, s: Place, depth: nat)
    requires EnvOk(env) && PlaceOk(env, s) && OneEntry(env, e, s, depth).Some?
    ensures StepsFit(env, OneEntry(env, e, s, depth).value)
    decreases e, 0
  {
    WalkedPlace(env, s, e.path);
    var t := Walk(env, s, e.path).value;
    if e.scope.Container? {
      assert OneEntry(env, e, s, depth) == OnContainer(env, e, t, depth);
      if e.op.Assign? {
        DenotedShape(env.types, e.op.value, t.prop.desc);
      } else if e.op.Nest? {
        assert OnContainer(env, e, t, depth) == Elaborate(env, e.op.delta, t, depth + 1);
        EntriesFit(env, e.op.delta, t, depth + 1);
      }
    } else if e.op.Nest? {
      var inner := Enter(env, t, e.scope.selectors[0]).value;
      assert OneEntry(env, e, s, depth) == Elaborate(env, e.op.delta, inner, depth + 1);
      EntriesFit(env, e.op.delta, inner, depth + 1);
    } else {
      SelectorsFit(env, e, e.scope.selectors, t, {});
    }
  }

  lemma {:induction false} SelectorsFit(env: Env, e: Doc.Entry, sels: seq<Doc.Selector>, s: Place, seen: set<Ident>)
    requires EnvOk(env) && PlaceOk(env, s) && Selectors(env, e, sels, s, seen).Some?
    ensures StepsFit(env, Selectors(env, e, sels, s, seen).value)
    decreases sels
  {
    if sels == [] {
    } else {
      OneFits(env, e, s, sels[0]);
      SelectorsFit(env, e, sels[1..], s, seen + {IdentOf(env, s, sels[0])});
    }
  }

  lemma OneFits(env: Env, e: Doc.Entry, s: Place, sel: Doc.Selector)
    requires EnvOk(env) && PlaceOk(env, s) && One(env, e, s, sel).Some?
    ensures StepsFit(env, One(env, e, s, sel).value)
  {
    hide AtColumn, AtEdge, AtMapEntry, AtListElem;
    match s {
      case Root => ColumnFits(env, e, sel);
      case InEdge(p) => EdgeFits(env, e, p, sel);
      case InMap(p) => MapEntryFits(env, e, p, sel);
      case InList(p) => ListElemFits(env, e, p, sel);
    }
  }

  lemma TestedFits(env: Env, p: Prop, addr: Address, want: Doc.Want)
    requires OnProps(env, p) && Tested(env, p, addr, want).Some?
    requires TestFits(Test(p, addr, Exists))
    ensures StepsFit(env, Tested(env, p, addr, want).value)
  {
    if want.WantValue? {
      DenotedShape(env.types, want.value, p.Held());
      CheckIsLength(p, Tested(env, p, addr, want).value[0].test.want.value);
    }
  }

  lemma ColumnFits(env: Env, e: Doc.Entry, sel: Doc.Selector)
    requires EnvOk(env) && AtColumn(env, e, sel).Some?
    ensures StepsFit(env, AtColumn(env, e, sel).value)
  {
    var v := Resolve(env, sel.key.field);
    if v.Known? {
      if e.op.TestThat? { TestedFits(env, v.prop, Whole, e.op.want); }
      if e.op.Assign? { DenotedShape(env.types, e.op.value, v.prop.desc); }
    }
  }

  lemma EdgeFits(env: Env, e: Doc.Entry, p: Prop, sel: Doc.Selector)
    requires OnProps(env, p) && p.Edge? && !p.IsCollection() && AtEdge(env, e, p, sel).Some?
    ensures StepsFit(env, AtEdge(env, e, p, sel).value)
  {
    if e.op.TestThat? { TestedFits(env, p, Whole, e.op.want); }
    if e.op.Assign? { DenotedShape(env.types, e.op.value, p.target.key); }
  }

  lemma MapEntryFits(env: Env, e: Doc.Entry, p: Prop, sel: Doc.Selector)
    requires OnProps(env, p) && p.IsMap() && AtMapEntry(env, e, p, sel).Some?
    ensures StepsFit(env, AtMapEntry(env, e, p, sel).value)
  {
  }

  lemma ListElemFits(env: Env, e: Doc.Entry, p: Prop, sel: Doc.Selector)
    requires OnProps(env, p) && p.IsList() && AtListElem(env, e, p, sel).Some?
    ensures StepsFit(env, AtListElem(env, e, p, sel).value)
  {
  }

  /** Every step of a document compiled for an entity fits. */
  lemma DocumentFits(e: Entity, types: Types, es: seq<Doc.Entry>)
    requires Elaborate(NewEnv(e, types), es, Root, 0).Some?
    ensures StepsFit(NewEnv(e, types), Elaborate(NewEnv(e, types), es, Root, 0).value)
  {
    NewEnvOk(e, types);
    EntriesFit(NewEnv(e, types), es, Root, 0);
  }

  // ---- Rows keep fitting ----

  lemma FittingOpKeepsCell(p: Prop, c: Cell, op: Op)
    requires CellFits(p, c) && OpFits(p, op)
    ensures CellFits(p, ApplyOp(c, op))
  {
    if op.EditJSON? { EditKeepsShape(p.Held(), c.value, op.ops); }
  }

  lemma FittingOpsFold(p: Prop, a: seq<JSONOp>, b: seq<JSONOp>)
    requires OpFits(p, EditJSON(a)) && OpFits(p, EditJSON(b))
    ensures OpFits(p, EditJSON(a + b))
  {
  }
}
