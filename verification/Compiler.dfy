/** The row compiler (ormpatch/compile.go, props.go): one pass over the document, one object remembering what it did. */
module Compiler {
  import opened Values
  import opened Literals
  import opened Schema
  import opened Plans
  import opened Elaboration
  import opened Bookkeeping
  import Doc = Documents

  lemma RunJoin(st: State, a: Option<seq<Step>>, b: Option<seq<Step>>)
    ensures RunIf(st, Join(a, b)) == match RunIf(st, a) case None => None case Some(mid) => RunIf(mid, b)
  {
    if a.Some? && b.Some? { RunAppend(st, a.value, b.value); }
  }

  method IndexProps(ps: seq<Prop>) returns (byNum: map<Num, Prop>)
    ensures byNum == ByNumber(ps)
  {
    byNum := map[];
    for i := 0 to |ps|
      invariant byNum == ByNumber(ps[..i])
    {
      assert ps[..i + 1][..i] == ps[..i];
      byNum := byNum[ps[i].Number() := ps[i]];
    }
    assert ps[..|ps|] == ps;
  }

  /** None for every refusal: the document's, the schema's or the row's. */
  method Compile(e: Entity, types: Types, doc: Doc.Document) returns (plan: Option<Plan>)
    ensures plan.Some? <==> Compiled(NewEnv(e, types), doc).Some?
    ensures plan.Some? ==>
              var st := Compiled(NewEnv(e, types), doc).value;
              Consistent(st) && plan.value == PlanOf(st)
  {
    if doc.messageType != "" && doc.messageType != e.fullName {
      return None;
    }
    var c := new Compiler(e, types);
    var ok := c.Delta(doc.delta, Root, 0);
    if !ok {
      return None;
    }
    RunConsistent(START, Elaborate(NewEnv(e, types), doc.delta, Root, 0).value);
    var writes := [];
    for i := 0 to |c.order|
      invariant forall n <- c.order :: n in c.writes
      invariant writes == WritesInOrder(c.order[..i], c.writes)
    {
      assert c.order[..i + 1][..i] == c.order[..i];
      writes := writes + [c.writes[c.order[i]]];
    }
    assert c.order[..|c.order|] == c.order;
    plan := Some(Plan(c.tests, writes));
  }

  class Compiler {
    const entity: Entity
    const types: Types
    const props: map<Num, Prop>

    var tests: seq<Test>
    var order: seq<Num>
    var writes: map<Num, Write>
    var wrote: set<Num>
    var resized: set<Num>

    ghost function St(): State
      reads this
    {
      State(tests, order, writes, wrote, resized)
    }

    function Env(): Env {
      Elaboration.Env(entity, types, props)
    }

    /** This object went from `before` through `steps`, or refused where they are refused. */
    ghost predicate Did(ok: bool, before: State, steps: Option<seq<Step>>)
      reads this
    {
      RunIf(before, steps) == if ok then Some(St()) else None
    }

    constructor (e: Entity, t: Types)
      ensures St() == START
      ensures Env() == NewEnv(e, t)
    {
      var byNum := IndexProps(e.props);
      entity, types, props := e, t, byNum;
      tests, order, writes, wrote, resized := [], [], map[], {}, {};
    }

    method Delta(es: seq<Doc.Entry>, s: Place, depth: nat) returns (ok: bool)
      modifies this
      ensures Did(ok, old(St()), Elaborate(Env(), es, s, depth))
      decreases es, 2
    {
      if depth > MAX_NEST {
        return false;
      }
      for i := 0 to |es|
        invariant RunIf(old(St()), Entries(Env(), es, s, depth)) == RunIf(St(), Entries(Env(), es[i..], s, depth))
      {
        ghost var before := St();
        assert es[i..][0] == es[i] && es[i..][1..] == es[i + 1..];
        RunJoin(before, OneEntry(Env(), es[i], s, depth), Entries(Env(), es[i + 1..], s, depth));
        ok := Entry(es[i], s, depth);
        if !ok {
          return false;
        }
      }
      ok := true;
    }

    method Entry(e: Doc.Entry, s: Place, depth: nat) returns (ok: bool)
      modifies this
      ensures Did(ok, old(St()), OneEntry(Env(), e, s, depth))
      decreases e, 1
    {
      var t := WalkPath(s, e.path);
      if t.None? {
        return false;
      }
      match e.scope {
        case Container => ok := OnContainer(e, t.value, depth);
        case Targets(sels) => ok := OnTargets(e, sels, t.value, depth);
        case UnsetScope => ok := false;
      }
    }

    method WalkPath(s: Place, segs: seq<Doc.Key>) returns (r: Option<Place>)
      ensures r == Walk(Env(), s, segs)
    {
      var t := s;
      for i := 0 to |segs|
        invariant Walk(Env(), s, segs) == Walk(Env(), t, segs[i..])
      {
        if !t.Root? || !segs[i].FieldKey? {
          return None;
        }
        var v := Resolve(Env(), segs[i].field);
        if !v.Known? {
          return None;
        }
        var p := v.prop;
        if p.IsMap() {
          t := InMap(p);
        } else if p.IsList() {
          t := InList(p);
        } else if p.Edge? {
          t := InEdge(p);
        } else {
          return None;
        }
      }
      r := Some(t);
    }

    method OnContainer(e: Doc.Entry, s: Place, depth: nat) returns (ok: bool)
      modifies this
      ensures Did(ok, old(St()), Elaboration.OnContainer(Env(), e, s, depth))
      decreases e, 0
    {
      if s.Root? || s.InEdge? {
        return false;
      }
      var p := s.prop;
      match e.op {
        case Remove =>
          ok := Resizing(p, EditJSON([ClearAll]));
        case Assign(lit) =>
          var v := Materialize(types, lit, p.desc, SiteField);
          if v.None? {
            return false;
          }
          ok := Write(p, SetColumn(v.value));
        case Insert(lit) =>
          if !s.InList? {
            return false;
          }
          var v := Materialize(types, lit, p.desc, SiteField);
          if v.None? || !v.value.List? {
            return false;
          }
          var items := v.value.items;
          var ops := [];
          for i := 0 to |items|
            invariant ops == Appends(items[..i])
          {
            assert items[..i + 1][..i] == items[..i];
            ops := ops + [AppendElem(items[i])];
          }
          assert items[..|items|] == items;
          ok := Write(p, EditJSON(ops));
        case Nest(delta) =>
          ok := Delta(delta, s, depth + 1);
        case _ =>
          ok := false;
      }
    }

    method OnTargets(e: Doc.Entry, sels: seq<Doc.Selector>, s: Place, depth: nat) returns (ok: bool)
      modifies this
      ensures Did(ok, old(St()), Elaboration.OnTargets(Env(), e, sels, s, depth))
      decreases e, 0
    {
      if e.op.Move? || e.op.Copy? {
        return false;
      }
      if e.op.Nest? {
        if |sels| != 1 {
          return false;
        }
        var inner := EnterTarget(s, sels[0]);
        if inner.None? {
          return false;
        }
        ok := Delta(e.op.delta, inner.value, depth + 1);
        return;
      }
      var seen: set<Ident> := {};
      for i := 0 to |sels|
        invariant RunIf(old(St()), Selectors(Env(), e, sels, s, {})) == RunIf(St(), Selectors(Env(), e, sels[i..], s, seen))
      {
        assert sels[i..][0] == sels[i] && sels[i..][1..] == sels[i + 1..];
        var id := IdentOf(Env(), s, sels[i]);
        if id in seen {
          return false;
        }
        seen := seen + {id};
        RunJoin(St(), One(Env(), e, s, sels[i]), Selectors(Env(), e, sels[i + 1..], s, seen));
        ok := OnOne(e, s, sels[i]);
        if !ok {
          return false;
        }
      }
      ok := true;
    }

    method EnterTarget(s: Place, sel: Doc.Selector) returns (r: Option<Place>)
      ensures r == Enter(Env(), s, sel)
    {
      if !s.Root? || !sel.ByKey? || !sel.key.FieldKey? {
        return None;
      }
      var v := Resolve(Env(), sel.key.field);
      if !v.Known? {
        return None;
      }
      var p := v.prop;
      if p.IsMap() {
        return Some(InMap(p));
      }
      if p.IsList() {
        return Some(InList(p));
      }
      if p.Edge? {
        return Some(InEdge(p));
      }
      r := None;
    }

    method OnOne(e: Doc.Entry, s: Place, sel: Doc.Selector) returns (ok: bool)
      modifies this
      ensures Did(ok, old(St()), One(Env(), e, s, sel))
    {
      match s {
        case Root => ok := AtColumn(e, sel);
        case InEdge(p) =>
          if !p.Edge? {
            return false;
          }
          ok := AtEdge(e, p, sel);
        case InMap(p) => ok := AtMapEntry(e, p, sel);
        case InList(p) => ok := AtListElem(e, p, sel);
      }
    }

    method AtColumn(e: Doc.Entry, sel: Doc.Selector) returns (ok: bool)
      modifies this
      ensures Did(ok, old(St()), Elaboration.AtColumn(Env(), e, sel))
    {
      if !sel.ByKey? || !sel.key.FieldKey? {
        return false;
      }
      var v := Resolve(Env(), sel.key.field);
      if v.Refused? {
        return false;
      }
      if v.NoField? {
        if e.skip && !e.op.TestThat? {
          return true;
        }
        // A test reads a missing target, and can only conclude absence.
        return e.op.TestThat? && e.op.want == Doc.WantExists(false);
      }
      var p := v.prop;
      match e.op {
        case TestThat(want) =>
          ok := RecordTest(p, Whole, want);
        case Remove =>
          if !Mutable(p) {
            return false;
          }
          if p.Edge? {
            if !p.IsNullable() {
              return false;
            }
            ok := Write(p, ClearEdge);
            return;
          }
          if p.IsCollection() {
            ok := Resizing(p, EditJSON([ClearAll]));
            return;
          }
          if !p.IsNullable() {
            return false;
          }
          ok := Write(p, ClearColumn);
        case Assign(lit) =>
          if !Mutable(p) || p.Edge? {
            return false;
          }
          var pv := Materialize(types, lit, p.desc, SiteField);
          if pv.None? {
            return false;
          }
          ok := Write(p, SetColumn(pv.value));
        case _ =>
          ok := false;
      }
    }

    method AtEdge(e: Doc.Entry, p: Prop, sel: Doc.Selector) returns (ok: bool)
      requires p.Edge?
      modifies this
      ensures Did(ok, old(St()), Elaboration.AtEdge(Env(), e, p, sel))
    {
      if !sel.ByKey? || !sel.key.FieldKey? {
        return false;
      }
      var v := ResolveField(p.target.fields, sel.key.field);
      if !v.Found? || v.field.number != p.target.key.number {
        return false;
      }
      match e.op {
        case TestThat(want) =>
          ok := RecordTest(p, Whole, want);
        case Assign(lit) =>
          if !Mutable(p) {
            return false;
          }
          var pv := Materialize(types, lit, p.target.key, SiteField);
          if pv.None? {
            return false;
          }
          ok := Write(p, SetEdge(pv.value));
        case _ =>
          ok := false;
      }
    }

    method AtMapEntry(e: Doc.Entry, p: Prop, sel: Doc.Selector) returns (ok: bool)
      modifies this
      ensures Did(ok, old(St()), Elaboration.AtMapEntry(Env(), e, p, sel))
    {
      if sel.EveryEntry? {
        if !e.op.Remove? || !Mutable(p) {
          return false;
        }
        ok := Resizing(p, EditJSON([ClearAll]));
        return;
      }
      if !sel.ByKey? || !sel.key.MapEntryKey? {
        return false;
      }
      var mk := MapKeyFor(sel.key.key, p.desc);
      if mk.None? {
        return false;
      }
      match e.op {
        case TestThat(want) =>
          ok := RecordTest(p, AtKey(mk.value), want);
        case Assign(lit) =>
          if !Mutable(p) {
            return false;
          }
          var pv := Materialize(types, lit, p.desc, SiteMapValue);
          if pv.None? {
            return false;
          }
          ok := Write(p, EditJSON([SetEntry(mk.value, pv.value)]));
        case Remove =>
          if !Mutable(p) {
            return false;
          }
          ghost var before := St();
          var op := EditJSON([RemoveEntry(mk.value)]);
          RunAppend(before, Guarded(e, p, AtKey(mk.value)), [Put(p, op, false)]);
          RequireExists(e, p, AtKey(mk.value));
          ok := Write(p, op);
        case _ =>
          ok := false;
      }
    }

    method AtListElem(e: Doc.Entry, p: Prop, sel: Doc.Selector) returns (ok: bool)
      modifies this
      ensures Did(ok, old(St()), Elaboration.AtListElem(Env(), e, p, sel))
    {
      if sel.Append? {
        if !e.op.Insert? || !Mutable(p) {
          return false;
        }
        var pv := Materialize(types, e.op.value, p.desc, SiteElement);
        if pv.None? {
          return false;
        }
        ok := Resizing(p, EditJSON([AppendElem(pv.value)]));
        return;
      }
      if !sel.ByKey? || !sel.key.IndexKey? {
        return false;
      }
      var i := sel.key.index;
      ghost var before := St();
      ghost var steps := Elaboration.AtListElem(Env(), e, p, sel);
      ok := Addressable(p, i);
      if !ok {
        if steps.Some? {
          assert steps.value[0].Put? ==> steps.value[0].op.ops[0] in steps.value[0].op.ops;
          NamedIndexRefused(before, steps.value);
        }
        return;
      }
      match e.op {
        case TestThat(want) =>
          ok := RecordTest(p, AtIndex(i), want);
        case Assign(lit) =>
          if !Mutable(p) {
            return false;
          }
          RequireExists(e, p, AtIndex(i));
          var pv := Materialize(types, lit, p.desc, SiteElement);
          if pv.None? {
            return false;
          }
          var op := EditJSON([SetElem(i, pv.value)]);
          RunAppend(before, Guarded(e, p, AtIndex(i)), [Put(p, op, false)]);
          ok := Write(p, op);
        case Remove =>
          if !Mutable(p) {
            return false;
          }
          var op := EditJSON([RemoveElem(i)]);
          RunAppend(before, Guarded(e, p, AtIndex(i)), [Put(p, op, true)]);
          RequireExists(e, p, AtIndex(i));
          ok := Resizing(p, op);
        case _ =>
          ok := false;
      }
    }

    lemma NamedIndexRefused(st: State, steps: seq<Step>)
      requires steps != [] && steps[0].NamesIndex() && steps[0].Prop().Number() in st.resized
      ensures Run(st, steps).None?
    {
    }

    method RequireExists(e: Doc.Entry, p: Prop, addr: Address)
      requires addr.AtIndex? ==> p.Number() !in resized
      modifies `tests
      ensures Run(old(St()), Guarded(e, p, addr)) == Some(St())
    {
      if !e.skip {
        RunOne(St(), Guard(Test(p, addr, Exists)));
        tests := tests + [Test(p, addr, Exists)];
      }
    }

    method RecordTest(p: Prop, addr: Address, want: Doc.Want) returns (ok: bool)
      requires addr.AtIndex? ==> p.Number() !in resized
      modifies `tests
      ensures Did(ok, old(St()), Tested(Env(), p, addr, want))
    {
      ghost var asked := Tested(Env(), p, addr, want);
      if asked.Some? { RunOne(St(), asked.value[0]); }
      if p.Number() in wrote {
        return false;
      }
      match want {
        case WantExists(b) =>
          tests := tests + [Test(p, addr, if b then Exists else Absent)];
          ok := true;
        case WantValue(lit) =>
          if addr.Whole? && IsJSONColumn(p) {
            return false;
          }
          var fd, site := p.desc, SiteOf(addr);
          if p.Edge? {
            fd, site := p.target.key, SiteField;
          }
          var pv := Materialize(types, lit, fd, site);
          if pv.None? || !CheckOrmValue(p, pv.value) {
            return false;
          }
          tests := tests + [Test(p, addr, IsEqual(pv.value))];
          ok := true;
        case WantUnset =>
          ok := false;
      }
    }

    method Write(p: Prop, op: Op) returns (ok: bool)
      modifies `order, `writes, `wrote
      ensures ExecPut(old(St()), p, op) == if ok then Some(St()) else None
      ensures !(Put(p, op, false).NamesIndex() && p.Number() in old(resized)) ==> Did(ok, old(St()), Some([Put(p, op, false)]))
    {
      RunOne(St(), Put(p, op, false));
      if !CheckOp(p, op) {
        return false;
      }
      var n := p.Number();
      if n !in wrote {
        wrote := wrote + {n};
      }
      assert wrote == old(wrote) + {n};
      if n !in writes {
        order := order + [n];
        writes := writes[n := Plans.Write(p, op)];
        return true;
      }
      var w := writes[n];
      if w.op.EditJSON? && op.EditJSON? {
        writes := writes[n := w.(op := EditJSON(w.op.ops + op.ops))];
        return true;
      }
      if op.EditJSON? {
        return false;
      }
      writes := writes[n := w.(op := op)];
      ok := true;
    }

    method Resize(p: Prop)
      modifies `resized
      ensures resized == old(resized) + {p.Number()}
    {
      if p.Number() !in resized {
        resized := resized + {p.Number()};
      }
    }

    method Resizing(p: Prop, op: Op) returns (ok: bool)
      requires Put(p, op, true).NamesIndex() ==> p.Number() !in resized
      modifies `order, `writes, `wrote, `resized
      ensures Did(ok, old(St()), Some([Put(p, op, true)]))
    {
      RunOne(St(), Put(p, op, true));
      Resize(p);
      ok := Write(p, op);
    }

    method Addressable(p: Prop, i: int) returns (ok: bool)
      ensures ok <==> p.Number() !in resized && 0 <= i <= MAX_LIST_INDEX
    {
      if p.Number() in resized {
        return false;
      }
      ok := 0 <= i <= MAX_LIST_INDEX;
    }
  }
}
