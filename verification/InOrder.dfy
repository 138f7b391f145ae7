/**
 The meaning of a document: its entries applied one after another to the current
 row, each seeing what the ones before it left. A failed test or a miss abandons
 everything. Nothing here knows about tests being hoisted or writes being folded.
 */
module InOrder {
  import opened Values
  import opened Literals
  import opened Schema
  import opened Plans
  import opened Rows
  import opened Elaboration
  import Doc = Documents

  function Emptied(c: Cell): Cell {
    match c
    case Some(List(_)) => Some(List([]))
    case Some(Map(_)) => Some(Map(map[]))
    case _ => c
  }

  function WithEntry(c: Cell, k: MapKey, v: Value): Cell {
    match c
    case Some(Map(m)) => Some(Map(m[k := v]))
    case _ => c
  }

  function WithoutEntry(c: Cell, k: MapKey): Cell {
    match c
    case Some(Map(m)) => Some(Map(map j | j in m && j != k :: m[j]))
    case _ => c
  }

  function WithElem(c: Cell, i: nat, v: Value): Cell {
    match c
    case Some(List(l)) => if i < |l| then Some(List(l[..i] + [v] + l[i + 1..])) else c
    case _ => c
  }

  function WithoutElem(c: Cell, i: nat): Cell {
    match c
    case Some(List(l)) => if i < |l| then Some(List(l[..i] + l[i + 1..])) else c
    case _ => c
  }

  function Extended(c: Cell, more: seq<Value>): Cell {
    match c
    case Some(List(l)) => Some(List(l + more))
    case _ => c
  }

  function Play(env: Env, es: seq<Doc.Entry>, s: Place, row: Row): Option<Row>
    decreases es, 1
  {
    if es == [] then Some(row) else
    match PlayEntry(env, es[0], s, row)
    case None => None
    case Some(next) => Play(env, es[1..], s, next)
  }

  function PlayEntry(env: Env, e: Doc.Entry, s: Place, row: Row): Option<Row>
    decreases e, 1
  {
    match Walk(env, s, e.path)
    case None => None
    case Some(t) =>
      match e.scope
      case Container => PlayContainer(env, e, t, row)
      case Targets(sels) => PlayTargets(env, e, sels, t, row)
      case UnsetScope => None
  }

  function PlayContainer(env: Env, e: Doc.Entry, s: Place, row: Row): Option<Row>
    decreases e, 0
  {
    if s.Root? || s.InEdge? then None else
    var n := s.prop.Number();
    match e.op
    case Remove => Some(row[n := Emptied(At(row, n))])
    case Assign(lit) =>
      (match Denote(env.types, lit, s.prop.desc, SiteField)
       case None => None
       case Some(v) => Some(row[n := Some(v)]))
    case Insert(lit) =>
      (match Denote(env.types, lit, s.prop.desc, SiteField)
       case Some(List(items)) => Some(row[n := Extended(At(row, n), items)])
       case _ => None)
    case Nest(delta) => Play(env, delta, s, row)
    case _ => None
  }

  function PlayTargets(env: Env, e: Doc.Entry, sels: seq<Doc.Selector>, s: Place, row: Row): Option<Row>
    decreases e, 0
  {
    if e.op.Nest? then
      if |sels| != 1 then None else
      match Enter(env, s, sels[0])
      case None => None
      case Some(inner) => Play(env, e.op.delta, inner, row)
    else PlaySelectors(env, e, sels, s, row)
  }

  function PlaySelectors(env: Env, e: Doc.Entry, sels: seq<Doc.Selector>, s: Place, row: Row): Option<Row>
    decreases sels
  {
    if sels == [] then Some(row) else
    match PlayOne(env, e, s, sels[0], row)
    case None => None
    case Some(next) => PlaySelectors(env, e, sels[1..], s, next)
  }

  function PlayOne(env: Env, e: Doc.Entry, s: Place, sel: Doc.Selector, row: Row): Option<Row> {
    match s
    case Root => PlayColumn(env, e, sel, row)
    case InEdge(p) => if p.Edge? then PlayEdge(env, e, p, sel, row) else None
    case InMap(p) => PlayMapEntry(env, e, p, sel, row)
    case InList(p) => PlayListElem(env, e, p, sel, row)
  }

  /** A test reads the row as it stands at this entry. */
  function PlayTest(env: Env, p: Prop, addr: Address, want: Doc.Want, row: Row): Option<Row> {
    var c := At(row, p.Number());
    match want
    case WantExists(b) => if Look(c, addr).Some? == b then Some(row) else None
    case WantValue(lit) =>
      var v := if p.Edge? then Denote(env.types, lit, p.target.key, SiteField)
               else Denote(env.types, lit, p.desc, SiteOf(addr));
      if v.Some? && (if addr == Whole then c else Look(c, addr)) == v then Some(row) else None
    case WantUnset => None
  }

  function PlayColumn(env: Env, e: Doc.Entry, sel: Doc.Selector, row: Row): Option<Row> {
    if !sel.ByKey? || !sel.key.FieldKey? then None else
    match Resolve(env, sel.key.field)
    case Refused => None
    case NoField =>
      if e.op.TestThat? then (if e.op.want == Doc.WantExists(false) then Some(row) else None)
      else if e.skip then Some(row) else None
    case Known(p) =>
      match e.op
      case TestThat(want) => PlayTest(env, p, Whole, want, row)
      case Remove =>
        Some(row[p.Number() := if p.IsCollection() && p.Field? then Emptied(At(row, p.Number())) else None])
      case Assign(lit) =>
        (match Denote(env.types, lit, p.desc, SiteField)
         case None => None
         case Some(v) => Some(row[p.Number() := Some(v)]))
      case _ => None
  }

  /** The target's key, reached through the edge, is the edge's column. Assigning it creates the edge. */
  function PlayEdge(env: Env, e: Doc.Entry, p: Prop, sel: Doc.Selector, row: Row): Option<Row>
    requires p.Edge?
  {
    if !sel.ByKey? || !sel.key.FieldKey? then None else
    match ResolveField(p.target.fields, sel.key.field)
    case Found(fd) =>
      if fd.number != p.target.key.number then None else
      (match e.op
       case TestThat(want) => PlayTest(env, p, Whole, want, row)
       case Assign(lit) =>
         (match Denote(env.types, lit, p.target.key, SiteField)
          case None => None
          case Some(v) => Some(row[p.Number() := Some(v)]))
       case _ => None)
    case _ => None
  }

  function PlayMapEntry(env: Env, e: Doc.Entry, p: Prop, sel: Doc.Selector, row: Row): Option<Row> {
    var n := p.Number();
    if sel.EveryEntry? then if e.op.Remove? then Some(row[n := Emptied(At(row, n))]) else None
    else if !sel.ByKey? || !sel.key.MapEntryKey? then None else
    match MapKeyFor(sel.key.key, p.desc)
    case None => None
    case Some(k) =>
      match e.op
      case TestThat(want) => PlayTest(env, p, AtKey(k), want, row)
      case Assign(lit) =>
        (match Denote(env.types, lit, p.desc, SiteMapValue)
         case None => None
         case Some(v) => Some(row[n := WithEntry(At(row, n), k, v)]))
      case Remove =>
        if Look(At(row, n), AtKey(k)).Some? then Some(row[n := WithoutEntry(At(row, n), k)])
        else if e.skip then Some(row)
        else None
      case _ => None
  }

  function PlayListElem(env: Env, e: Doc.Entry, p: Prop, sel: Doc.Selector, row: Row): Option<Row> {
    var n := p.Number();
    if sel.Append? then
      if !e.op.Insert? then None else
      match Denote(env.types, e.op.value, p.desc, SiteElement)
      case None => None
      case Some(v) => Some(row[n := Extended(At(row, n), [v])])
    else if !sel.ByKey? || !sel.key.IndexKey? || sel.key.index < 0 then None else
    var i := sel.key.index;
    match e.op
    case TestThat(want) => PlayTest(env, p, AtIndex(i), want, row)
    case Assign(lit) =>
      (match Denote(env.types, lit, p.desc, SiteElement)
       case None => None
       case Some(v) => PlayElem(e, row, n, i, WithElem(At(row, n), i, v)))
    case Remove => PlayElem(e, row, n, i, WithoutElem(At(row, n), i))
    case _ => None
  }

  /** An index outside the list is a miss. */
  function PlayElem(e: Doc.Entry, row: Row, n: Num, i: nat, edited: Cell): Option<Row> {
    if Look(At(row, n), AtIndex(i)).Some? then Some(row[n := edited])
    else if e.skip then Some(row)
    else None
  }

  // ---- The same, step by step ----

  function PlayStep(row: Row, step: Step): Option<Row> {
    match step
    case Check(t) => if Holds(row, t) then Some(row) else None
    case Guard(t) => if Holds(row, t) then Some(row) else None
    case Put(p, op, _) => Some(PutCell(row, p, op))
  }

  function PlaySteps(row: Row, steps: seq<Step>): Option<Row>
    decreases steps
  {
    if steps == [] then Some(row) else
    match PlayStep(row, steps[0])
    case None => None
    case Some(next) => PlaySteps(next, steps[1..])
  }

  lemma {:induction false} PlayStepsAppend(row: Row, a: seq<Step>, b: seq<Step>)
    ensures PlaySteps(row, a + b) == match PlaySteps(row, a) case None => None case Some(mid) => PlaySteps(mid, b)
    decreases a
  {
    if a == [] {
      assert a + b == b;
    } else {
      assert (a + b)[0] == a[0] && (a + b)[1..] == a[1..] + b;
      var next := PlayStep(row, a[0]);
      if next.Some? { PlayStepsAppend(next.value, a[1..], b); }
    }
  }

  lemma {:induction false} PlayedKeys(row: Row, steps: seq<Step>)
    ensures PlaySteps(row, steps).Some? ==> row.Keys <= PlaySteps(row, steps).value.Keys
    decreases steps
  {
    if steps == [] {
    } else {
      var next := PlayStep(row, steps[0]);
      if next.Some? { PlayedKeys(next.value, steps[1..]); }
    }
  }

  lemma PlayOnly(row: Row, step: Step)
    ensures PlaySteps(row, [step]) == PlayStep(row, step)
  {
    assert [step][1..] == [];
  }

  lemma EditOnce(c: Cell, o: JSONOp)
    ensures ApplyOp(c, EditJSON([o])) == if c.Some? then Some(Edit(c.value, o)) else None
  {
    assert [o][..0] == [];
    if c.Some? { assert EditAll(c.value, []) == c.value; }
  }

  lemma {:induction false} AppendsExtend(c: Cell, items: seq<Value>)
    ensures ApplyOp(c, EditJSON(Appends(items))) == Extended(c, items)
  {
    if items == [] {
      if c.Some? && c.value.List? { assert c.value.items + [] == c.value.items; }
    } else {
      var init, last := items[..|items| - 1], items[|items| - 1];
      AppendsExtend(c, init);
      ApplyEdits(c, Appends(init), [AppendElem(last)]);
      EditOnce(Extended(c, init), AppendElem(last));
      if c.Some? && c.value.List? { assert c.value.items + init + [last] == c.value.items + items; }
    }
  }

  /** Each kind of partial edit, as the cell it leaves. */
  function Edited(c: Cell, o: JSONOp): Cell {
    match o
    case SetEntry(k, v) => WithEntry(c, k, v)
    case RemoveEntry(k) => WithoutEntry(c, k)
    case SetElem(i, v) => if i >= 0 then WithElem(c, i, v) else c
    case RemoveElem(i) => if i >= 0 then WithoutElem(c, i) else c
    case AppendElem(v) => Extended(c, [v])
    case ClearAll => Emptied(c)
  }

  predicate CountsFromStart(o: JSONOp) {
    (o.SetElem? || o.RemoveElem?) ==> o.index >= 0
  }

  lemma EditMeans(c: Cell, o: JSONOp)
    requires CountsFromStart(o)
    ensures ApplyOp(c, EditJSON([o])) == Edited(c, o)
  {
    EditOnce(c, o);
    if c.Some? { EditIs(c.value, o); }
  }

  lemma EditIs(v: Value, o: JSONOp)
    requires CountsFromStart(o)
    ensures Edited(Some(v), o) == Some(Edit(v, o))
  {
    if o.RemoveEntry? && v.Map? {
      assert v.entries - {o.key} == map j | j in v.entries && j != o.key :: v.entries[j];
    }
    if o.SetElem? && v.List? && o.index < |v.items| {
      assert v.items[o.index := o.value] == v.items[..o.index] + [o.value] + v.items[o.index + 1..];
    }
  }

  /** Editing what is not there changes nothing. */
  lemma EditMisses(c: Cell, addr: Address, o: JSONOp)
    requires match o
             case RemoveEntry(k) => addr == AtKey(k)
             case SetElem(i, _) => addr == AtIndex(i) && i >= 0
             case RemoveElem(i) => addr == AtIndex(i) && i >= 0
             case _ => false
    requires Look(c, addr).None?
    ensures Edited(c, o) == c
  {
    if o.RemoveEntry? && c.Some? && c.value.Map? {
      assert (map j | j in c.value.entries && j != o.key :: c.value.entries[j]) == c.value.entries;
    }
  }

  lemma PutOnly(row: Row, p: Prop, op: Op, resizes: bool)
    ensures PlaySteps(row, [Put(p, op, resizes)]) == Some(PutCell(row, p, op))
  {
    PlayOnly(row, Put(p, op, resizes));
  }

  lemma TestPlays(env: Env, p: Prop, addr: Address, want: Doc.Want, row: Row)
    requires Tested(env, p, addr, want).Some?
    ensures PlayTest(env, p, addr, want, row) == PlaySteps(row, Tested(env, p, addr, want).value)
  {
    PlayOnly(row, Tested(env, p, addr, want).value[0]);
  }

  /** A guarded edit: a miss aborts, or under SKIP leaves the row alone. */
  lemma GuardedPlays(row: Row, e: Doc.Entry, p: Prop, addr: Address, o: JSONOp, resizes: bool)
    requires p.Number() in row
    requires match o
             case RemoveEntry(k) => addr == AtKey(k)
             case SetElem(i, _) => addr == AtIndex(i) && i >= 0
             case RemoveElem(i) => addr == AtIndex(i) && i >= 0
             case _ => false
    ensures PlaySteps(row, Guarded(e, p, addr) + [Put(p, EditJSON([o]), resizes)]) ==
            if Look(At(row, p.Number()), addr).Some? then Some(row[p.Number() := Edited(At(row, p.Number()), o)])
            else if e.skip then Some(row) else None
  {
    var c, put := At(row, p.Number()), Put(p, EditJSON([o]), resizes);
    PlayStepsAppend(row, Guarded(e, p, addr), [put]);
    PlayOnly(row, put);
    PlayOnly(row, Guard(Test(p, addr, Exists)));
    EditMeans(c, o);
    if Look(c, addr).None? {
      EditMisses(c, addr, o);
      assert row[p.Number() := c] == row;
    }
  }

  lemma ColumnPlays(env: Env, e: Doc.Entry, sel: Doc.Selector, row: Row)
    requires AtColumn(env, e, sel).Some?
    ensures PlayColumn(env, e, sel, row) == PlaySteps(row, AtColumn(env, e, sel).value)
  {
    var v := Resolve(env, sel.key.field);
    if v.Known? {
      if e.op.TestThat? {
        TestPlays(env, v.prop, Whole, e.op.want, row);
      } else {
        var step := AtColumn(env, e, sel).value[0];
        PutOnly(row, v.prop, step.op, step.resizes);
        EditMeans(At(row, v.prop.Number()), ClearAll);
      }
    }
  }

  lemma EdgePlays(env: Env, e: Doc.Entry, p: Prop, sel: Doc.Selector, row: Row)
    requires p.Edge? && AtEdge(env, e, p, sel).Some?
    ensures PlayEdge(env, e, p, sel, row) == PlaySteps(row, AtEdge(env, e, p, sel).value)
  {
    if e.op.TestThat? {
      TestPlays(env, p, Whole, e.op.want, row);
    } else {
      PutOnly(row, p, AtEdge(env, e, p, sel).value[0].op, false);
    }
  }

  lemma MapEntryPlays(env: Env, e: Doc.Entry, p: Prop, sel: Doc.Selector, row: Row)
    requires p.Number() in row && AtMapEntry(env, e, p, sel).Some?
    ensures PlayMapEntry(env, e, p, sel, row) == PlaySteps(row, AtMapEntry(env, e, p, sel).value)
  {
    var c := At(row, p.Number());
    if sel.EveryEntry? {
      PutOnly(row, p, EditJSON([ClearAll]), true);
      EditMeans(c, ClearAll);
    } else if e.op.TestThat? {
      TestPlays(env, p, AtKey(sel.key.key), e.op.want, row);
    } else if e.op.Assign? {
      var o := SetEntry(sel.key.key, Denote(env.types, e.op.value, p.desc, SiteMapValue).value);
      PutOnly(row, p, EditJSON([o]), false);
      EditMeans(c, o);
    } else {
      GuardedPlays(row, e, p, AtKey(sel.key.key), RemoveEntry(sel.key.key), false);
    }
  }

  lemma ListElemPlays(env: Env, e: Doc.Entry, p: Prop, sel: Doc.Selector, row: Row)
    requires p.Number() in row && AtListElem(env, e, p, sel).Some?
    ensures PlayListElem(env, e, p, sel, row) == PlaySteps(row, AtListElem(env, e, p, sel).value)
  {
    var steps := AtListElem(env, e, p, sel).value;
    if sel.Append? {
      var o := AppendElem(Denote(env.types, e.op.value, p.desc, SiteElement).value);
      PutOnly(row, p, EditJSON([o]), true);
      EditMeans(At(row, p.Number()), o);
    } else {
      var i := sel.key.index;
      if e.op.TestThat? {
        TestPlays(env, p, AtIndex(i), e.op.want, row);
      } else if e.op.Assign? {
        var o := SetElem(i, Denote(env.types, e.op.value, p.desc, SiteElement).value);
        GuardedPlays(row, e, p, AtIndex(i), o, false);
        assert steps == Guarded(e, p, AtIndex(i)) + [Put(p, EditJSON([o]), false)];
      } else {
        GuardedPlays(row, e, p, AtIndex(i), RemoveElem(i), true);
        assert steps == Guarded(e, p, AtIndex(i)) + [Put(p, EditJSON([RemoveElem(i)]), true)];
      }
    }
  }

  // ---- A document that elaborates means what its steps mean ----

  ghost predicate Covers(env: Env, row: Row) {
    env.props.Keys <= row.Keys
  }

  lemma {:induction false} DocumentPlays(env: Env, es: seq<Doc.Entry>, s: Place, depth: nat, row: Row)
    requires EnvOk(env) && PlaceOk(env, s) && Covers(env, row)
    requires Entries(env, es, s, depth).Some?
    ensures Play(env, es, s, row) == PlaySteps(row, Entries(env, es, s, depth).value)
    decreases es, 1
  {
    if es == [] {
    } else {
      var first, rest := OneEntry(env, es[0], s, depth).value, Entries(env, es[1..], s, depth).value;
      EntryPlays(env, es[0], s, depth, row);
      PlayStepsAppend(row, first, rest);
      PlayedKeys(row, first);
      var next := PlaySteps(row, first);
      if next.Some? { DocumentPlays(env, es[1..], s, depth, next.value); }
    }
  }

  lemma {:induction false} EntryPlays(env: Env, e: Doc.Entry, s: Place, depth: nat, row: Row)
    requires EnvOk(env) && PlaceOk(env, s) && Covers(env, row)
    requires OneEntry(env, e, s, depth).Some?
    ensures PlayEntry(env, e, s, row) == PlaySteps(row, OneEntry(env, e, s, depth).value)
    decreases e, 0
  {
    WalkedPlace(env, s, e.path);
    var t := Walk(env, s, e.path).value;
    if e.scope.Container? {
      assert OneEntry(env, e, s, depth) == OnContainer(env, e, t, depth);
      if e.op.Nest? {
        assert OnContainer(env, e, t, depth) == Elaborate(env, e.op.delta, t, depth + 1);
        DocumentPlays(env, e.op.delta, t, depth + 1, row);
      } else {
        var step := OnContainer(env, e, t, depth).value[0];
        var c := At(row, t.prop.Number());
        PutOnly(row, t.prop, step.op, step.resizes);
        EditMeans(c, ClearAll);
        if e.op.Insert? { AppendsExtend(c, Denote(env.types, e.op.value, t.prop.desc, SiteField).value.items); }
      }
    } else if e.op.Nest? {
      var inner := Enter(env, t, e.scope.selectors[0]).value;
      assert OneEntry(env, e, s, depth) == Elaborate(env, e.op.delta, inner, depth + 1);
      DocumentPlays(env, e.op.delta, inner, depth + 1, row);
    } else {
      SelectorsPlay(env, e, e.scope.selectors, t, {}, row);
    }
  }

  lemma {:induction false} SelectorsPlay(env: Env, e: Doc.Entry, sels: seq<Doc.Selector>, s: Place, seen: set<Ident>, row: Row)
    requires PlaceOk(env, s) && Covers(env, row)
    requires Selectors(env, e, sels, s, seen).Some?
    ensures PlaySelectors(env, e, sels, s, row) == PlaySteps(row, Selectors(env, e, sels, s, seen).value)
    decreases sels
  {
    if sels == [] {
    } else {
      var seen' := seen + {IdentOf(env, s, sels[0])};
      var first, rest := One(env, e, s, sels[0]).value, Selectors(env, e, sels[1..], s, seen').value;
      match s {
        case Root => ColumnPlays(env, e, sels[0], row);
        case InEdge(p) => EdgePlays(env, e, p, sels[0], row);
        case InMap(p) => MapEntryPlays(env, e, p, sels[0], row);
        case InList(p) => ListElemPlays(env, e, p, sels[0], row);
      }
      PlayStepsAppend(row, first, rest);
      PlayedKeys(row, first);
      var next := PlaySteps(row, first);
      if next.Some? { SelectorsPlay(env, e, sels[1..], s, seen', next.value); }
    }
  }
}
