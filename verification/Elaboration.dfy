/**
 What a document asks of a row, entry by entry, as a flat list of steps.

 This is the part of compiling that needs no memory of earlier entries: paths
 and selectors are resolved, literals become values, and the schema's own
 refusals are made. It specifies the compiler together with module Bookkeeping.
 */
module Elaboration {
  import opened Values
  import opened Literals
  import opened Schema
  import opened Plans
  import Doc = Documents

  predicate NamesElem(o: JSONOp) {
    o.SetElem? || o.RemoveElem?
  }

  datatype Step =
    | Check(test: Test)            // a test the author wrote
    | Guard(test: Test)            // an existence test that stands for a miss
    | Put(column: Prop, op: Op, resizes: bool)
  {
    function Prop(): Prop { if Put? then column else test.prop }

    /** Whether the step names a position in a list. */
    predicate NamesIndex() {
      if Put? then op.EditJSON? && exists o <- op.ops :: NamesElem(o) else test.addr.AtIndex?
    }
  }

  predicate OnProps(env: Env, p: Prop) {
    p.Number() in env.props && env.props[p.Number()] == p
  }

  datatype Place = Root | InEdge(prop: Prop) | InMap(prop: Prop) | InList(prop: Prop)

  const MAX_NEST := 64
  const MAX_LIST_INDEX := 0x7fff_ffff

  datatype Env = Env(entity: Entity, types: Types, props: map<Num, Prop>)

  function NewEnv(e: Entity, types: Types): Env {
    Env(e, types, ByNumber(e.props))
  }

  function ByNumber(props: seq<Prop>): map<Num, Prop> {
    if props == [] then map[]
    else ByNumber(props[..|props| - 1])[props[|props| - 1].Number() := props[|props| - 1]]
  }

  /** Every prop is filed under its own number. */
  lemma {:induction false} ByNumberFiles(props: seq<Prop>)
    ensures forall n <- ByNumber(props) :: ByNumber(props)[n].Number() == n && ByNumber(props)[n] in props
    ensures forall p <- props :: p.Number() in ByNumber(props)
    ensures DistinctProps(props) ==> forall p <- props :: ByNumber(props)[p.Number()] == p
  {
    if props == [] {
    } else {
      ByNumberFiles(props[..|props| - 1]);
    }
  }

  datatype Column = Known(prop: Prop) | NoField | Refused

  /** A declared field without a column is refused, which is not the same as vacant. */
  function Resolve(env: Env, ref: FieldRef): Column {
    match ResolveField(env.entity.declared, ref)
    case Conflict => Refused
    case Vacant => NoField
    case Found(fd) => if fd.number in env.props then Known(env.props[fd.number]) else Refused
  }

  /** Pinned to its own name and number, a prop resolves to itself. */
  lemma PinnedPropResolves(e: Entity, types: Types, p: Prop)
    requires WellFormed(e) && p in e.props
    ensures Resolve(NewEnv(e, types), FieldRef(Some(p.Name()), Some(p.Number()))) == Known(p)
  {
    ByNumberFiles(e.props);
    var i :| 0 <= i < |e.declared| && e.declared[i] == p.desc;
    PinnedFieldResolves(e.declared, i);
  }

  // ---- Addressing ----

  function PlaceOf(p: Prop): Option<Place> {
    if p.IsMap() then Some(InMap(p))
    else if p.IsList() then Some(InList(p))
    else if p.Edge? then Some(InEdge(p))
    else None
  }

  /** One segment can be followed, and only from the root. */
  function Walk(env: Env, s: Place, segs: seq<Doc.Key>): Option<Place>
    decreases segs
  {
    if segs == [] then Some(s)
    else match Follow(env, s, segs[0])
         case None => None
         case Some(t) => Walk(env, t, segs[1..])
  }

  function Follow(env: Env, s: Place, seg: Doc.Key): Option<Place> {
    if !s.Root? || !seg.FieldKey? then None
    else match Resolve(env, seg.field)
         case Known(p) => PlaceOf(p)
         case _ => None
  }

  function Enter(env: Env, s: Place, sel: Doc.Selector): Option<Place> {
    if sel.ByKey? then Follow(env, s, sel.key) else None
  }

  ghost predicate EnvOk(env: Env) {
    forall n <- env.props :: env.props[n].Number() == n
  }

  lemma NewEnvOk(e: Entity, types: Types)
    ensures EnvOk(NewEnv(e, types))
  {
    ByNumberFiles(e.props);
  }

  /** A place holds a prop of the entity, of the place's own kind. */
  predicate PlaceOk(env: Env, s: Place) {
    match s
    case Root => true
    case InEdge(p) => OnProps(env, p) && p.Edge? && !p.IsCollection()
    case InMap(p) => OnProps(env, p) && p.IsMap()
    case InList(p) => OnProps(env, p) && p.IsList() && !p.IsMap()
  }

  lemma {:induction false} WalkedPlace(env: Env, s: Place, segs: seq<Doc.Key>)
    requires EnvOk(env) && PlaceOk(env, s)
    ensures Walk(env, s, segs).Some? ==> PlaceOk(env, Walk(env, s, segs).value)
    decreases segs
  {
    if segs == [] || Follow(env, s, segs[0]).None? {
    } else {
      WalkedPlace(env, Follow(env, s, segs[0]).value, segs[1..]);
    }
  }

  datatype Ident = Blank | FieldIdent(n: Num) | EveryIdent | KeyIdent(k: MapKey) | AppendIdent | IndexIdent(i: int)

  function IdentOf(env: Env, s: Place, sel: Doc.Selector): Ident {
    match s
    case InMap(p) =>
      if sel.EveryEntry? then EveryIdent
      else if sel.ByKey? && sel.key.MapEntryKey? && MapKeyFor(sel.key.key, p.desc).Some? then KeyIdent(sel.key.key)
      else Blank
    case InList(_) =>
      if sel.Append? then AppendIdent
      else if sel.ByKey? && sel.key.IndexKey? then IndexIdent(sel.key.index)
      else Blank
    case _ =>
      if sel.ByKey? && sel.key.FieldKey? then
        match Resolve(env, sel.key.field)
        case Known(p) => FieldIdent(p.Number())
        case _ => Blank
      else Blank
  }

  // ---- Entries ----

  function Elaborate(env: Env, es: seq<Doc.Entry>, s: Place, depth: nat): Option<seq<Step>>
    decreases es, 2
  {
    if depth > MAX_NEST then None else Entries(env, es, s, depth)
  }

  function Entries(env: Env, es: seq<Doc.Entry>, s: Place, depth: nat): Option<seq<Step>>
    decreases es, 1
  {
    if es == [] then Some([]) else Join(OneEntry(env, es[0], s, depth), Entries(env, es[1..], s, depth))
  }

  function Join(a: Option<seq<Step>>, b: Option<seq<Step>>): Option<seq<Step>> {
    if a.Some? && b.Some? then Some(a.value + b.value) else None
  }

  lemma {:induction false} EntriesAppend(env: Env, a: seq<Doc.Entry>, b: seq<Doc.Entry>)
    ensures Entries(env, a + b, Root, 0) == Join(Entries(env, a, Root, 0), Entries(env, b, Root, 0))
    decreases a
  {
    if a == [] {
      assert a + b == b;
      var rest := Entries(env, b, Root, 0);
      if rest.Some? { assert [] + rest.value == rest.value; }
    } else {
      assert (a + b)[0] == a[0] && (a + b)[1..] == a[1..] + b;
      EntriesAppend(env, a[1..], b);
      var x, y, z := OneEntry(env, a[0], Root, 0), Entries(env, a[1..], Root, 0), Entries(env, b, Root, 0);
      if x.Some? && y.Some? && z.Some? { assert x.value + (y.value + z.value) == (x.value + y.value) + z.value; }
    }
  }

  function OneEntry(env: Env, e: Doc.Entry, s: Place, depth: nat): Option<seq<Step>>
    decreases e, 1
  {
    match Walk(env, s, e.path)
    case None => None
    case Some(t) =>
      match e.scope
      case Container => OnContainer(env, e, t, depth)
      case Targets(sels) => OnTargets(env, e, sels, t, depth)
      case UnsetScope => None
  }

  function OnContainer(env: Env, e: Doc.Entry, s: Place, depth: nat): Option<seq<Step>>
    decreases e, 0
  {
    if s.Root? || s.InEdge? then None else
    match e.op
    case Remove => Some([Put(s.prop, EditJSON([ClearAll]), true)])
    case Assign(lit) =>
      (match Denote(env.types, lit, s.prop.desc, SiteField)
       case None => None
       case Some(v) => Some([Put(s.prop, SetColumn(v), false)]))
    case Insert(lit) =>
      if !s.InList? then None else
      (match Denote(env.types, lit, s.prop.desc, SiteField)
       case Some(List(items)) => Some([Put(s.prop, EditJSON(Appends(items)), false)])
       case _ => None)
    case Nest(delta) => Elaborate(env, delta, s, depth + 1)
    case _ => None
  }

  function Appends(items: seq<Value>): (ops: seq<JSONOp>)
    ensures forall o <- ops :: o.AppendElem?
  {
    if items == [] then [] else Appends(items[..|items| - 1]) + [AppendElem(items[|items| - 1])]
  }

  function OnTargets(env: Env, e: Doc.Entry, sels: seq<Doc.Selector>, s: Place, depth: nat): Option<seq<Step>>
    decreases e, 0
  {
    match e.op
    case Move => None
    case Copy => None
    case Nest(delta) =>
      if |sels| != 1 then None else
      (match Enter(env, s, sels[0])
       case None => None
       case Some(inner) => Elaborate(env, delta, inner, depth + 1))
    case _ => Selectors(env, e, sels, s, {})
  }

  function Selectors(env: Env, e: Doc.Entry, sels: seq<Doc.Selector>, s: Place, seen: set<Ident>): Option<seq<Step>> {
    if sels == [] then Some([]) else
    var id := IdentOf(env, s, sels[0]);
    if id in seen then None
    else Join(One(env, e, s, sels[0]), Selectors(env, e, sels[1..], s, seen + {id}))
  }

  function One(env: Env, e: Doc.Entry, s: Place, sel: Doc.Selector): Option<seq<Step>> {
    match s
    case Root => AtColumn(env, e, sel)
    case InEdge(p) => if p.Edge? then AtEdge(env, e, p, sel) else None
    case InMap(p) => AtMapEntry(env, e, p, sel)
    case InList(p) => AtListElem(env, e, p, sel)
  }

  // ---- Targets ----

  predicate Mutable(p: Prop) {
    !p.IsImmutable() && !p.IsVersion()
  }

  function PutValue(p: Prop, v: Option<Value>, op: Value -> Op): Option<seq<Step>> {
    match v
    case None => None
    case Some(x) => Some([Put(p, op(x), false)])
  }

  function AtColumn(env: Env, e: Doc.Entry, sel: Doc.Selector): Option<seq<Step>> {
    if !sel.ByKey? || !sel.key.FieldKey? then None else
    match Resolve(env, sel.key.field)
    case Refused => None
    case NoField =>
      if e.op.TestThat? then (if e.op.want == Doc.WantExists(false) then Some([]) else None)
      else if e.skip then Some([])
      else None
    case Known(p) =>
      match e.op
      case TestThat(want) => Tested(env, p, Whole, want)
      case Remove =>
        if !Mutable(p) then None
        else if p.Edge? then (if p.IsNullable() then Some([Put(p, ClearEdge, false)]) else None)
        else if p.IsCollection() then Some([Put(p, EditJSON([ClearAll]), true)])
        else if p.IsNullable() then Some([Put(p, ClearColumn, false)])
        else None
      case Assign(lit) =>
        if !Mutable(p) || p.Edge? then None
        else PutValue(p, Denote(env.types, lit, p.desc, SiteField), v => SetColumn(v))
      case _ => None
  }

  function AtEdge(env: Env, e: Doc.Entry, p: Prop, sel: Doc.Selector): Option<seq<Step>>
    requires p.Edge?
  {
    if !sel.ByKey? || !sel.key.FieldKey? then None else
    match ResolveField(p.target.fields, sel.key.field)
    case Found(fd) =>
      if fd.number != p.target.key.number then None else
      (match e.op
       case TestThat(want) => Tested(env, p, Whole, want)
       case Assign(lit) =>
         if !Mutable(p) then None
         else PutValue(p, Denote(env.types, lit, p.target.key, SiteField), v => SetEdge(v))
       case _ => None)
    case _ => None
  }

  function AtMapEntry(env: Env, e: Doc.Entry, p: Prop, sel: Doc.Selector): Option<seq<Step>> {
    if sel.EveryEntry? then
      if e.op.Remove? && Mutable(p) then Some([Put(p, EditJSON([ClearAll]), true)]) else None
    else if !sel.ByKey? || !sel.key.MapEntryKey? then None else
    match MapKeyFor(sel.key.key, p.desc)
    case None => None
    case Some(k) =>
      match e.op
      case TestThat(want) => Tested(env, p, AtKey(k), want)
      case Assign(lit) =>
        if !Mutable(p) then None
        else PutValue(p, Denote(env.types, lit, p.desc, SiteMapValue), v => EditJSON([SetEntry(k, v)]))
      case Remove =>
        if !Mutable(p) then None
        else Some(Guarded(e, p, AtKey(k)) + [Put(p, EditJSON([RemoveEntry(k)]), false)])
      case _ => None
  }

  // A miss aborts the document unless the author asked for it to be skipped.
  function Guarded(e: Doc.Entry, p: Prop, addr: Address): seq<Step> {
    if e.skip then [] else [Guard(Test(p, addr, Exists))]
  }

  function AtListElem(env: Env, e: Doc.Entry, p: Prop, sel: Doc.Selector): Option<seq<Step>> {
    if sel.Append? then
      if !e.op.Insert? || !Mutable(p) then None else
      match Denote(env.types, e.op.value, p.desc, SiteElement)
      case None => None
      case Some(v) => Some([Put(p, EditJSON([AppendElem(v)]), true)])
    else if !sel.ByKey? || !sel.key.IndexKey? then None
    else
      var i := sel.key.index;
      if !(0 <= i <= MAX_LIST_INDEX) then None else
      match e.op
      case TestThat(want) => Tested(env, p, AtIndex(i), want)
      case Assign(lit) =>
        if !Mutable(p) then None
        else Join(Some(Guarded(e, p, AtIndex(i))),
                  PutValue(p, Denote(env.types, lit, p.desc, SiteElement), v => EditJSON([SetElem(i, v)])))
      case Remove =>
        if !Mutable(p) then None
        else Some(Guarded(e, p, AtIndex(i)) + [Put(p, EditJSON([RemoveElem(i)]), true)])
      case _ => None
  }

  predicate IsJSONColumn(p: Prop) {
    p.IsCollection() || p.Type() == TypeJson
  }

  function SiteOf(addr: Address): Site {
    match addr
    case Whole => SiteField
    case AtKey(_) => SiteMapValue
    case AtIndex(_) => SiteElement
  }

  function Tested(env: Env, p: Prop, addr: Address, want: Doc.Want): Option<seq<Step>> {
    match want
    case WantExists(b) => Some([Check(Test(p, addr, if b then Exists else Absent))])
    case WantValue(lit) =>
      if addr.Whole? && IsJSONColumn(p) then None else
      var v := if p.Edge? then Denote(env.types, lit, p.target.key, SiteField)
               else Denote(env.types, lit, p.desc, SiteOf(addr));
      if v.Some? && CheckOrmValue(p, v.value) then Some([Check(Test(p, addr, IsEqual(v.value)))]) else None
    case WantUnset => None
  }
}
