/** From a typed PatchRequest to a document, a plan and a row (ormpatch/frompatchreq.go). */
module Requests {
  import opened Values
  import opened Literals
  import opened Schema
  import opened Layout
  import opened Plans
  import opened Rows
  import opened Elaboration
  import opened Bookkeeping
  import opened Exactness
  import Doc = Documents

  datatype RequestField = RequestField(card: Card, isBool: bool)

  /** A request message: its declared fields, the values it has, and the bool fields that are true. */
  datatype Request = Request(fields: map<int, RequestField>, values: map<int, Value>, flags: set<int>)

  // Ref to key; a lookup that may fail.
  type EdgeResolver = (Prop, Value) -> Option<Value>

  // The library's encoding of a value as a literal, which may refuse.
  type Encoder = (Value, FieldDesc) -> Option<Lit>

  /** What the library promises of its encoding: decoding undoes it. */
  ghost predicate DecodeUndoesEncode(types: Types, encode: Encoder) {
    forall v, fd :: encode(v, fd).Some? ==> Denote(types, encode(v, fd).value, fd, SiteField) == Some(v)
  }

  ghost predicate HasSpelling(types: Types, v: Value, fd: FieldDesc) {
    exists lit :: Spells(types, lit, fd, SiteField, v)
  }

  ghost function Spelling(types: Types, v: Value, fd: FieldDesc): (r: Option<Lit>)
    ensures r.Some? <==> HasSpelling(types, v, fd)
    ensures r.Some? ==> Spells(types, r.value, fd, SiteField, v)
  {
    if lit :| Spells(types, lit, fd, SiteField, v) then Some(lit) else None
  }

  /** An encoder of every value that some literal spells: messages, lists and maps at any depth. */
  ghost function SpellingEncoder(types: Types): Encoder {
    (v, fd) => Spelling(types, v, fd)
  }

  /** It keeps the promise. */
  lemma SpellingsRoundTrip(types: Types)
    ensures DecodeUndoesEncode(types, SpellingEncoder(types))
    ensures forall v, fd :: SpellingEncoder(types)(v, fd).Some? <==> HasSpelling(types, v, fd)
  {
    forall v, fd | SpellingEncoder(types)(v, fd).Some?
      ensures Denote(types, SpellingEncoder(types)(v, fd).value, fd, SiteField) == Some(v)
    {
      MaterializedFaithfully(types, Spelling(types, v, fd).value, fd, SiteField, v);
    }
  }

  const SECONDS := FieldDesc(1, "seconds", Single, ScalarKind(3), StringKind, "", false, false)
  const NANOS := FieldDesc(2, "nanos", Single, ScalarKind(5), StringKind, "", false, false)

  /** A Timestamp, such as a version field holds, has a spelling. */
  lemma TimestampIsEncoded(types: Types, fd: FieldDesc, seconds: string, nanos: string)
    requires fd.card == Single && fd.kind.MessageKind? && FieldsOf(types, fd.kind.name) == [SECONDS, NANOS]
    ensures SpellingEncoder(types)(Message(map[1 := Scalar(3, seconds), 2 := Scalar(5, nanos)]), fd).Some?
  {
    var md := [SECONDS, NANOS];
    assert DistinctDescriptors(md);
    PinnedFieldResolves(md, 0);
    PinnedFieldResolves(md, 1);
    var fields := [LitField(FieldRef(Some("seconds"), Some(1)), LScalar(3, seconds)),
                   LitField(FieldRef(Some("nanos"), Some(2)), LScalar(5, nanos))];
    var v := Message(map[1 := Scalar(3, seconds), 2 := Scalar(5, nanos)]);
    assert NumbersOf(fields, md) == {1, 2};
    assert Spells(types, LMessage(fields), fd, SiteField, v);
  }

  datatype Context = Context(e: Entity, req: Request, resolve: Option<EdgeResolver>, encode: Encoder)

  datatype Conversion = Refusal | NothingAsked | Converted(doc: Doc.Document)

  /** A repeated or map field has no presence; emptiness is the only signal. */
  predicate RequestHas(req: Request, n: int)
    requires n in req.fields
  {
    n in req.values &&
    match req.fields[n].card
    case Mapped => req.values[n].Map? && req.values[n].entries != map[]
    case Repeated => req.values[n].List? && req.values[n].items != []
    case Single => true
  }

  function ValueOf(c: Context, v: Value, fd: FieldDesc): Option<Lit> {
    match c.encode(v, fd)
    case None => None
    case Some(lit) => if CheckArm(lit, fd, SiteField) then Some(lit) else None
  }

  function PropKey(fd: FieldDesc): Doc.Key {
    Doc.FieldKey(FieldRef(Some(fd.name), Some(fd.number)))
  }

  function EntryOn(fd: FieldDesc, path: seq<Doc.Key>, op: Doc.Operation): Doc.Entry {
    Doc.Entry(path, Doc.Targets([Doc.ByKey(PropKey(fd))]), op, false)
  }

  /** The entries one prop contributes; None refuses the request. */
  function EntriesOf(c: Context, p: Prop): Option<seq<Doc.Entry>> {
    var vn, fn := ValueNumber(p), FlagNumber(p);
    if vn !in c.req.fields then None
    else if FlagOf(p) != NoFlag &&
            !(fn in c.req.fields && c.req.fields[fn].isBool && c.req.fields[fn].card == Single) then None
    else
      var flag := FlagOf(p) != NoFlag && fn in c.req.flags;
      var has := RequestHas(c.req, vn);
      if FlagOf(p) == ForceFlag then
        if flag == has then None
        else if flag then Some([])
        else Encoded(c, c.req.values[vn], p.desc, lit => EntryOn(p.desc, [], Doc.TestThat(Doc.WantValue(lit))))
      else if FlagOf(p) == NullFlag && flag then Some([EntryOn(p.desc, [], Doc.Remove)])
      else if !has then Some([])
      else if p.Edge? then
        if p.IsList() || c.resolve.None? then None
        else match c.resolve.value(p, c.req.values[vn])
             case None => None
             case Some(k) =>
               Encoded(c, k, p.target.key, lit => EntryOn(p.target.key, [PropKey(p.desc)], Doc.Assign(lit)))
      else Encoded(c, c.req.values[vn], p.desc, lit => EntryOn(p.desc, [], Doc.Assign(lit)))
  }

  function Encoded(c: Context, v: Value, fd: FieldDesc, entry: Lit -> Doc.Entry): Option<seq<Doc.Entry>> {
    match ValueOf(c, v, fd)
    case None => None
    case Some(lit) => Some([entry(lit)])
  }

  function AllEntries(c: Context, props: seq<Prop>): Option<seq<Doc.Entry>> {
    if props == [] then Some([]) else Concat(EntriesOf(c, props[0]), AllEntries(c, props[1..]))
  }

  function Concat(a: Option<seq<Doc.Entry>>, b: Option<seq<Doc.Entry>>): Option<seq<Doc.Entry>> {
    if a.Some? && b.Some? then Some(a.value + b.value) else None
  }

  method FromPatchRequest(c: Context) returns (r: Conversion)
    ensures r == match AllEntries(c, PatchProps(c.e.props))
                 case None => Refusal
                 case Some(es) => if es == [] then NothingAsked else Converted(Doc.Document(c.e.fullName, es))
  {
    var entries: seq<Doc.Entry> := [];
    var props := PatchProps(c.e.props);
    ghost var all := AllEntries(c, props);
    assert all == Concat(Some(entries), AllEntries(c, props[0..])) by {
      assert props[0..] == props;
      if all.Some? { assert [] + all.value == all.value; }
    }
    for i := 0 to |props|
      invariant all == Concat(Some(entries), AllEntries(c, props[i..]))
    {
      ghost var before, rest := entries, AllEntries(c, props[i + 1..]);
      assert props[i..][0] == props[i] && props[i..][1..] == props[i + 1..];
      var part := FromProp(c, props[i]);
      if part.None? {
        return Refusal;
      }
      entries := entries + part.value;
      if rest.Some? { assert before + (part.value + rest.value) == entries + rest.value; }
    }
    assert entries + [] == entries;
    r := if entries == [] then NothingAsked else Converted(Doc.Document(c.e.fullName, entries));
  }

  /** The loop's body: what one prop's request fields say. */
  method FromProp(c: Context, p: Prop) returns (r: Option<seq<Doc.Entry>>)
    ensures r == EntriesOf(c, p)
  {
    var vn, fn := ValueNumber(p), FlagNumber(p);
    if vn !in c.req.fields {
      return None;
    }
    var flag := false;
    if FlagOf(p) != NoFlag {
      if fn !in c.req.fields || !c.req.fields[fn].isBool || c.req.fields[fn].card != Single {
        return None;
      }
      flag := fn in c.req.flags;
    }
    var has := RequestHas(c.req, vn);
    match FlagOf(p) {
      case ForceFlag =>
        if !flag && !has {
          return None;
        }
        if !flag {
          var lit := ValueOf(c, c.req.values[vn], p.desc);
          if lit.None? {
            return None;
          }
          return Some([EntryOn(p.desc, [], Doc.TestThat(Doc.WantValue(lit.value)))]);
        }
        if has {
          return None;
        }
        return Some([]);
      case NullFlag =>
        if flag {
          return Some([EntryOn(p.desc, [], Doc.Remove)]);
        }
      case NoFlag =>
    }
    if !has {
      return Some([]);
    }
    if p.Edge? {
      if p.IsList() || c.resolve.None? {
        return None;
      }
      var k := c.resolve.value(p, c.req.values[vn]);
      if k.None? {
        return None;
      }
      var lit := ValueOf(c, k.value, p.target.key);
      if lit.None? {
        return None;
      }
      return Some([EntryOn(p.target.key, [PropKey(p.desc)], Doc.Assign(lit.value))]);
    }
    var lit := ValueOf(c, c.req.values[vn], p.desc);
    if lit.None? {
      return None;
    }
    r := Some([EntryOn(p.desc, [], Doc.Assign(lit.value))]);
  }

  // ---- What the request asks, said of columns ----

  datatype Intent = Leave | Assert(value: Value) | Store(op: Op)

  /** The request sets the prop: a list or map with something in it, or a singular value that is there. */
  predicate Sets(c: Context, p: Prop) {
    var n := ValueNumber(p);
    n in c.req.values && n in c.req.fields &&
    match (c.req.fields[n].card, c.req.values[n])
    case (Single, _) => true
    case (Repeated, List(items)) => |items| > 0
    case (Mapped, Map(entries)) => |entries| > 0
    case (_, _) => false
  }

  /** The companion wins over a value; the version is asserted unless forced, and never stored. */
  function IntentOf(c: Context, p: Prop): Intent
    requires EntriesOf(c, p).Some?
  {
    var v := if Sets(c, p) then Some(c.req.values[ValueNumber(p)]) else None;
    var flagged := FlagNumber(p) in c.req.flags;
    if p.IsVersion() then if flagged then Leave else Assert(v.value)
    else if p.IsNullable() && flagged then Store(if p.Edge? then ClearEdge else ClearColumn)
    else match v
         case None => Leave
         case Some(x) => Store(if p.Edge? then SetEdge(c.resolve.value(p, x).value) else SetColumn(x))
  }

  function IntentSteps(p: Prop, i: Intent): seq<Step> {
    match i
    case Leave => []
    case Assert(v) => [Check(Test(p, Whole, IsEqual(v)))]
    case Store(op) => [Step.Put(p, op, false)]
  }

  ghost predicate Convertible(c: Context, props: seq<Prop>) {
    forall p <- props :: EntriesOf(c, p).Some?
  }

  predicate Encodable(c: Context, v: Value, fd: FieldDesc) {
    var lit := c.encode(v, fd);
    lit.Some? && CheckArm(lit.value, fd, SiteField)
  }

  /** The request's message has the fields the prop's slots are, as the layout has them. */
  predicate SlotsThere(c: Context, p: Prop) {
    var fn := FlagNumber(p);
    && ValueNumber(p) in c.req.fields
    && (p.IsVersion() || p.IsNullable() ==> fn in c.req.fields && c.req.fields[fn] == RequestField(Single, true))
  }

  /**
   What the request may say of the prop: a version is given or forced, not both; a null
   needs no value; a set edge is singular and its resolver finds a key; and what is to
   be written or tested can be encoded.
   */
  predicate Askable(c: Context, p: Prop) {
    SlotsThere(c, p) &&
    var flagged := FlagNumber(p) in c.req.flags;
    if p.IsVersion() then flagged != Sets(c, p) && (!flagged ==> Encodable(c, c.req.values[ValueNumber(p)], p.desc))
    else if (p.IsNullable() && flagged) || !Sets(c, p) then true
    else
      var v := c.req.values[ValueNumber(p)];
      if p.Field? then Encodable(c, v, p.desc)
      else
        p.desc.card != Repeated && c.resolve.Some? &&
        var k := c.resolve.value(p, v);
        k.Some? && Encodable(c, k.value, p.target.key)
  }

  lemma AskableExactly(c: Context, p: Prop)
    ensures EntriesOf(c, p).Some? <==> Askable(c, p)
  {
  }

  /** A request is refused if and only if some prop of it may not be asked so. */
  lemma ConvertsExactly(c: Context)
    ensures AllEntries(c, PatchProps(c.e.props)).Some? <==> forall p <- PatchProps(c.e.props) :: Askable(c, p)
  {
    hide EntriesOf, Askable;
    ConvertibleProps(c, PatchProps(c.e.props));
    forall p <- PatchProps(c.e.props) ensures EntriesOf(c, p).Some? <==> Askable(c, p) {
      AskableExactly(c, p);
    }
  }

  lemma {:induction false} NothingAskedOf(c: Context, props: seq<Prop>)
    requires Convertible(c, props)
    ensures AllEntries(c, props) == Some([]) <==> forall p <- props :: IntentOf(c, p) == Leave
  {
    if props == [] {
    } else {
      hide EntriesOf, IntentOf;
      NothingAskedOf(c, props[1..]);
      ConvertibleProps(c, props[1..]);
      EmptyMeansLeave(c, props[0]);
      assert forall p :: p in props <==> p == props[0] || p in props[1..];
      var first, rest := EntriesOf(c, props[0]).value, AllEntries(c, props[1..]).value;
      assert AllEntries(c, props) == Some(first + rest);
      assert first + rest == [] <==> first == [] && rest == [];
      assert (forall p <- props :: IntentOf(c, p) == Leave) <==>
             IntentOf(c, props[0]) == Leave && forall p <- props[1..] :: IntentOf(c, p) == Leave;
    }
  }

  lemma EmptyMeansLeave(c: Context, p: Prop)
    requires EntriesOf(c, p).Some?
    ensures EntriesOf(c, p) == Some([]) <==> IntentOf(c, p) == Leave
  {
  }

  /** A request that converts gives no document if and only if it sets nothing, nulls nothing and forces its version. */
  lemma NothingAskedExactly(c: Context)
    requires Convertible(c, PatchProps(c.e.props))
    ensures AllEntries(c, PatchProps(c.e.props)) == Some([]) <==>
            forall p <- PatchProps(c.e.props) ::
              if p.IsVersion() then FlagNumber(p) in c.req.flags
              else !Sets(c, p) && !(p.IsNullable() && FlagNumber(p) in c.req.flags)
  {
    NothingAskedOf(c, PatchProps(c.e.props));
  }

  lemma {:induction false} ConvertibleProps(c: Context, props: seq<Prop>)
    ensures AllEntries(c, props).Some? <==> Convertible(c, props)
  {
    if props == [] {
    } else {
      ConvertibleProps(c, props[1..]);
      assert forall p :: p in props <==> p == props[0] || p in props[1..];
    }
  }

  // One prop and what is asked of it.
  datatype Ask = Ask(prop: Prop, intent: Intent)

  function Asks(c: Context, props: seq<Prop>): (r: seq<Ask>)
    requires forall p <- props :: EntriesOf(c, p).Some?
    ensures |r| == |props| && forall i | 0 <= i < |props| :: r[i] == Ask(props[i], IntentOf(c, props[i]))
  {
    if props == [] then [] else [Ask(props[0], IntentOf(c, props[0]))] + Asks(c, props[1..])
  }

  function AskedTests(asks: seq<Ask>): seq<Test> {
    if asks == [] then []
    else (if asks[0].intent.Assert? then [Test(asks[0].prop, Whole, IsEqual(asks[0].intent.value))] else [])
         + AskedTests(asks[1..])
  }

  function AskedWrites(asks: seq<Ask>): seq<Write> {
    if asks == [] then []
    else (if asks[0].intent.Store? then [Write(asks[0].prop, asks[0].intent.op)] else []) + AskedWrites(asks[1..])
  }

  /** Every value asked for fits its column's type: a UUID has sixteen bytes. */
  ghost predicate ValuesFit(c: Context, props: seq<Prop>) {
    forall p <- props :: EntriesOf(c, p).Some? ==> IntentFits(p, IntentOf(c, p))
  }

  predicate IntentFits(p: Prop, i: Intent) {
    match i
    case Leave => true
    case Assert(v) => ValueFits(p, v)
    case Store(op) => OpValuesFit(p, op)
  }

  /** A version field is a singular time; an edge's key is a declared field of its target. */
  ghost predicate SchemaOk(e: Entity) {
    && WellFormed(e)
    && (forall p <- e.props :: p.IsVersion() ==> p.Type() == TypeTime && p.desc.card == Single)
    && (forall p <- e.props :: p.Edge? ==> p.target.key in p.target.fields && DistinctDescriptors(p.target.fields))
  }

  lemma OwnColumn(c: Context, types: Types, p: Prop)
    requires SchemaOk(c.e) && p in c.e.props
    ensures Resolve(NewEnv(c.e, types), PropKey(p.desc).field) == Known(p)
    ensures p.Edge? ==> ResolveField(p.target.fields, PropKey(p.target.key).field) == Found(p.target.key)
  {
    PinnedPropResolves(c.e, types, p);
    if p.Edge? {
      var j :| 0 <= j < |p.target.fields| && p.target.fields[j] == p.target.key;
      PinnedFieldResolves(p.target.fields, j);
    }
  }

  lemma OneTarget(env: Env, e: Doc.Entry, path: seq<Doc.Key>, fd: FieldDesc, t: Place)
    requires e == EntryOn(fd, path, e.op) && Walk(env, Root, path) == Some(t)
    requires e.op.Assign? || e.op.Remove? || e.op.TestThat?
    ensures OneEntry(env, e, Root, 0) == One(env, e, t, Doc.ByKey(PropKey(fd)))
  {
    var sels := e.scope.selectors;
    assert sels[1..] == [];
    var only := One(env, e, t, sels[0]);
    assert Selectors(env, e, sels, t, {}) == Join(only, Some([]));
    if only.Some? { assert only.value + [] == only.value; }
    assert OneEntry(env, e, Root, 0) == OnTargets(env, e, sels, t, 0);
  }

  // Where a prop's entry lands, and on what field.
  function PlaceOfEntry(p: Prop, e: Doc.Entry): Place {
    if e.path == [] then Root else InEdge(p)
  }

  function KeyOfEntry(p: Prop, e: Doc.Entry): FieldDesc {
    if e.path == [] || !p.Edge? then p.desc else p.target.key
  }

  lemma EntryLands(c: Context, types: Types, p: Prop)
    requires SchemaOk(c.e) && p in c.e.props && EntriesOf(c, p).Some? && EntriesOf(c, p).value != []
    ensures var env, e := NewEnv(c.e, types), EntriesOf(c, p).value[0];
            && EntriesOf(c, p).value == [e]
            && OneEntry(env, e, Root, 0) == One(env, e, PlaceOfEntry(p, e), Doc.ByKey(PropKey(KeyOfEntry(p, e))))
  {
    var env, e := NewEnv(c.e, types), EntriesOf(c, p).value[0];
    OwnColumn(c, types, p);
    if e.path == [] {
      assert Walk(env, Root, []) == Some(Root);
      OneTarget(env, e, [], p.desc, Root);
    } else {
      var path := [PropKey(p.desc)];
      assert path[1..] == [];
      assert Walk(env, Root, path) == Some(InEdge(p)) by {
        assert Follow(env, Root, path[0]) == Some(InEdge(p));
      }
      OneTarget(env, e, path, p.target.key, InEdge(p));
    }
  }

  lemma LandedMeansIntent(c: Context, types: Types, p: Prop)
    requires SchemaOk(c.e) && p in c.e.props && !p.IsImmutable()
    requires DecodeUndoesEncode(types, c.encode) && EntriesOf(c, p).Some?
    ensures EntriesOf(c, p).value == [] ==> IntentOf(c, p) == Leave
    ensures EntriesOf(c, p).value != [] ==>
              var env, e := NewEnv(c.e, types), EntriesOf(c, p).value[0];
              One(env, e, PlaceOfEntry(p, e), Doc.ByKey(PropKey(KeyOfEntry(p, e)))) == Some(IntentSteps(p, IntentOf(c, p)))
  {
    hide ResolveField;
    OwnColumn(c, types, p);
  }

  /** A prop's entry means its intent. */
  lemma EntryMeansIntent(c: Context, types: Types, p: Prop)
    requires SchemaOk(c.e) && p in c.e.props && !p.IsImmutable()
    requires DecodeUndoesEncode(types, c.encode) && EntriesOf(c, p).Some?
    ensures Entries(NewEnv(c.e, types), EntriesOf(c, p).value, Root, 0) == Some(IntentSteps(p, IntentOf(c, p)))
  {
    hide EntriesOf, IntentOf, One, OneEntry;
    var env, es, steps := NewEnv(c.e, types), EntriesOf(c, p).value, IntentSteps(p, IntentOf(c, p));
    LandedMeansIntent(c, types, p);
    if es == [] {
    } else {
      EntryLands(c, types, p);
      assert es[1..] == [] && steps + [] == steps;
      assert Entries(env, es, Root, 0) == Join(OneEntry(env, es[0], Root, 0), Some([]));
    }
  }

  // ---- The compiled request ----

  function AllSteps(asks: seq<Ask>): seq<Step> {
    if asks == [] then [] else IntentSteps(asks[0].prop, asks[0].intent) + AllSteps(asks[1..])
  }

  ghost predicate Requestable(e: Entity, props: seq<Prop>) {
    forall p <- props :: p in e.props && !p.IsImmutable()
  }

  lemma {:induction false} RequestElaborates(c: Context, types: Types, props: seq<Prop>)
    requires SchemaOk(c.e) && Requestable(c.e, props) && DecodeUndoesEncode(types, c.encode)
    requires Convertible(c, props)
    ensures AllEntries(c, props).Some?
    ensures Entries(NewEnv(c.e, types), AllEntries(c, props).value, Root, 0) == Some(AllSteps(Asks(c, props)))
  {
    hide EntriesOf, IntentOf;
    ConvertibleProps(c, props);
    if props == [] {
    } else {
      EntryMeansIntent(c, types, props[0]);
      ConvertibleProps(c, props[1..]);
      RequestElaborates(c, types, props[1..]);
      EntriesAppend(NewEnv(c.e, types), EntriesOf(c, props[0]).value, AllEntries(c, props[1..]).value);
    }
  }

  /** Distinct columns, none written so far, and values that fit them. */
  ghost predicate Clear(st: State, asks: seq<Ask>) {
    && (forall a <- asks :: a.prop.Number() !in st.wrote && IntentFits(a.prop, a.intent))
    && forall i, j | 0 <= i < j < |asks| :: asks[i].prop.Number() != asks[j].prop.Number()
  }

  lemma OrderedWritesGrow(order: seq<Num>, writes: map<Num, Write>, n: Num, w: Write)
    requires (forall m <- order :: m in writes) && n !in writes
    ensures WritesInOrder(order + [n], writes[n := w]) == WritesInOrder(order, writes) + [w]
  {
    WritesInOrderAt(order, writes);
    WritesInOrderAt(order, writes[n := w]);
    assert (order + [n])[..|order|] == order;
    assert WritesInOrder(order, writes[n := w]) == WritesInOrder(order, writes);
  }

  function Extended(plan: Plan, asks: seq<Ask>): Plan {
    Plan(plan.tests + AskedTests(asks), plan.writes + AskedWrites(asks))
  }

  lemma ExtendedCons(plan: Plan, asks: seq<Ask>)
    requires asks != []
    ensures Extended(Extended(plan, [asks[0]]), asks[1..]) == Extended(plan, asks)
  {
    assert [asks[0]][1..] == [];
    assert AskedTests(asks) == AskedTests([asks[0]]) + AskedTests(asks[1..]);
    assert AskedWrites(asks) == AskedWrites([asks[0]]) + AskedWrites(asks[1..]);
  }

  lemma ExtendedOne(plan: Plan, a: Ask)
    ensures Extended(plan, [a]) == match a.intent
                                   case Leave => plan
                                   case Assert(v) => plan.(tests := plan.tests + [Test(a.prop, Whole, IsEqual(v))])
                                   case Store(op) => plan.(writes := plan.writes + [Write(a.prop, op)])
  {
    assert [a][1..] == [];
    assert AskedTests([a]) == (if a.intent.Assert? then [Test(a.prop, Whole, IsEqual(a.intent.value))] else []);
    assert AskedWrites([a]) == (if a.intent.Store? then [Write(a.prop, a.intent.op)] else []);
    assert plan.tests + [] == plan.tests && plan.writes + [] == plan.writes;
  }

  lemma IntentRuns(st: State, a: Ask)
    requires IntentFits(a.prop, a.intent) && Consistent(st) && a.prop.Number() !in st.wrote
    ensures Run(st, IntentSteps(a.prop, a.intent)).Some?
    ensures var next := Run(st, IntentSteps(a.prop, a.intent)).value;
            && Consistent(next) && next.wrote <= st.wrote + {a.prop.Number()}
            && PlanOf(next) == Extended(PlanOf(st), [a])
  {
    hide Extended;
    ExtendedOne(PlanOf(st), a);
    match a.intent {
      case Leave =>
      case Assert(v) =>
        var step := Check(Test(a.prop, Whole, IsEqual(v)));
        RunOne(st, step);
        ExecConsistent(st, step);
      case Store(op) =>
        var step := Step.Put(a.prop, op, false);
        RunOne(st, step);
        ExecConsistent(st, step);
        OrderedWritesGrow(st.order, st.writes, a.prop.Number(), Write(a.prop, op));
    }
  }

  lemma {:induction false} RequestRuns(st: State, asks: seq<Ask>)
    requires Consistent(st) && Clear(st, asks)
    ensures Run(st, AllSteps(asks)).Some?
    ensures var done := Run(st, AllSteps(asks)).value;
            Consistent(done) && PlanOf(done) == Extended(PlanOf(st), asks)
    decreases asks
  {
    if asks == [] {
      assert Extended(PlanOf(st), []) == PlanOf(st);
    } else {
      var a, rest := asks[0], asks[1..];
      IntentRuns(st, a);
      RunAppend(st, IntentSteps(a.prop, a.intent), AllSteps(rest));
      var next := Run(st, IntentSteps(a.prop, a.intent)).value;
      assert forall b <- rest :: b in asks && b.prop.Number() != a.prop.Number();
      RequestRuns(next, rest);
      ExtendedCons(PlanOf(st), asks);
    }
  }

  function RequestPlan(c: Context): Plan
    requires Convertible(c, PatchProps(c.e.props))
  {
    var asks := Asks(c, PatchProps(c.e.props));
    Plan(AskedTests(asks), AskedWrites(asks))
  }

  lemma RequestStepsRun(c: Context)
    requires WellFormed(c.e) && Convertible(c, PatchProps(c.e.props)) && ValuesFit(c, PatchProps(c.e.props))
    ensures var run := Run(START, AllSteps(Asks(c, PatchProps(c.e.props))));
            && run.Some? && Consistent(run.value)
            && PlanOf(run.value) == RequestPlan(c) && OnePerColumn(RequestPlan(c).writes)
  {
    hide EntriesOf, IntentOf, IntentFits, AllSteps, Run;
    var props := PatchProps(c.e.props);
    var asks := Asks(c, props);
    StartConsistent();
    forall a <- asks ensures IntentFits(a.prop, a.intent) {
      assert a.prop in props;
    }
    RequestRuns(START, asks);
    assert Extended(PlanOf(START), asks) == RequestPlan(c);
    PlanWrites(Run(START, AllSteps(asks)).value);
  }

  /** A write that does not fit its column is refused wherever it stands. */
  lemma {:induction false} MisfitRefused(st: State, steps: seq<Step>, p: Prop, op: Op)
    requires Step.Put(p, op, false) in steps && !OpValuesFit(p, op)
    ensures Run(st, steps).None?
    decreases steps
  {
    if steps[0] == Step.Put(p, op, false) || Exec(st, steps[0]).None? {
    } else {
      MisfitRefused(Exec(st, steps[0]).value, steps[1..], p, op);
    }
  }

  lemma {:induction false} StoredIsStep(asks: seq<Ask>, a: Ask)
    requires a in asks && a.intent.Store?
    ensures Step.Put(a.prop, a.intent.op, false) in AllSteps(asks)
  {
    if asks[0] == a {
      assert AllSteps(asks)[0] == Step.Put(a.prop, a.intent.op, false);
    } else {
      StoredIsStep(asks[1..], a);
    }
  }

  // A time fits its column.
  lemma OnlyStoresMisfit(c: Context, p: Prop)
    requires SchemaOk(c.e) && p in c.e.props && EntriesOf(c, p).Some? && !IntentFits(p, IntentOf(c, p))
    ensures IntentOf(c, p).Store?
  {
    hide EntriesOf, OpValuesFit;
  }

  lemma MisfitsRefused(c: Context)
    requires SchemaOk(c.e) && Convertible(c, PatchProps(c.e.props)) && !ValuesFit(c, PatchProps(c.e.props))
    ensures Run(START, AllSteps(Asks(c, PatchProps(c.e.props)))).None?
  {
    hide EntriesOf, IntentOf, AllSteps, SchemaOk, Run, ValueFits;
    var props := PatchProps(c.e.props);
    var p :| p in props && !IntentFits(p, IntentOf(c, p));
    OnlyStoresMisfit(c, p);
    AsksOf(c, props);
    var a := Ask(p, IntentOf(c, p));
    assert a in Asks(c, props);
    StoredIsStep(Asks(c, props), a);
    MisfitRefused(START, AllSteps(Asks(c, props)), p, a.intent.op);
  }

  /** The document of a request that converts. */
  function RequestDoc(c: Context): Doc.Document
    requires Convertible(c, PatchProps(c.e.props))
  {
    ConvertibleProps(c, PatchProps(c.e.props));
    Doc.Document(c.e.fullName, AllEntries(c, PatchProps(c.e.props)).value)
  }

  /**
   A request that converts compiles if and only if its values fit their columns, and
   then to exactly what it asks: one test on the version when it is not forced, and
   one write for each prop set, cleared or repointed.
   */
  lemma RequestCompiles(c: Context, types: Types)
    requires SchemaOk(c.e) && DecodeUndoesEncode(types, c.encode) && Convertible(c, PatchProps(c.e.props))
    ensures Compiled(NewEnv(c.e, types), RequestDoc(c)).Some? <==> ValuesFit(c, PatchProps(c.e.props))
    ensures ValuesFit(c, PatchProps(c.e.props)) ==>
              CompiledPlan(c.e, types, RequestDoc(c)) == RequestPlan(c) && OnePerColumn(RequestPlan(c).writes)
  {
    hide EntriesOf, IntentOf, DecodeUndoesEncode, RequestPlan, PlanOf, AllSteps, Asks, Consistent, ValuesFit;
    RequestElaborates(c, types, PatchProps(c.e.props));
    if ValuesFit(c, PatchProps(c.e.props)) {
      RequestStepsRun(c);
    } else {
      MisfitsRefused(c);
    }
  }

  // ---- Column by column ----

  lemma {:induction false} AskedOf(asks: seq<Ask>)
    ensures forall w :: w in AskedWrites(asks) <==> Ask(w.prop, Store(w.op)) in asks
    ensures forall t :: t in AskedTests(asks) <==>
              t.addr == Whole && t.want.IsEqual? && Ask(t.prop, Assert(t.want.value)) in asks
  {
    if asks == [] {
    } else {
      AskedOf(asks[1..]);
      assert forall a :: a in asks <==> a == asks[0] || a in asks[1..];
    }
  }

  lemma AsksOf(c: Context, props: seq<Prop>)
    requires Convertible(c, props)
    ensures forall a :: a in Asks(c, props) <==> a.prop in props && a.intent == IntentOf(c, a.prop)
  {
    var asks := Asks(c, props);
    forall a: Ask | a.prop in props && a.intent == IntentOf(c, a.prop) ensures a in asks {
      var i :| 0 <= i < |props| && props[i] == a.prop;
      assert asks[i] == a;
    }
  }

  /** A converted request applies exactly when the row still holds the version it asserts. */
  lemma RequestApplies(c: Context, row: Row)
    requires Convertible(c, PatchProps(c.e.props))
    ensures Apply(row, RequestPlan(c)).Some? <==>
              forall q <- PatchProps(c.e.props) :: IntentOf(c, q).Assert? ==> At(row, q.Number()) == Some(IntentOf(c, q).value)
  {
    var props := PatchProps(c.e.props);
    var asks, ts := Asks(c, props), RequestPlan(c).tests;
    AsksOf(c, props);
    AskedOf(asks);
    if TestsHold(row, ts) {
      forall q <- props | IntentOf(c, q).Assert? ensures At(row, q.Number()) == Some(IntentOf(c, q).value) {
        assert Ask(q, IntentOf(c, q)) in asks;
        assert Holds(row, Test(q, Whole, IsEqual(IntentOf(c, q).value)));
      }
    }
  }

  /** The plan writes a prop exactly when it is asked to store one, and as asked. */
  lemma RequestWrites(c: Context, p: Prop)
    requires WellFormed(c.e) && p in c.e.props && Convertible(c, PatchProps(c.e.props))
    ensures if p in PatchProps(c.e.props) && IntentOf(c, p).Store? then Write(p, IntentOf(c, p).op) in RequestPlan(c).writes
            else !RequestPlan(c).Writes(p.Number())
  {
    hide EntriesOf, IntentOf, Asks, AskedWrites, AskedTests;
    var props := PatchProps(c.e.props);
    var asks := Asks(c, props);
    AsksOf(c, props);
    AskedOf(asks);
    assert RequestPlan(c).writes == AskedWrites(asks);
    if p in props && IntentOf(c, p).Store? {
      assert Ask(p, Store(IntentOf(c, p).op)) in asks;
      assert Write(p, IntentOf(c, p).op).prop == p;
    } else {
      forall w <- RequestPlan(c).writes ensures w.prop.Number() != p.Number() {
        assert Ask(w.prop, Store(w.op)) in asks;
      }
    }
  }

  /**
   What the request leaves of a column: a version as it was, NULL where the prop is
   nulled whatever else was given, the value set or the key its edge resolves to, and
   otherwise what was there.
   */
  function Asked(c: Context, p: Prop, was: Cell): Cell {
    if p.IsVersion() then was
    else if p.IsNullable() && FlagNumber(p) in c.req.flags then None
    else if !Sets(c, p) then was
    else
      var v := c.req.values[ValueNumber(p)];
      if p.Field? then Some(v) else if c.resolve.Some? then c.resolve.value(p, v) else was
  }

  lemma IntentMeans(c: Context, p: Prop, was: Cell)
    requires EntriesOf(c, p).Some?
    ensures (if IntentOf(c, p).Store? then ApplyOp(was, IntentOf(c, p).op) else was) == Asked(c, p, was)
  {
    AskableExactly(c, p);
  }

  /** And then every patchable prop is left as asked, and every other column as it was. */
  lemma RequestLeaves(c: Context, types: Types, row: Row, p: Prop)
    requires SchemaOk(c.e) && DecodeUndoesEncode(types, c.encode) && p in c.e.props
    requires Convertible(c, PatchProps(c.e.props)) && ValuesFit(c, PatchProps(c.e.props))
    requires Apply(row, RequestPlan(c)).Some?
    ensures At(Apply(row, RequestPlan(c)).value, p.Number()) ==
              if p.IsImmutable() || p.IsErased() then At(row, p.Number()) else Asked(c, p, At(row, p.Number()))
  {
    hide EntriesOf, IntentOf, DecodeUndoesEncode, RequestPlan, RequestDoc, CompiledPlan, Asked;
    RequestCompiles(c, types);
    RequestWrites(c, p);
    if p in PatchProps(c.e.props) { IntentMeans(c, p, At(row, p.Number())); }
    AppliedColumn(row, RequestPlan(c).writes, p.Number());
  }
}
