/**
 The schema parser (graph/entity.go, prop.go, graph.go): entities are declared
 before their props are parsed, so that cycles resolve; a failure takes its own
 declaration back; options of other entities change only once all has validated.
 */
module GraphParser {
  import opened Values
  import opened Schema
  import opened FieldRules
  import opened MessageChecks

  class ProtoField {
    const desc: FieldDesc
    const owner: ProtoEntity
    const given: FieldOpts   // as the option rules left them
    var opts: FieldOpts

    constructor (d: FieldDesc, e: ProtoEntity, o: FieldOpts)
      ensures desc == d && owner == e && given == o && opts == o
    {
      desc, owner, given, opts := d, e, o, o;
    }
  }

  class ProtoEdge {
    const desc: FieldDesc
    const owner: ProtoEntity
    const target: ProtoEntity
    const opts: EdgeOpts
    var unique: bool       // the one option that parsing itself may set
    var inverse: ProtoEdge?

    // The edge whose back reference made this one unique, being one end of a singular pair.
    ghost var pair: ProtoEdge?

    constructor (d: FieldDesc, e: ProtoEntity, t: ProtoEntity, o: EdgeOpts)
      ensures desc == d && owner == e && target == t && opts == o
      ensures unique == Get(o.unique) && inverse == null && pair == null
    {
      desc, owner, target, opts, unique, inverse, pair := d, e, t, o, Get(o.unique), null, null;
    }

    predicate IsRepeated() { desc.card != Single }
  }

  datatype PropRef = F(f: ProtoField) | E(e: ProtoEdge) {
    function Desc(): FieldDesc { if F? then f.desc else e.desc }
  }

  class ProtoEntity {
    const source: MessageDecl
    var key: ProtoField?
    var props: seq<PropRef>
    var indexes: seq<IndexDecl>

    constructor (m: MessageDecl)
      ensures source == m && key == null && props == [] && indexes == []
    {
      source, key, props, indexes := m, null, [], [];
    }
  }

  datatype Outcome = Failed | NotEntity | Parsed(v: ProtoEntity)

  datatype PropOutcome = PropFailed | PropDisabled | PropParsed(p: PropRef)

  // Two singular edges that will be marked one-to-one once the whole entity has validated.
  datatype Pair = Pair(inverse: ProtoEdge, edge: ProtoEdge)

  function ShapeOf(p: PropRef): Shape {
    if p.F? then Shape(p.f.desc, AsField(p.f.given)) else Shape(p.e.desc, AsEdge(p.e.opts))
  }

  function Shapes(props: seq<PropRef>): seq<Shape> {
    seq(|props|, i requires 0 <= i < |props| => ShapeOf(props[i]))
  }

  lemma ShapesGrow(props: seq<PropRef>, p: PropRef)
    ensures Shapes(props + [p]) == Shapes(props) + [ShapeOf(p)]
  {
  }

  // ---- A finished entity ----

  /** One end of a singular back-referenced pair, the one that names the other. */
  ghost predicate IsPair(c: ProtoEdge)
    reads c`inverse
  {
    c.opts.from.Some? && c.inverse != null && !c.IsRepeated() && !c.inverse.IsRepeated()
  }

  ghost predicate EndOf(ed: ProtoEdge, c: ProtoEdge)
    reads c`inverse
  {
    IsPair(c) && (c == ed || c.inverse == ed)
  }

  /**
   An edge is unique exactly when it was declared so, or is one end of a singular
   back-referenced pair that was marked one-to-one.
   */
  ghost predicate Marked(edges: set<ProtoEdge>)
    reads edges
  {
    forall ed <- edges ::
      && (ed.unique <==> Get(ed.opts.unique) || ed.pair != null)
      && (ed.pair != null ==> ed.pair in edges && EndOf(ed, ed.pair))
  }

  /** The objects made so far belong to one another. */
  ghost predicate Belong(all: set<ProtoEntity>, fields: set<ProtoField>, edges: set<ProtoEdge>)
    reads all, fields, edges
  {
    && (forall e <- all, p <- e.props ::
          if p.F? then p.f in fields && p.f.owner == e else p.e in edges && p.e.owner == e)
    && (forall f <- fields :: f.owner in all && (f.owner.key != f ==> f.opts == f.given))
    && (forall ed <- edges :: ed.target in all && ed.owner in all && EdgeOk(ed.desc, ed.opts))
    && (forall ed <- edges :: ed.desc.kind == MessageKind(ed.target.source.name))
    && (forall ed <- edges :: ed.inverse != null ==> ed.inverse in edges && E(ed.inverse) in ed.inverse.owner.props)
    && (forall ed <- edges :: ed.pair != null ==> ed.pair in edges && E(ed.pair) in ed.pair.owner.props)
  }

  lemma BelongWith(all: set<ProtoEntity>, fields: set<ProtoField>, edges: set<ProtoEdge>, e: ProtoEdge)
    requires Belong(all, fields, edges) && Marked(edges) && e !in edges && e.target in all && e.owner in all
    requires EdgeOk(e.desc, e.opts) && e.desc.kind == MessageKind(e.target.source.name)
    requires e.inverse == null && e.pair == null && e.unique == Get(e.opts.unique)
    ensures Belong(all, fields, edges + {e}) && Marked(edges + {e})
  {
  }

  lemma BelongField(all: set<ProtoEntity>, fields: set<ProtoField>, edges: set<ProtoEdge>, f: ProtoField)
    requires Belong(all, fields, edges) && f.owner in all && f.opts == f.given
    ensures Belong(all, fields + {f}, edges)
  {
  }

  lemma BelongMore(all: set<ProtoEntity>, fields: set<ProtoField>, edges: set<ProtoEdge>, v: ProtoEntity)
    requires Belong(all, fields, edges) && v.props == []
    ensures Belong(all + {v}, fields, edges)
  {
  }

  lemma BelongTo(all: set<ProtoEntity>, fields: set<ProtoField>, edges: set<ProtoEdge>)
    requires Belong(all, fields, edges)
    ensures (forall f <- fields :: f.owner in all) && (forall ed <- edges :: ed.owner in all)
  {
  }

  lemma BelongJointly(all: set<ProtoEntity>, fields: set<ProtoField>, edges: set<ProtoEdge>,
                      all': set<ProtoEntity>, fields': set<ProtoField>, edges': set<ProtoEdge>)
    requires Belong(all, fields, edges) && Belong(all', fields', edges') && Marked(edges) && Marked(edges')
    ensures Belong(all + all', fields + fields', edges + edges') && Marked(edges + edges')
  {
  }

  /** A back reference names an edge of the target; a singular pair is one-to-one, unique at both ends. */
  ghost predicate Paired(ed: ProtoEdge)
    reads ed, if ed.inverse != null then {ed.inverse} else {}
  {
    ed.opts.from.Some? ==>
      && ed.inverse != null && ed.inverse.owner == ed.target
      && ed.inverse.desc.number == ed.opts.from.value.number && ed.inverse.desc.name == ed.opts.from.value.name
      && (!ed.IsRepeated() && !ed.inverse.IsRepeated() ==> ed.unique && ed.inverse.unique)
  }

  /** The key is marked unique and immutable; every other field has the options it was given. */
  ghost predicate KeyMarked(v: ProtoEntity)
    reads v, set p | p in v.props && p.F? :: p.f
  {
    && v.key != null && F(v.key) in v.props && v.key.given.key
    && forall p <- v.props :: p.F? ==>
         p.f.opts == if p.f == v.key then p.f.given.(unique := Some(true), immutable := Some(true)) else p.f.given
  }

  /** The message met every check, and the entity is what it declares. */
  ghost predicate Finished(v: ProtoEntity)
    reads v, set p | p in v.props && p.F? :: p.f
    reads set p | p in v.props && p.E? :: p.e
    reads set p | p in v.props && p.E? && p.e.inverse != null :: p.e.inverse
  {
    && MessageOk(v.source)
    && Shapes(v.props) == Kept(v.source.fields) && v.indexes == v.source.indexes
    && KeyMarked(v)
    && forall p <- v.props :: p.E? ==> Paired(p.e)
  }

  // ---- Why a message fails ----

  datatype Why =
    | Unsound                                       // it fails a check of its own
    | BadTarget(i: nat, cause: Option<Why>)         // its i-th field's message is no entity, or fails in turn
    | Unmatched(f: FieldDecl, seen: seq<Shape>)     // a back reference names no edge among those the target had
    | Taken(f: FieldDecl)                           // it names one that is unique, and has too many for that

  /** The props of a message's entity as they stand while others are parsed: all of them, unless it is under way. */
  function Standing(pool: map<string, MessageDecl>, known: map<string, MessageDecl>, open: map<string, nat>, n: string): seq<Shape> {
    if n in known then Kept(known[n].fields)
    else if n !in pool then []
    else if n in open && open[n] <= |pool[n].fields| then Kept(pool[n].fields[..open[n]])
    else Kept(pool[n].fields)
  }

  /** A prop of that number comes first, is an edge, and has that name. */
  predicate Matched(seen: seq<Shape>, from: BackRef) {
    var i := FirstNumbered(seen, from.number);
    i < |seen| && seen[i].desc.name == from.name && seen[i].rule.AsEdge?
  }

  predicate RefersBack(m: MessageDecl, f: FieldDecl) {
    f in m.fields && Rule(f).AsEdge? && Rule(f).eopts.from.Some?
  }

  /**
   The message cannot be parsed where it stands: `known` are the messages registered
   before, `open` those under way. What targets looked like is promised of a parse in
   which nothing failed before.
   */
  ghost predicate Justified(pool: map<string, MessageDecl>, known: map<string, MessageDecl>, open: map<string, nat>,
                            clean: bool, m: MessageDecl, why: Why)
    decreases why
  {
    match why
    case Unsound => !MessageOk(m)
    case BadTarget(i, cause) =>
      i < |m.fields| && FieldOk(m.fields[i]) && Rule(m.fields[i]).AsEdge? && m.fields[i].desc.kind.MessageKind? &&
      var t := m.fields[i].desc.kind.name;
      t in pool && t !in known && t !in open && t != m.name &&
      (match cause
       case None => !pool[t].isEntity
       case Some(w) => pool[t].isEntity && Justified(pool, known, open[m.name := i], clean, pool[t], w))
    case Unmatched(f, seen) =>
      RefersBack(m, f) && !Matched(seen, Rule(f).eopts.from.value) &&
      (clean ==> f.desc.kind.MessageKind? && seen == Standing(pool, known, open, f.desc.kind.name))
    case Taken(f) => RefersBack(m, f) && f.desc.card != Single
  }

  // The field whose back reference names an edge that was unique already.
  function Blocked(why: Why): Option<FieldDecl> {
    match why
    case Taken(f) => Some(f)
    case BadTarget(_, Some(w)) => Blocked(w)
    case _ => None
  }

  ghost predicate TargetFault(pool: map<string, MessageDecl>, known: map<string, MessageDecl>, open: map<string, nat>,
                              clean: bool, t: string, cause: Option<Why>) {
    t in pool && t !in known && t !in open &&
    match cause
    case None => !pool[t].isEntity
    case Some(w) => pool[t].isEntity && Justified(pool, known, open, clean, pool[t], w)
  }

  function BlockedBy(cause: Option<Why>): Option<FieldDecl> {
    match cause case None => None case Some(w) => Blocked(w)
  }

  /** The edge that the field's back reference names. */
  predicate Answers(ed: ProtoEdge, f: FieldDecl) {
    && Rule(f).AsEdge? && Rule(f).eopts.from.Some? && f.desc.kind == MessageKind(ed.owner.source.name)
    && ed.desc.number == Rule(f).eopts.from.value.number && ed.desc.name == Rule(f).eopts.from.value.name
  }

  /** It is unique indeed. */
  ghost predicate Evidence(edges: set<ProtoEdge>, f: Option<FieldDecl>)
    reads edges`unique
  {
    f.Some? ==> exists ed <- edges :: ed.unique && Answers(ed, f.value)
  }

  /** Some entity of the file fails for a reason. */
  ghost predicate Blamed(pool: map<string, MessageDecl>, known: map<string, MessageDecl>, clean: bool, file: seq<MessageDecl>,
                         edges: set<ProtoEdge>)
    reads edges`unique
  {
    exists m, why :: m in file && m.isEntity && m.name !in known && Justified(pool, known, map[], clean, m, why) && Evidence(edges, Blocked(why))
  }

  /** Entities registered before are what `known` says, and the others come from the pool; those under way are registered, and new. */
  ghost predicate Knows(entities: map<string, ProtoEntity>, pool: map<string, MessageDecl>, known: map<string, MessageDecl>,
                        open: map<string, nat>) {
    && known.Keys <= entities.Keys && open.Keys <= entities.Keys && known.Keys !! open.Keys
    && forall n <- entities ::
         if n in known then entities[n].source == known[n] else n in pool && entities[n].source == pool[n]
  }

  lemma KnowsLater(before: map<string, ProtoEntity>, after: map<string, ProtoEntity>, pool: map<string, MessageDecl>,
                   known: map<string, MessageDecl>, open: map<string, nat>)
    requires Knows(before, pool, known, open)
    requires forall n <- before :: n in after && after[n] == before[n]
    requires forall n <- after :: n in before || (n in pool && after[n].source == pool[n])
    ensures Knows(after, pool, known, open)
  {
  }

  lemma KnowsAnyProgress(entities: map<string, ProtoEntity>, pool: map<string, MessageDecl>, known: map<string, MessageDecl>,
                         a: map<string, nat>, b: map<string, nat>)
    requires Knows(entities, pool, known, a) && a.Keys == b.Keys
    ensures Knows(entities, pool, known, b)
  {
  }

  lemma OpenIsThere(entities: map<string, ProtoEntity>, pool: map<string, MessageDecl>, known: map<string, MessageDecl>,
                    open: map<string, nat>)
    requires Knows(entities, pool, known, open)
    ensures open.Keys <= entities.Keys && known.Keys <= entities.Keys && known.Keys !! open.Keys
  {
  }

  lemma KnowsOpened(entities: map<string, ProtoEntity>, pool: map<string, MessageDecl>, known: map<string, MessageDecl>,
                    open: map<string, nat>, v: ProtoEntity)
    requires Knows(entities, pool, known, open) && v.source.name !in entities
    requires v.source.name in pool && pool[v.source.name] == v.source
    ensures Knows(entities[v.source.name := v], pool, known, open[v.source.name := 0])
  {
  }

  lemma BlockerFor(edges: set<ProtoEdge>, f: FieldDecl) returns (ed: ProtoEdge)
    requires Evidence(edges, Some(f))
    ensures ed in edges && ed.unique && Answers(ed, f)
  {
    ed :| ed in edges && ed.unique && Answers(ed, f);
  }

  lemma BlocksStill(edges: set<ProtoEdge>, f: Option<FieldDecl>, ed: ProtoEdge?)
    ensures (f.Some? ==> ed != null && ed in edges && ed.unique && Answers(ed, f.value)) ==> Evidence(edges, f)
  {
  }

  lemma Blames(pool: map<string, MessageDecl>, known: map<string, MessageDecl>, clean: bool, file: seq<MessageDecl>,
               edges: set<ProtoEdge>, who: MessageDecl, why: Why, blocker: ProtoEdge?)
    requires who in file && who.isEntity && who.name !in known && Justified(pool, known, map[], clean, who, why)
    requires Blocked(why).Some? ==> blocker != null && blocker in edges && blocker.unique && Answers(blocker, Blocked(why).value)
    ensures Blamed(pool, known, clean, file, edges)
  {
  }

  /** The messages of a set that parsing accepts have nothing to be refused for. */
  lemma {:induction false} AcceptableIsNotJustified(pool: map<string, MessageDecl>, known: map<string, MessageDecl>, open: map<string, nat>,
                                                    clean: bool, fit: set<string>, n: string, why: Why)
    requires Acceptable(pool, known.Keys, fit) && n in fit && n !in known && n in pool
    ensures !Justified(pool, known, open, clean, pool[n], why)
    decreases why
  {
    assert FitMessage(pool, fit, n);
    FieldsOk(pool[n]);
    match why {
      case BadTarget(i, cause) =>
        if i < |pool[n].fields| && FieldOk(pool[n].fields[i]) && Rule(pool[n].fields[i]).AsEdge? {
          var f := pool[n].fields[i];
          assert Forward(fit, f);
          var t := f.desc.kind.name;
          if t !in known {
            assert FitMessage(pool, fit, t);
            if cause.Some? { AcceptableIsNotJustified(pool, known, open[pool[n].name := i], clean, fit, t, cause.value); }
          }
        }
      case Unmatched(f, seen) =>
        if f in pool[n].fields { assert Forward(fit, f); }
      case Taken(f) =>
        if f in pool[n].fields { assert Forward(fit, f); }
      case Unsound =>
    }
  }

  predicate Leads(entities: map<string, ProtoEntity>, desc: FieldDesc, target: ProtoEntity) {
    desc.kind.MessageKind? && desc.kind.name in entities && entities[desc.kind.name] == target
  }

  /** Every edge leads to the very entity registered under the name of its message. */
  ghost predicate Linked(entities: map<string, ProtoEntity>, v: ProtoEntity)
    reads v`props
  {
    forall p <- v.props :: p.E? ==> Leads(entities, p.e.desc, p.e.target)
  }

  /** Under way: as many of its declared fields are props as have been parsed. */
  ghost predicate Under(v: ProtoEntity, k: nat)
    reads v`props
  {
    k <= |v.source.fields| && Shapes(v.props) == Kept(v.source.fields[..k])
  }

  ghost predicate ClosedOver(entities: map<string, ProtoEntity>, open: map<string, nat>)
    reads entities.Values
    reads set v, p | v in entities.Values && p in v.props && p.F? :: p.f
    reads set v, p | v in entities.Values && p in v.props && p.E? :: p.e
    reads set v, p | v in entities.Values && p in v.props && p.E? && p.e.inverse != null :: p.e.inverse
  {
    forall n <- entities ::
      Linked(entities, entities[n]) && if n in open then Under(entities[n], open[n]) else Finished(entities[n])
  }

  // ---- A graph at two points of a parse ----

  datatype Snapshot = Snapshot(
    entities: map<string, ProtoEntity>, all: set<ProtoEntity>, fields: set<ProtoField>, edges: set<ProtoEdge>,
    discarded: set<ProtoEntity>, unique: set<ProtoEdge>, pairs: map<ProtoEdge, ProtoEdge?>)

  /**
   Nothing registered is lost or changed, and what is new comes from the pool, with
   `but` the names excepted. Objects are only added. Edges made before may at most
   have become unique, and only in a pair that a new one names.
   */
  ghost predicate Later(a: Snapshot, b: Snapshot, pool: map<string, MessageDecl>, but: set<string>) {
    && a.all <= b.all && a.fields <= b.fields && a.edges <= b.edges && a.discarded == b.discarded
    && (forall n <- a.entities :: n in but || (n in b.entities && b.entities[n] == a.entities[n]))
    && (forall n <- b.entities ::
          || (n in a.entities && b.entities[n] == a.entities[n])
          || (n in pool && b.entities[n].source == pool[n] && (n in but || pool[n].isEntity)))
    && a.unique <= b.unique
    && (forall ed <- a.edges :: ed in a.pairs && ed in b.pairs &&
          (b.pairs[ed] == a.pairs[ed] || (b.pairs[ed] != null && b.pairs[ed] !in a.edges)))
  }

  lemma LaterSame(a: Snapshot, pool: map<string, MessageDecl>)
    requires forall ed <- a.edges :: ed in a.pairs
    ensures Later(a, a, pool, {})
  {
  }

  lemma LaterInPool(a: Snapshot, b: Snapshot, pool: map<string, MessageDecl>)
    requires Later(a, b, map[], {})
    ensures Later(a, b, pool, {})
  {
  }

  lemma LaterRetracted(a: Snapshot, b: Snapshot, c: Snapshot, pool: map<string, MessageDecl>, n: string)
    requires Later(a, b, pool, {}) && (c == b || c == b.(entities := b.entities - {n}))
    ensures Later(a, c, pool, {n})
  {
  }

  lemma LaterOpened(a: Snapshot, b: Snapshot, c: Snapshot, pool: map<string, MessageDecl>, v: ProtoEntity)
    requires v.source.name !in a.entities && v.source.name in pool && pool[v.source.name] == v.source && v.source.isEntity
    requires b == a.(entities := a.entities[v.source.name := v], all := a.all + {v})
    requires Later(b, c, pool, {v.source.name}) && (v.source.name in c.entities ==> c.entities[v.source.name] == v)
    ensures Later(a, c, pool, {})
  {
  }

  /** Nothing but marks is new, each in a pair that one of `own` names. */
  ghost predicate OnlyMarked(a: Snapshot, b: Snapshot, own: set<ProtoEdge>) {
    && b.entities == a.entities && b.all == a.all && b.fields == a.fields && b.edges == a.edges && b.discarded == a.discarded
    && a.unique <= b.unique
    && forall ed <- a.edges :: ed in a.pairs && ed in b.pairs &&
         (b.pairs[ed] == a.pairs[ed] || (b.pairs[ed] != null && b.pairs[ed] in own))
  }

  lemma LaterMarked(a: Snapshot, b: Snapshot, c: Snapshot, pool: map<string, MessageDecl>, own: set<ProtoEdge>)
    requires Later(a, b, pool, {}) && OnlyMarked(b, c, own) && own !! a.edges
    ensures Later(a, c, pool, {})
  {
  }

  lemma LaterStill(a: Snapshot, b: Snapshot, c: Snapshot, pool: map<string, MessageDecl>)
    requires Later(a, b, pool, {}) && Later(b, c, pool, {})
    ensures Later(a, c, pool, {})
  {
  }

  lemma LaterMeans(a: Snapshot, b: Snapshot, pool: map<string, MessageDecl>)
    requires Later(a, b, pool, {})
    ensures forall n <- a.entities :: n in b.entities && b.entities[n] == a.entities[n]
    ensures forall n <- b.entities :: n in a.entities || (n in pool && b.entities[n].source == pool[n] && pool[n].isEntity)
    ensures a.all <= b.all && a.edges <= b.edges && a.unique <= b.unique && a.discarded == b.discarded
  {
  }

  class Graph {
    var entities: map<string, ProtoEntity>

    // Every object parsing has made so far, registered still or not.
    ghost var all: set<ProtoEntity>
    ghost var fields: set<ProtoField>
    ghost var edges: set<ProtoEdge>

    // The entities of files that failed.
    ghost var discarded: set<ProtoEntity>

    constructor ()
      ensures entities == map[] && all == {} && fields == {} && edges == {} && discarded == {}
    {
      entities, all, fields, edges, discarded := map[], {}, {}, {}, {};
    }

    /** What holds at every point of a parse, even past a failure. */
    ghost predicate Sound()
      reads this, all, fields, edges
    {
      && (forall n <- entities :: entities[n] in all && entities[n].source.name == n)
      && Belong(all, fields, edges) && Marked(edges)
    }

    predicate Registered(v: ProtoEntity)
      reads `entities
    {
      v.source.name in entities && entities[v.source.name] == v
    }

    /** Registered entities are linked, and finished unless their parsing is still under way; no other is left over. */
    ghost predicate Closed(open: map<string, nat>)
      reads `entities, `all, `discarded, entities.Values
      reads set v, p | v in entities.Values && p in v.props && p.F? :: p.f
      reads set v, p | v in entities.Values && p in v.props && p.E? :: p.e
      reads set v, p | v in entities.Values && p in v.props && p.E? && p.e.inverse != null :: p.e.inverse
    {
      && (forall v <- all :: v in discarded || Registered(v))
      && ClosedOver(entities, open)
    }

    ghost function Now(): Snapshot
      reads this, edges
    {
      Snapshot(entities, all, fields, edges, discarded, set ed | ed in edges && ed.unique, map ed | ed in edges :: ed.pair)
    }

    lemma NowIs()
      ensures Now().entities == entities && Now().all == all && Now().fields == fields && Now().edges == edges
      ensures Now().discarded == discarded && Now().pairs.Keys == edges
      ensures forall ed :: ed in Now().unique <==> ed in edges && ed.unique
    {
    }

    twostate predicate Grows()
      reads this
    {
      (forall f <- fields :: f in old(fields) || fresh(f)) && (forall ed <- edges :: ed in old(edges) || fresh(ed))
    }

    /** The graph is a later one, and what it has more is new. */
    twostate predicate Extends(pool: map<string, MessageDecl>)
      reads this, edges
    {
      Grows() && Later(old(Now()), Now(), pool, {})
    }

    // ---- Validation of one entity ----

    /** No option has been marked yet. */
    ghost predicate Pristine(v: ProtoEntity)
      reads v, set p | p in v.props && p.F? :: p.f
    {
      forall p <- v.props :: p.F? ==> p.f.opts == p.f.given
    }

    /** The single key field; a second one, or contradicting options, are refused. */
    method FindKey(v: ProtoEntity) returns (ok: bool)
      requires Sound() && v in all && v.key == null
      modifies v`key
      ensures Sound() && Pristine(v)
      ensures ok <==> HasKey(Shapes(v.props))
      ensures ok ==> v.key != null && F(v.key) in v.props && v.key.given.key
    {
      hide Marked;
      ghost var ss := Shapes(v.props);
      ghost var k := 0;
      for i := 0 to |v.props|
        invariant v.props == old(v.props)
        invariant v.key == null ==> forall j | 0 <= j < i :: !ss[j].IsKey()
        invariant v.key != null ==> k < i && v.props[k] == F(v.key) && forall j | 0 <= j < i :: ss[j].IsKey() ==> j == k
        invariant v.key != null ==> ss[k].IsKey() && KeyAllowed(v.key.given)
        invariant Sound() && Pristine(v)
      {
        if v.props[i].F? && v.props[i].f.opts.key {
          var f := v.props[i].f;
          assert ss[i].IsKey() && forall j :: OnlyKey(ss, j) ==> j == i;
          if v.key != null || f.opts.unique == Some(false) || f.opts.nullable == Some(true) || f.opts.immutable == Some(false) {
            return false;
          }
          v.key := f;
          k := i;
        }
      }
      ok := v.key != null;
      assert ok ==> OnlyKey(ss, k);
    }

    /** The loops over version fields and over erased fields. */
    method CheckSingles(v: ProtoEntity) returns (ok: bool)
      requires Pristine(v)
      ensures ok <==> Singles(Shapes(v.props))
    {
      ghost var ss := Shapes(v.props);
      var ver: ProtoField? := null;
      ghost var k := 0;
      for i := 0 to |v.props|
        invariant ver == null ==> forall j | 0 <= j < i :: !ss[j].IsVersion()
        invariant ver != null ==> k < i && ss[k].IsVersion() && forall j | 0 <= j < i :: ss[j].IsVersion() ==> j == k
      {
        if v.props[i].F? && v.props[i].f.opts.version {
          assert v.props[i] in v.props && ss[i].IsVersion();
          if ver != null {
            return false;
          }
          ver := v.props[i].f;
          k := i;
        }
      }
      var del: ProtoField? := null;
      ghost var d := 0;
      for i := 0 to |v.props|
        invariant del == null ==> forall j | 0 <= j < i :: !ss[j].IsErased()
        invariant del != null ==> d < i && ss[d].IsErased() && forall j | 0 <= j < i :: ss[j].IsErased() ==> j == d
      {
        if v.props[i].F? && v.props[i].f.opts.erased {
          assert v.props[i] in v.props && ss[i].IsErased();
          if del != null {
            return false;
          }
          del := v.props[i].f;
          d := i;
        }
      }
      ok := true;
    }

    method HasErasedField(v: ProtoEntity) returns (r: bool)
      requires Pristine(v)
      ensures r <==> Erases(Shapes(v.props))
    {
      for i := 0 to |v.props|
        invariant forall j | 0 <= j < i :: !Shapes(v.props)[j].IsErased()
      {
        if v.props[i].F? && v.props[i].f.opts.erased {
          assert Shapes(v.props)[i] in Shapes(v.props);
          return true;
        }
      }
      r := false;
    }

    /** One index: its references, and what it says of erased rows. */
    method ParseIndex(ss: seq<Shape>, erases: bool, x: IndexDecl) returns (ok: bool)
      ensures ok <==> IndexOk(ss, erases, x)
    {
      if x.refs == [] {
        return false;
      }
      var errs := 0;
      for i := 0 to |x.refs|
        invariant errs == 0 <==> forall j | 0 <= j < i ::
                    var k := FirstNumbered(ss, x.refs[j].number); k < |ss| && ss[k].desc.name == x.refs[j].name
      {
        var k := FirstNumbered(ss, x.refs[i].number);
        if k == |ss| || ss[k].desc.name != x.refs[i].name {
          errs := errs + 1;
        }
      }
      if x.includesErased && (!x.unique || !erases) {
        errs := errs + 1;
      }
      ok := errs == 0;
    }

    method ParseIndexes(v: ProtoEntity) returns (ok: bool)
      requires Pristine(v)
      modifies v`indexes
      ensures ok <==> forall x <- v.source.indexes :: IndexOk(Shapes(v.props), Erases(Shapes(v.props)), x)
      ensures ok ==> v.indexes == old(v.indexes) + v.source.indexes
    {
      var erases := HasErasedField(v);
      var xs, ss := v.source.indexes, Shapes(v.props);
      var errs := 0;
      for i := 0 to |xs|
        invariant v.props == old(v.props) && (erases <==> Erases(ss))
        invariant errs == 0 <==> forall j | 0 <= j < i :: IndexOk(ss, erases, xs[j])
        invariant errs == 0 ==> v.indexes == old(v.indexes) + xs[..i]
      {
        assert xs[..i + 1] == xs[..i] + [xs[i]];
        var parsed := ParseIndex(ss, erases, xs[i]);
        if parsed {
          v.indexes := v.indexes + [xs[i]];
        } else {
          errs := errs + 1;
        }
      }
      ok := errs == 0;
      assert xs[..|xs|] == xs;
    }

    /** The first prop of the target with the back reference's number is an edge of that name, and not one that this edge is too many for. */
    ghost predicate Invertible(ed: ProtoEdge)
      reads this, ed.target`props, edges`unique
    {
      ed.opts.from.Some? ==>
        var props := ed.target.props;
        var i := FirstNumbered(Shapes(props), ed.opts.from.value.number);
        && i < |props| && props[i].Desc().name == ed.opts.from.value.name
        && props[i].E? && props[i].e in edges && !(props[i].e.unique && ed.IsRepeated())
    }

    /** `r` is the prop of the target that the back reference names. */
    ghost predicate Names(ed: ProtoEdge, r: ProtoEdge)
      reads ed.target`props
    {
      ed.opts.from.Some? &&
      var props := ed.target.props;
      var i := FirstNumbered(Shapes(props), ed.opts.from.value.number);
      i < |props| && props[i] == E(r)
    }

    lemma OneName(ed: ProtoEdge, r: ProtoEdge, s: ProtoEdge)
      requires Names(ed, r) && Names(ed, s)
      ensures r == s
    {
    }

    /** The edge a back reference names, if the target has it and it can be this edge's inverse. */
    method FindInverse(edge: ProtoEdge, from: BackRef) returns (r: ProtoEdge?)
      requires Sound() && edge in edges && edge.opts.from == Some(from)
      ensures r != null <==> Invertible(edge)
      ensures r != null ==> Names(edge, r)
      ensures r != null ==> && r in edges && r.owner == edge.target && E(r) in r.owner.props
                            && r.desc.number == from.number && r.desc.name == from.name
    {
      var props := edge.target.props;
      var i := FirstNumbered(Shapes(props), from.number);
      if i == |props| {
        return null;
      }
      var p := props[i];
      assert p in edge.target.props && ShapeOf(p) == Shapes(props)[i];
      if p.Desc().name != from.name || p.F? {
        return null;
      }
      var inverse := p.e;
      if inverse.unique && edge.IsRepeated() {
        return null;
      }
      r := inverse;
    }

    ghost predicate CanPair(c: Pair)
      reads `edges, c.edge`inverse, c.edge.owner`props
    {
      c.edge in edges && c.inverse in edges && c.edge.inverse == c.inverse && IsPair(c.edge) && E(c.edge) in c.edge.owner.props
    }

    /** The inverse is found; if both ends are singular, marking them one-to-one is staged. */
    ghost predicate Resolved(ed: ProtoEdge, staged: seq<Pair>)
      reads `edges, ed`inverse
    {
      ed.opts.from.Some? ==>
        && ed.inverse != null && ed.inverse in edges && ed.inverse.owner == ed.target
        && ed.inverse.desc.number == ed.opts.from.value.number && ed.inverse.desc.name == ed.opts.from.value.name
        && (!ed.IsRepeated() && !ed.inverse.IsRepeated() ==> Pair(ed.inverse, ed) in staged)
    }

    lemma OwnAll()
      requires Sound()
      ensures forall n <- entities, p <- entities[n].props ::
                if p.F? then p.f in fields && p.f.owner == entities[n] else p.e in edges && p.e.owner == entities[n]
    {
    }

    lemma OwnEdges()
      requires Sound()
      ensures forall n <- entities, p <- entities[n].props :: p.E? ==> p.e in edges
    {
    }

    lemma OwnProps(v: ProtoEntity)
      requires Sound() && v in all
      ensures forall p <- v.props :: if p.F? then p.f in fields && p.f.owner == v else p.e in edges && p.e.owner == v
    {
    }

    method SetInverse(edge: ProtoEdge, inverse: ProtoEdge)
      requires Sound() && edge in edges && (edge.inverse == null || edge.inverse == inverse) && inverse in edges
      requires E(inverse) in inverse.owner.props
      modifies edge`inverse
      ensures Sound() && edge.inverse == inverse
    {
      edge.inverse := inverse;
      hide EdgeOk;
      assert Marked(edges) by { hide Belong; }
    }

    /** One back reference: the inverse it names is set, or it is in error. */
    method ResolveOne(edge: ProtoEdge, from: BackRef) returns (inverse: ProtoEdge?)
      requires Sound() && edge in edges && edge.opts.from == Some(from)
      requires edge.inverse != null ==> Names(edge, edge.inverse)
      modifies edge`inverse
      ensures Sound()
      ensures inverse != null <==> old(Invertible(edge))
      ensures inverse == null ==> edge.inverse == old(edge.inverse)
      ensures inverse != null ==> edge.inverse == inverse && Names(edge, inverse) && (old(edge.inverse) == null || old(edge.inverse) == inverse)
      ensures inverse != null ==> && inverse in edges && inverse.owner == edge.target
                                  && inverse.desc.number == from.number && inverse.desc.name == from.name
    {
      hide Sound, Invertible, Names, Shapes;
      inverse := FindInverse(edge, from);
      if inverse != null {
        if edge.inverse != null { OneName(edge, edge.inverse, inverse); }
        SetInverse(edge, inverse);
      }
    }

    lemma UnlessNamed(p: PropRef)
      ensures p.E? && p.e.opts.from.None? ==> Invertible(p.e)
    {
    }

    method ResolveInverses(v: ProtoEntity, ghost own: set<ProtoEdge>) returns (ok: bool, staged: seq<Pair>)
      requires Sound() && v in all
      requires forall p <- v.props :: p.E? ==> p.e in own && p.e.inverse == null
      modifies own`inverse
      ensures Sound()
      ensures forall ed <- edges :: ed.owner != v ==> ed.inverse == old(ed.inverse)
      ensures forall c <- staged :: CanPair(c) && E(c.edge) in v.props
      ensures ok <==> forall p <- v.props :: p.E? ==> old(Invertible(p.e))
      ensures ok ==> forall p <- v.props :: p.E? ==> Resolved(p.e, staged)
    {
      hide Sound, Invertible, Names, Shapes;
      OwnProps(v);
      staged := [];
      var errs := 0;
      for i := 0 to |v.props|
        invariant Sound() && v.props == old(v.props)
        invariant forall ed <- edges :: ed.owner != v ==> ed.inverse == old(ed.inverse)
        invariant forall c <- staged :: CanPair(c) && E(c.edge) in v.props
        invariant forall p <- v.props :: p.E? && p.e.inverse != null ==> Names(p.e, p.e.inverse)
        invariant errs == 0 <==> forall j | 0 <= j < i :: v.props[j].E? ==> old(Invertible(v.props[j].e))
        invariant errs == 0 ==> forall j | 0 <= j < i :: v.props[j].E? ==> Resolved(v.props[j].e, staged)
      {
        UnlessNamed(v.props[i]);
        if v.props[i].E? && v.props[i].e.opts.from.Some? {
          var edge := v.props[i].e;
          assert v.props[i] in v.props;
          var inverse := ResolveOne(edge, edge.opts.from.value);
          if inverse == null {
            errs := errs + 1;
          } else if !inverse.IsRepeated() && !edge.IsRepeated() {
            staged := staged + [Pair(inverse, edge)];
          }
        }
      }
      ok := errs == 0;
    }

    /** One end of the pair that `c` names becomes unique. */
    method MarkEnd(ed: ProtoEdge, c: ProtoEdge)
      requires Sound() && ed in edges && c in edges && EndOf(ed, c) && E(c) in c.owner.props
      modifies ed`unique, ed`pair
      ensures Sound() && ed.unique && ed.pair == c
    {
      hide EdgeOk, EndOf, IsPair;
      ed.unique := true;
      ed.pair := c;
      assert Marked(edges) by { hide Belong; }
      assert Belong(all, fields, edges) by { hide Marked; }
    }

    /** The second phase: what was staged is applied, and nothing else. */
    method ApplyStaged(staged: seq<Pair>)
      requires Sound() && forall c <- staged :: CanPair(c)
      modifies edges`unique, edges`pair
      ensures Sound()
      ensures forall c <- staged :: c.edge.unique && c.inverse.unique
      ensures forall ed <- edges :: ed.pair == old(ed.pair) || exists c <- staged :: c.edge == ed.pair
      ensures forall ed <- edges :: old(ed.unique) ==> ed.unique
    {
      hide Sound;
      for i := 0 to |staged|
        invariant Sound()
        invariant forall j | 0 <= j < i :: staged[j].edge.unique && staged[j].inverse.unique
        invariant forall ed <- edges :: ed.pair == old(ed.pair) || exists c <- staged :: c.edge == ed.pair
        invariant forall ed <- edges :: old(ed.unique) ==> ed.unique
      {
        assert CanPair(staged[i]) by { assert old(CanPair(staged[i])); }
        MarkEnd(staged[i].inverse, staged[i].edge);
        MarkEnd(staged[i].edge, staged[i].edge);
      }
    }

    ghost predicate KeyChosen(v: ProtoEntity)
      reads v
    {
      v.key != null && F(v.key) in v.props && v.key.given.key
    }

    method Validate(v: ProtoEntity) returns (ok: bool)
      requires Sound() && v in all && v.key == null && v.indexes == []
      requires Shapes(v.props) == Kept(v.source.fields)
      modifies v`key, v`indexes
      ensures Sound() && Pristine(v)
      ensures ok <==> Validates(v.source)
      ensures ok ==> KeyChosen(v) && v.indexes == v.source.indexes
    {
      ok := FindKey(v);
      if ok {
        ok := CheckSingles(v);
      }
      if ok {
        ok := ParseIndexes(v);
      }
    }

    method MarkKey(v: ProtoEntity)
      requires Sound() && v in all && KeyChosen(v) && Pristine(v)
      modifies v.key`opts
      ensures Sound() && KeyMarked(v)
    {
      hide Marked;
      v.key.opts := v.key.opts.(unique := Some(true), immutable := Some(true));
    }

    ghost predicate AllResolved(v: ProtoEntity, staged: seq<Pair>)
      reads `edges, v`props, edges`inverse
    {
      && (forall p <- v.props :: p.E? ==> p.e in edges && Resolved(p.e, staged))
    }

    /** Once the staged pairs are unique, every resolved edge is properly paired. */
    lemma ResolvedArePaired(v: ProtoEntity, staged: seq<Pair>)
      requires AllResolved(v, staged)
      requires forall c <- staged :: c.edge.unique && c.inverse.unique
      ensures forall p <- v.props :: p.E? ==> Paired(p.e)
    {
    }

    /** The second phase: the key and the staged pairs are marked. */
    method Settle(v: ProtoEntity, staged: seq<Pair>)
      requires Sound() && v in all && KeyChosen(v) && Pristine(v)
      requires AllResolved(v, staged) && forall c <- staged :: CanPair(c) && E(c.edge) in v.props
      modifies v.key`opts, edges`unique, edges`pair
      ensures Sound() && KeyMarked(v)
      ensures forall ed <- edges :: ed.pair == old(ed.pair) || (ed.pair != null && E(ed.pair) in v.props)
      ensures forall p <- v.props :: p.E? ==> Paired(p.e)
      ensures forall ed <- edges :: old(ed.unique) ==> ed.unique
    {
      hide Sound, CanPair, Resolved;
      MarkKey(v);
      ApplyStaged(staged);
      assert AllResolved(v, staged);
      ResolvedArePaired(v, staged);
    }

    ghost predicate AllInvertible(v: ProtoEntity)
      reads this, v, set p | p in v.props && p.E? :: p.e.target
      reads edges`unique
    {
      forall p <- v.props :: p.E? ==> Invertible(p.e)
    }

    /** Everything after the props: key, singles, indexes, inverses, and then the staged changes. */
    method Finish(v: ProtoEntity, ghost mine: set<ProtoField>, ghost own: set<ProtoEdge>) returns (ok: bool)
      requires Sound() && v in all && v.key == null && v.indexes == []
      requires Shapes(v.props) == Kept(v.source.fields) && forall f <- v.source.fields :: FieldOk(f)
      requires forall p <- v.props :: if p.F? then p.f in mine else p.e in own && p.e.inverse == null
      modifies v`key, v`indexes, edges`unique, edges`pair, mine`opts, own`inverse
      ensures Sound()
      ensures ok <==> Validates(v.source) && old(AllInvertible(v))
      ensures forall ed <- edges :: ed.pair == old(ed.pair) || (ok && ed.pair != null && E(ed.pair) in v.props)
      ensures forall f <- fields :: f.owner != v ==> f.opts == old(f.opts)
      ensures forall ed <- edges :: (old(ed.unique) ==> ed.unique) && (ed.owner != v ==> ed.inverse == old(ed.inverse))
      ensures OnlyMarked(old(Now()), Now(), own)
      ensures ok ==> Finished(v)
    {
      hide Sound, Invertible, Validates, KeyMarked;
      ok := Validate(v);
      OwnProps(v);
      if !ok {
        return;
      }
      var staged;
      ok, staged := ResolveInverses(v, own);
      if !ok {
        return;
      }
      Settle(v, staged);
    }

    /** A prop just parsed: made for `v`, and if it is an edge, linked. */
    ghost predicate FitsIn(v: ProtoEntity, p: PropRef)
      reads this, if p.E? then {p.e} else {}
    {
      && (p.F? ==> p.f in fields && p.f.owner == v)
      && (p.E? ==> p.e in edges && p.e.owner == v && p.e.inverse == null && Leads(entities, p.e.desc, p.e.target))
    }

    method AddField(v: ProtoEntity, desc: FieldDesc, o: FieldOpts) returns (f: ProtoField)
      requires Sound() && v in all
      modifies `fields
      ensures Sound() && fresh(f) && fields == old(fields) + {f}
      ensures f.desc == desc && f.owner == v && f.given == o
      ensures Later(old(Now()), Now(), map[], {})
    {
      hide Belong, Marked;
      f := new ProtoField(desc, v, o);
      BelongField(all, fields, edges, f);
      fields := fields + {f};
    }

    method AddEdge(v: ProtoEntity, desc: FieldDesc, target: ProtoEntity, o: EdgeOpts) returns (e: ProtoEdge)
      requires Sound() && v in all && target in all && EdgeOk(desc, o) && Leads(entities, desc, target)
      modifies `edges
      ensures Sound() && fresh(e) && edges == old(edges) + {e}
      ensures e.desc == desc && e.opts == o && FitsIn(v, E(e))
      ensures Later(old(Now()), Now(), map[], {})
    {
      assert target.source.name == desc.kind.name;
      hide Belong, Marked, EdgeOk;
      e := new ProtoEdge(desc, v, target, o);
      BelongWith(all, fields, edges, e);
      edges := edges + {e};
    }

    /** The entity an edge leads to: registered already, or parsed now. */
    method Target(pool: map<string, MessageDecl>, name: string, ghost room: set<string>, ghost known: map<string, MessageDecl>,
                  ghost open: map<string, nat>, ghost clean: bool)
      returns (target: ProtoEntity?, ghost cause: Option<Why>)
      requires PoolOk(pool) && Sound() && Knows(entities, pool, known, open) && (clean ==> Closed(open)) && name in pool
      requires pool.Keys - entities.Keys <= room
      modifies this, edges`unique, edges`pair
      ensures Sound() && Extends(pool) && Knows(entities, pool, known, open)
      ensures target != null ==> target in all && name in entities && entities[name] == target
      ensures target == null ==> name !in entities && TargetFault(pool, known, open, clean, name, cause) && Evidence(edges, BlockedBy(cause))
      ensures clean && target != null ==> Closed(open)
      decreases |room|, 2
    {
      if name in entities {
        return entities[name], None;
      }
      var parsed;
      ghost var why;
      parsed, why := ParseEntity(pool, pool[name], room, known, open, clean);
      if parsed.Parsed? {
        return parsed.v, None;
      }
      target := null;
      cause := if parsed.Failed? then Some(why) else None;
    }

    method ParseEdge(pool: map<string, MessageDecl>, v: ProtoEntity, desc: FieldDesc, o: EdgeOpts, ghost room: set<string>,
                     ghost known: map<string, MessageDecl>, ghost open: map<string, nat>, ghost clean: bool)
      returns (e: ProtoEdge?, ghost cause: Option<Why>)
      requires PoolOk(pool) && Sound() && Knows(entities, pool, known, open) && v in all && (clean ==> Closed(open))
      requires desc.kind.MessageKind? ==> desc.kind.name in pool
      requires pool.Keys - entities.Keys <= room
      modifies this, edges`unique, edges`pair
      ensures Sound() && Extends(pool) && Knows(entities, pool, known, open)
      ensures e != null ==> e.desc == desc && e.opts == o && FitsIn(v, E(e)) && EdgeOk(desc, o)
      ensures e == null && EdgeOk(desc, o) ==>
                desc.kind.name !in entities && TargetFault(pool, known, open, clean, desc.kind.name, cause) && Evidence(edges, BlockedBy(cause))
      ensures clean && e != null ==> Closed(open)
      decreases |room|, 3
    {
      hide Sound, Closed, PoolOk, FitsIn, Knows, TargetFault, Later, Now, Evidence;
      NowIs();
      LaterSame(Now(), pool);
      // A map field's message is its own entry type, which is never an entity.
      if !desc.kind.MessageKind? || desc.card == Mapped {
        return null, None;
      }
      var target;
      target, cause := Target(pool, desc.kind.name, room, known, open, clean);
      if target == null || (Get(o.unique) && desc.card == Repeated) {
        return null, cause;
      }
      NowIs();
      LaterMeans(old(Now()), Now(), pool);
      ghost var reached := Now();
      e := AddEdge(v, desc, target, o);
      LaterInPool(reached, Now(), pool);
      LaterStill(old(Now()), reached, Now(), pool);
    }

    /**
     One declared field: disabled, refused, a field, or an edge to an entity parsed here
     if it is not registered yet. It fails only if it is refused, or is an edge whose
     message was not registered and is no entity or fails in turn.
     */
    method ParseProp(pool: map<string, MessageDecl>, v: ProtoEntity, f: FieldDecl, ghost room: set<string>,
                     ghost known: map<string, MessageDecl>, ghost open: map<string, nat>, ghost clean: bool)
      returns (r: PropOutcome, ghost cause: Option<Why>)
      requires PoolOk(pool) && Sound() && Knows(entities, pool, known, open) && v in all && (clean ==> Closed(open))
      requires f.desc.kind.MessageKind? ==> f.desc.kind.name in pool
      requires pool.Keys - entities.Keys <= room
      modifies this, edges`unique, edges`pair
      ensures Sound() && Extends(pool) && Knows(entities, pool, known, open)
      ensures r.PropDisabled? ==> Rule(f).Disabled?
      ensures r.PropParsed? ==> FieldOk(f) && ShapeOf(r.p) == Shape(f.desc, Rule(f)) && FitsIn(v, r.p)
      ensures r.PropFailed? && FieldOk(f) ==>
                && Rule(f).AsEdge? && f.desc.kind.MessageKind? && f.desc.kind.name !in entities
                && TargetFault(pool, known, open, clean, f.desc.kind.name, cause) && Evidence(edges, BlockedBy(cause))
      ensures clean && !r.PropFailed? ==> Closed(open)
      decreases |room|, 4
    {
      hide Sound, Closed, PoolOk, Rule, Knows, TargetFault, Later, Now, Evidence;
      NowIs();
      LaterSame(Now(), pool);
      cause := None;
      var rule := Rule(f);
      if rule.Refused? {
        return PropFailed, None;
      }
      if rule.Disabled? {
        return PropDisabled, None;
      }
      if rule.AsField? {
        var field := AddField(v, f.desc, rule.fopts);
        LaterInPool(old(Now()), Now(), pool);
        return PropParsed(F(field)), None;
      }
      var edge;
      edge, cause := ParseEdge(pool, v, f.desc, rule.eopts, room, known, open, clean);
      r := if edge == null then PropFailed else PropParsed(E(edge));
    }

    /** The prop joins its entity, which is registered and under way. */
    method Append(v: ProtoEntity, p: PropRef, ghost open: map<string, nat>, ghost clean: bool)
      requires Sound() && v in all && FitsIn(v, p) && (clean ==> Closed(open))
      requires Registered(v) && v.source.name in open && open[v.source.name] < |v.source.fields|
      requires var f := v.source.fields[open[v.source.name]]; !Rule(f).Disabled? && ShapeOf(p) == Shape(f.desc, Rule(f))
      modifies v`props
      ensures v.props == old(v.props) + [p]
      ensures Sound() && (clean ==> Closed(open[v.source.name := open[v.source.name] + 1]))
      ensures Shapes(v.props) == old(Shapes(v.props)) + [ShapeOf(p)]
    {
      hide Marked;
      ShapesGrow(v.props, p);
      KeptGrows(v.source.fields, open[v.source.name]);
      v.props := v.props + [p];
      if clean {
        hide Belong, Finished, Leads;
        ghost var further := open[v.source.name := open[v.source.name] + 1];
        forall n | n in entities
          ensures Linked(entities, entities[n])
          ensures if n in further then Under(entities[n], further[n]) else Finished(entities[n])
        {
          if n != v.source.name { assert old(Linked(entities, entities[n])); }
        }
      }
    }

    /** A disabled field leaves the entity as it is, one field further. */
    lemma StepsOver(v: ProtoEntity, open: map<string, nat>)
      requires Closed(open) && Registered(v) && v.source.name in open && open[v.source.name] < |v.source.fields|
      requires Rule(v.source.fields[open[v.source.name]]).Disabled?
      ensures Closed(open[v.source.name := open[v.source.name] + 1])
    {
      hide Finished, Linked;
      KeptGrows(v.source.fields, open[v.source.name]);
    }

    /** A prop joins its entity; a disabled field only counts as done. */
    method Join(v: ProtoEntity, r: PropOutcome, ghost open: map<string, nat>, ghost clean: bool)
      requires Sound() && v in all && !r.PropFailed? && NoneInverted(v) && (clean ==> Closed(open))
      requires Registered(v) && v.source.name in open && open[v.source.name] < |v.source.fields|
      requires var f := v.source.fields[open[v.source.name]];
               if r.PropDisabled? then Rule(f).Disabled? else FieldOk(f) && ShapeOf(r.p) == Shape(f.desc, Rule(f)) && FitsIn(v, r.p)
      modifies v`props
      ensures Sound() && NoneInverted(v) && (clean ==> Closed(open[v.source.name := open[v.source.name] + 1]))
      ensures var f := v.source.fields[open[v.source.name]]; Shapes(v.props) == old(Shapes(v.props)) + KeptOne(f) && FieldOk(f)
    {
      hide Sound, Closed;
      if r.PropParsed? {
        Append(v, r.p, open, clean);
      } else {
        DisabledIsKept(v.source.fields[open[v.source.name]]);
        if clean { StepsOver(v, open); }
      }
    }

    ghost predicate NoneInverted(v: ProtoEntity)
      reads v`props, (set p | p in v.props && p.E? :: p.e)`inverse
    {
      forall p <- v.props :: p.E? ==> p.e.inverse == null
    }

    /** One turn of the loop over the declared fields. */
    method ParseNext(pool: map<string, MessageDecl>, v: ProtoEntity, i: nat, ghost room: set<string>, ghost known: map<string, MessageDecl>,
                     ghost open: map<string, nat>, ghost clean: bool)
      returns (ok: bool, ghost why: Why)
      requires PoolOk(pool) && Sound() && v in all && Knows(entities, pool, known, open[v.source.name := 0])
      requires clean ==> Closed(open[v.source.name := i])
      requires i < |v.source.fields| && v.source.name in pool && pool[v.source.name] == v.source && v.source.name !in open
      requires Registered(v) && NoneInverted(v)
      requires pool.Keys - entities.Keys <= room
      modifies this, edges`unique, edges`pair, v`props
      ensures Sound() && Extends(pool) && NoneInverted(v) && v in all && Registered(v) && old(entities.Keys) <= entities.Keys
      ensures Knows(entities, pool, known, open[v.source.name := 0])
      ensures ok ==> Shapes(v.props) == old(Shapes(v.props)) + KeptOne(v.source.fields[i]) && FieldOk(v.source.fields[i])
      ensures !ok ==> Justified(pool, known, open, clean, v.source, why) && Evidence(edges, Blocked(why))
      ensures clean && ok ==> Closed(open[v.source.name := i + 1])
      decreases |room|, 6
    {
      hide Closed, Knows, Later, Now, Evidence, Sound, PoolOk, Justified, FieldOk, Rule, NoneInverted, FitsIn;
      var r;
      r, why := ParseField(pool, v, i, room, known, open, clean);
      ok := !r.PropFailed?;
      ghost var progress := open[v.source.name := i];
      assert progress[v.source.name := i + 1] == open[v.source.name := i + 1];
      if ok {
        Join(v, r, progress, clean);
      }
    }

    /** One declared field, and why the message fails if the field does. */
    method ParseField(pool: map<string, MessageDecl>, v: ProtoEntity, i: nat, ghost room: set<string>, ghost known: map<string, MessageDecl>,
                      ghost open: map<string, nat>, ghost clean: bool)
      returns (r: PropOutcome, ghost why: Why)
      requires PoolOk(pool) && Sound() && v in all && Knows(entities, pool, known, open[v.source.name := 0])
      requires clean ==> Closed(open[v.source.name := i])
      requires i < |v.source.fields| && v.source.name in pool && pool[v.source.name] == v.source && v.source.name !in open
      requires Registered(v)
      requires pool.Keys - entities.Keys <= room
      modifies this, edges`unique, edges`pair
      ensures Sound() && Extends(pool) && v in all && Registered(v) && old(entities.Keys) <= entities.Keys
      ensures Knows(entities, pool, known, open[v.source.name := 0])
      ensures r.PropDisabled? ==> Rule(v.source.fields[i]).Disabled?
      ensures r.PropParsed? ==> var f := v.source.fields[i]; FieldOk(f) && ShapeOf(r.p) == Shape(f.desc, Rule(f)) && FitsIn(v, r.p)
      ensures r.PropFailed? ==> Justified(pool, known, open, clean, v.source, why) && Evidence(edges, Blocked(why))
      ensures clean && !r.PropFailed? ==> Closed(open[v.source.name := i])
      decreases |room|, 5
    {
      var f := v.source.fields[i];
      assert f in v.source.fields;
      hide Closed, TargetFault, Knows, Later, Now, Evidence, Sound, Justified, FieldOk, Rule;
      NowIs();
      ghost var progress := open[v.source.name := i];
      KnowsAnyProgress(entities, pool, known, open[v.source.name := 0], progress);
      ghost var cause;
      r, cause := ParseProp(pool, v, f, room, known, progress, clean);
      KnowsAnyProgress(entities, pool, known, progress, open[v.source.name := 0]);
      NowIs();
      LaterMeans(old(Now()), Now(), pool);
      why := if FieldOk(f) then BadTarget(i, cause) else Unsound;
      if r.PropFailed? {
        FieldIsWhy(pool, known, open, clean, v.source, i, cause);
        BlocksNothing(edges);
      }
    }

    lemma DisabledIsKept(f: FieldDecl)
      requires Rule(f).Disabled?
      ensures FieldOk(f) && KeptOne(f) == []
    {
    }

    lemma BlocksNothing(edges: set<ProtoEdge>)
      ensures Evidence(edges, None)
    {
    }

    /** Every declared field in turn, past failures too; `v` is registered and under way. */
    method ParseProps(pool: map<string, MessageDecl>, v: ProtoEntity, ghost room: set<string>, ghost known: map<string, MessageDecl>,
                      ghost open: map<string, nat>, ghost clean: bool)
      returns (ok: bool, ghost why: Why)
      requires PoolOk(pool) && Sound() && v in all && Knows(entities, pool, known, open[v.source.name := 0])
      requires clean ==> Closed(open[v.source.name := 0])
      requires Registered(v) && v.source.name in pool && pool[v.source.name] == v.source && v.source.name !in open
      requires v.props == []
      requires pool.Keys - entities.Keys <= room
      modifies this, edges`unique, edges`pair, v`props
      ensures Sound() && Extends(pool) && NoneInverted(v) && v in all && Registered(v)
      ensures Knows(entities, pool, known, open[v.source.name := 0])
      ensures ok ==> Shapes(v.props) == Kept(v.source.fields) && forall f <- v.source.fields :: FieldOk(f)
      ensures !ok ==> Justified(pool, known, open, clean, v.source, why) && Evidence(edges, Blocked(why))
      ensures clean && ok ==> Closed(open[v.source.name := |v.source.fields|])
      decreases |room|, 7
    {
      hide Sound, Closed, FieldOk, Justified, Knows, PoolOk, Registered;
      var fs := v.source.fields;
      var errs := 0;
      why := Unsound;
      ghost var blocker: ProtoEdge? := null;
      NowIs();
      LaterSame(Now(), pool);
      assert NoneInverted(v) && fs[..0] == [] && Shapes(v.props) == Kept(fs[..0]);
      hide Evidence, Later, Now, NoneInverted, Kept, Shapes, KeptOne, Blocked, Answers, Rule;
      for i := 0 to |fs|
        invariant Sound() && Extends(pool) && Knows(entities, pool, known, open[v.source.name := 0])
        invariant v in all && Registered(v) && NoneInverted(v) && old(entities.Keys) <= entities.Keys
        invariant errs == 0 ==> Shapes(v.props) == Kept(fs[..i]) && forall j | 0 <= j < i :: FieldOk(fs[j])
        invariant errs > 0 ==> Justified(pool, known, open, clean, v.source, why)
        invariant errs > 0 && Blocked(why).Some? ==>
                    blocker != null && blocker in edges && blocker.unique && Answers(blocker, Blocked(why).value)
        invariant clean && errs == 0 ==> Closed(open[v.source.name := i])
      {
        KeptGrows(fs, i);
        ghost var reached := Now();
        NowIs();
        var parsed;
        ghost var w;
        parsed, w := ParseNext(pool, v, i, room, known, open, clean && errs == 0);
        NowIs();
        LaterMeans(reached, Now(), pool);
        LaterStill(old(Now()), reached, Now(), pool);
        if !parsed {
          if errs == 0 {
            why := w;
            if Blocked(why).Some? { blocker := BlockerFor(edges, Blocked(why).value); }
          }
          errs := errs + 1;
        }
      }
      assert fs[..|fs|] == fs;
      ok := errs == 0;
      BlocksStill(edges, Blocked(why), blocker);
    }

    lemma FieldIsWhy(pool: map<string, MessageDecl>, known: map<string, MessageDecl>, open: map<string, nat>, clean: bool,
                     m: MessageDecl, i: nat, cause: Option<Why>)
      requires i < |m.fields|
      requires FieldOk(m.fields[i]) ==>
                 Rule(m.fields[i]).AsEdge? && m.fields[i].desc.kind.MessageKind? &&
                 TargetFault(pool, known, open[m.name := i], clean, m.fields[i].desc.kind.name, cause)
      ensures Justified(pool, known, open, clean, m, if FieldOk(m.fields[i]) then BadTarget(i, cause) else Unsound)
      ensures Blocked(BadTarget(i, cause)) == BlockedBy(cause) && Blocked(Unsound) == None
    {
    }

    /** Validation closes the entity: it is finished, and no other was disturbed. */
    method Complete(v: ProtoEntity, ghost mine: set<ProtoField>, ghost own: set<ProtoEdge>, ghost open: map<string, nat>, ghost clean: bool) returns (ok: bool)
      requires Sound() && v in all && v.key == null && v.indexes == []
      requires v.source.name in entities && entities[v.source.name] == v && v.source.name !in open
      requires Shapes(v.props) == Kept(v.source.fields) && forall f <- v.source.fields :: FieldOk(f)
      requires clean ==> Closed(open[v.source.name := |v.source.fields|])
      requires forall p <- v.props :: if p.F? then p.f in mine else p.e in own && p.e.inverse == null
      modifies v`key, v`indexes, edges`unique, edges`pair, mine`opts, own`inverse
      ensures Sound()
      ensures ok <==> Validates(v.source) && old(AllInvertible(v))
      ensures forall f <- fields :: f.owner != v ==> f.opts == old(f.opts)
      ensures forall ed <- edges :: (old(ed.unique) ==> ed.unique) && (ed.owner != v ==> ed.inverse == old(ed.inverse))
      ensures OnlyMarked(old(Now()), Now(), own)
      ensures clean && ok ==> Closed(open)
    {
      hide MessageOk, Shapes, Kept, Validates, AllInvertible, Linked, FieldOk, Belong, Marked, OnlyMarked, Now, Under;
      OwnAll();
      ok := Finish(v, mine, own);
      if ok && clean {
        forall n | n in entities && n !in open && n != v.source.name ensures Finished(entities[n]) {
          var e := entities[n];
          assert old(Finished(e));
          forall p | p in e.props && p.F? ensures p.f.opts == old(p.f.opts) {
            assert p.f in fields && p.f.owner == e;
          }
          forall p | p in e.props && p.E? ensures Paired(p.e) {
            assert p.e in edges && p.e.owner == e && old(Paired(p.e));
          }
        }
      }
    }

    /** Declares the entity before its props, so that references to it from below resolve. */
    method Declare(m: MessageDecl) returns (v: ProtoEntity)
      requires Sound() && m.name !in entities
      modifies `entities, `all
      ensures Sound() && entities == old(entities)[m.name := v] && all == old(all) + {v}
      ensures fresh(v) && v.source == m && v.key == null && v.props == [] && v.indexes == []
      ensures (forall f <- fields :: f.owner != v) && (forall ed <- edges :: ed.owner != v)
    {
      hide Belong, Marked;
      BelongTo(all, fields, edges);
      v := new ProtoEntity(m);
      BelongMore(all, fields, edges, v);
      entities := entities[m.name := v];
      all := all + {v};
    }

    /** The entities that were closed stay closed around the one now under way. */
    method Open(m: MessageDecl, ghost open: map<string, nat>, ghost clean: bool) returns (v: ProtoEntity)
      requires Sound() && m.name !in entities && m.name !in open && (clean ==> Closed(open))
      modifies `entities, `all
      ensures Sound() && (clean ==> Closed(open[m.name := 0]))
      ensures fields == old(fields) && edges == old(edges) && all == old(all) + {v}
      ensures entities == old(entities)[m.name := v] && Now() == old(Now()).(entities := entities, all := all)
      ensures fresh(v) && v.source == m && v.key == null && v.props == [] && v.indexes == []
      ensures (forall f <- fields :: f.owner != v) && (forall ed <- edges :: ed.owner != v)
    {
      hide Sound, Finished;
      v := Declare(m);
      if clean {
        assert forall e <- old(all) :: e in discarded || old(Registered(e));
        forall n | n in entities
          ensures Linked(entities, entities[n])
          ensures if n in open[m.name := 0] then Under(entities[n], open[m.name := 0][n]) else Finished(entities[n])
        {
          if n != m.name {
            assert old(Linked(entities, entities[n]));
          } else {
            assert m.fields[..0] == [];
          }
        }
      }
    }

    /** A failed entity takes its declaration back. */
    method Retract(name: string)
      requires Sound()
      modifies `entities
      ensures Sound() && entities == old(entities) - {name} && Now() == old(Now()).(entities := entities)
    {
      hide Marked;
      entities := entities - {name};
    }

    /** What the target of one of the entity's edges looks like, now that all its fields are parsed. */
    lemma TargetStands(pool: map<string, MessageDecl>, known: map<string, MessageDecl>, open: map<string, nat>, v: ProtoEntity, ed: ProtoEdge)
      requires Sound() && Knows(entities, pool, known, open[v.source.name := |v.source.fields|]) && Closed(open[v.source.name := |v.source.fields|])
      requires Registered(v) && v.source.name !in open && Shapes(v.props) == Kept(v.source.fields) && E(ed) in v.props
      ensures ed.desc.kind.MessageKind? && ed.target.source.name == ed.desc.kind.name
      ensures Shapes(ed.target.props) == Standing(pool, known, open, ed.desc.kind.name)
    {
      hide Marked;
      assert E(ed).e in edges;
      assert Linked(entities, v) && Leads(entities, E(ed).e.desc, E(ed).e.target);
      var n, t := ed.desc.kind.name, ed.target;
      assert entities[n] == t;
      if n == v.source.name {
        assert t == v;
      } else if n in open {
        assert Under(t, open[n]);
      } else {
        assert Finished(t);
      }
    }

    /** A back reference that finds no inverse is a reason to fail. */
    lemma NotInvertible(pool: map<string, MessageDecl>, known: map<string, MessageDecl>, open: map<string, nat>, clean: bool,
                        v: ProtoEntity, p: PropRef) returns (why: Why)
      requires Sound() && Knows(entities, pool, known, open[v.source.name := |v.source.fields|])
      requires clean ==> Closed(open[v.source.name := |v.source.fields|])
      requires v in all && Registered(v) && v.source.name !in open && Shapes(v.props) == Kept(v.source.fields)
      requires p in v.props && p.E? && !Invertible(p.e)
      ensures Justified(pool, known, open, clean, v.source, why) && Evidence(edges, Blocked(why))
    {
      hide Closed, Knows, Marked, Registered, Linked;
      var i :| 0 <= i < |v.props| && v.props[i] == p;
      assert Shapes(v.props)[i] == ShapeOf(p);
      KeptIsDeclared(v.source.fields, ShapeOf(p));
      var f :| f in v.source.fields && ShapeOf(p) == Shape(f.desc, Rule(f));
      OwnProps(v);
      var props := p.e.target.props;
      var seen, from := Shapes(props), p.e.opts.from.value;
      if clean { TargetStands(pool, known, open, v, p.e); }
      if Matched(seen, from) {
        var k := FirstNumbered(seen, from.number);
        assert seen[k] == ShapeOf(props[k]);
        why := Taken(f);
        assert props[k] in p.e.target.props;
        assert Answers(props[k].e, f);
      } else {
        why := Unmatched(f, seen);
      }
    }

    /** Props first, then validation; `v` is declared. */
    method Fill(pool: map<string, MessageDecl>, v: ProtoEntity, ghost room: set<string>, ghost known: map<string, MessageDecl>,
                ghost open: map<string, nat>, ghost clean: bool)
      returns (ok: bool, ghost why: Why)
      requires PoolOk(pool) && Sound() && v in all && Knows(entities, pool, known, open[v.source.name := 0])
      requires clean ==> Closed(open[v.source.name := 0])
      requires v.source.name in pool && pool[v.source.name] == v.source && v.source.name !in open
      requires v.source.name in entities && entities[v.source.name] == v
      requires v.props == [] && v.key == null && v.indexes == []
      requires pool.Keys - entities.Keys <= room
      requires forall f <- fields :: f.owner != v
      requires forall ed <- edges :: ed.owner != v
      modifies this, edges`unique, edges`pair, v
      ensures Sound() && Extends(pool)
      ensures clean && ok ==> Closed(open)
      ensures !ok ==> Justified(pool, known, open, clean, v.source, why) && Evidence(edges, Blocked(why))
      decreases |room|, 8
    {
      hide Sound, Closed, PoolOk, Validates, FieldOk, Justified, Invertible, Knows, Later, Now, Evidence;
      NowIs();
      ok, why := ParseProps(pool, v, room, known, open, clean);
      NowIs();
      LaterMeans(old(Now()), Now(), pool);
      OwnProps(v);
      if ok {
        KnowsAnyProgress(entities, pool, known, open[v.source.name := 0], open[v.source.name := |v.source.fields|]);
        why := FaultIn(pool, known, open, clean, v);
        ghost var blocker: ProtoEdge? := null;
        if Blocked(why).Some? { blocker := BlockerFor(edges, Blocked(why).value); }
        ghost var reached := Now();
        ok := Complete(v, fields - old(fields), edges - old(edges), open, clean);
        LaterMarked(old(Now()), reached, Now(), pool, edges - old(edges));
        BlocksStill(edges, Blocked(why), blocker);
      }
    }

    // What the entity would fail for, if it failed now.
    lemma FaultIn(pool: map<string, MessageDecl>, known: map<string, MessageDecl>, open: map<string, nat>, clean: bool,
                  v: ProtoEntity) returns (why: Why)
      requires Sound() && Knows(entities, pool, known, open[v.source.name := |v.source.fields|])
      requires clean ==> Closed(open[v.source.name := |v.source.fields|])
      requires v in all && Registered(v) && v.source.name !in open && Shapes(v.props) == Kept(v.source.fields)
      ensures !(Validates(v.source) && AllInvertible(v)) ==> Justified(pool, known, open, clean, v.source, why)
      ensures Evidence(edges, Blocked(why))
    {
      hide Sound, Closed, Invertible;
      why := Unsound;
      if Validates(v.source) && !AllInvertible(v) {
        var p :| p in v.props && p.E? && !Invertible(p.e);
        why := NotInvertible(pool, known, open, clean, v, p);
      }
    }

    /** Fills a declared entity, or takes the declaration back. */
    method Settled(pool: map<string, MessageDecl>, v: ProtoEntity, ghost room: set<string>, ghost known: map<string, MessageDecl>,
                   ghost open: map<string, nat>, ghost clean: bool)
      returns (ok: bool, ghost why: Why)
      requires PoolOk(pool) && Sound() && v in all && Knows(entities, pool, known, open[v.source.name := 0])
      requires clean ==> Closed(open[v.source.name := 0])
      requires v.source.name in pool && pool[v.source.name] == v.source && v.source.name !in open
      requires v.source.name in entities && entities[v.source.name] == v
      requires v.props == [] && v.key == null && v.indexes == []
      requires pool.Keys - entities.Keys <= room
      requires forall f <- fields :: f.owner != v
      requires forall ed <- edges :: ed.owner != v
      modifies this, edges`unique, edges`pair, v
      ensures Sound() && (clean && ok ==> Closed(open))
      ensures Grows() && Later(old(Now()), Now(), pool, {v.source.name})
      ensures ok <==> v.source.name in entities
      ensures ok ==> entities[v.source.name] == v
      ensures !ok ==> Justified(pool, known, open, clean, v.source, why) && Evidence(edges, Blocked(why))
      decreases |room|, 9
    {
      hide Sound, Closed, Finished, PoolOk, Justified, Knows, Later, Now, Evidence;
      NowIs();
      ok, why := Fill(pool, v, room, known, open, clean);
      NowIs();
      ghost var reached := Now();
      LaterMeans(old(Now()), reached, pool);
      if !ok {
        Retract(v.source.name);
      }
      LaterRetracted(old(Now()), reached, Now(), pool, v.source.name);
    }

    /** A message parses, is no entity, or fails for a reason. */
    method ParseEntity(pool: map<string, MessageDecl>, m: MessageDecl, ghost room: set<string>, ghost known: map<string, MessageDecl>,
                       ghost open: map<string, nat>, ghost clean: bool)
      returns (r: Outcome, ghost why: Why)
      requires PoolOk(pool) && Sound() && Knows(entities, pool, known, open) && (clean ==> Closed(open))
      requires m.name in pool && pool[m.name] == m
      requires pool.Keys - entities.Keys <= room
      modifies this, edges`unique, edges`pair
      ensures Sound() && Extends(pool) && Knows(entities, pool, known, open)
      ensures r.Failed? ==> m.name !in entities && m.name !in old(entities) && m.isEntity
      ensures r.Failed? ==> Justified(pool, known, open, clean, m, why) && Evidence(edges, Blocked(why))
      ensures r.NotEntity? ==> entities == old(entities) && !m.isEntity && m.name !in entities
      ensures r.Parsed? ==> m.name in entities && entities[m.name] == r.v && (m.isEntity || m.name in old(entities))
      ensures clean && !r.Failed? ==> Closed(open)
      decreases |room|, 1
    {
      hide Sound, Closed, Finished, Justified, Knows, Later, Now, Evidence;
      why := Unsound;
      NowIs();
      LaterSame(Now(), pool);
      if m.name in entities {
        return Parsed(entities[m.name]), why;
      }
      if !m.isEntity {
        return NotEntity, why;
      }
      r, why := ParseNew(pool, m, room, known, open, clean);
    }

    method ParseNew(pool: map<string, MessageDecl>, m: MessageDecl, ghost room: set<string>, ghost known: map<string, MessageDecl>,
                    ghost open: map<string, nat>, ghost clean: bool)
      returns (r: Outcome, ghost why: Why)
      requires PoolOk(pool) && Sound() && Knows(entities, pool, known, open) && (clean ==> Closed(open))
      requires m.name in pool && pool[m.name] == m && m.name !in entities && m.isEntity
      requires pool.Keys - entities.Keys <= room
      modifies this, edges`unique, edges`pair
      ensures Sound() && Extends(pool) && Knows(entities, pool, known, open)
      ensures r.Failed? ==> m.name !in entities
      ensures r.Failed? ==> Justified(pool, known, open, clean, m, why) && Evidence(edges, Blocked(why))
      ensures !r.Failed? ==> r.Parsed? && m.name in entities && entities[m.name] == r.v
      ensures clean && !r.Failed? ==> Closed(open)
      decreases |room|, 0
    {
      hide Sound, Closed, Finished, PoolOk, Justified, Knows, Evidence, Later, Now;
      NowIs();
      OpenIsThere(entities, pool, known, open);
      var v := Open(m, open, clean);
      KnowsOpened(old(entities), pool, known, open, v);
      assert m.name in room by { assert m.name in pool.Keys - old(entities).Keys; }
      ghost var declared := Now();
      var ok;
      ok, why := Settled(pool, v, room - {m.name}, known, open, clean);
      r := if ok then Parsed(v) else Failed;
      NowIs();
      LaterOpened(old(Now()), declared, Now(), pool, v);
      LaterMeans(old(Now()), Now(), pool);
      KnowsLater(old(entities), entities, pool, known, open);
    }

    /** A shallow copy: the entity map is duplicated, the entities are shared. */
    method Clone() returns (c: Graph)
      requires Sound()
      ensures fresh(c) && c.Sound() && c.entities == entities
      ensures c.all == all && c.fields == fields && c.edges == edges && c.discarded == discarded
      ensures forall open :: Closed(open) ==> c.Closed(open)
    {
      hide Belong, Marked, ClosedOver;
      c := new Graph();
      c.entities := entities;
      c.all, c.fields, c.edges, c.discarded := all, fields, edges, discarded;
    }

    ghost function Sources(): map<string, MessageDecl>
      reads `entities
    {
      map n | n in entities :: entities[n].source
    }

    /** Each message of a file in turn, past failures too; true when none failed. */
    method ParseMessages(pool: map<string, MessageDecl>, file: seq<MessageDecl>, ghost clean: bool) returns (ok: bool)
      requires PoolOk(pool) && Sound() && (clean ==> Closed(map[]))
      requires forall m <- file :: m.name in pool && pool[m.name] == m
      modifies this, edges`unique, edges`pair
      ensures Sound() && Extends(pool)
      ensures ok ==> forall m <- file :: m.isEntity ==> m.name in entities
      ensures clean && ok ==> Closed(map[])
      ensures !ok ==> Blamed(pool, old(Sources()), clean, file, edges)
    {
      hide Sound, Closed, PoolOk, Justified, Blocked;
      ghost var known := Sources();
      var errs := 0;
      ghost var who, why := MessageDecl("", false, [], []), Unsound;
      ghost var blocker: ProtoEdge? := null;
      assert Knows(entities, pool, known, map[]);
      NowIs();
      LaterSame(Now(), pool);
      assert known.Keys == entities.Keys;
      hide Knows, Evidence, Later, Now, Answers, Sources, Blamed;
      for i := 0 to |file|
        invariant Sound() && Extends(pool) && Knows(entities, pool, known, map[])
        invariant errs == 0 ==> forall j | 0 <= j < i :: file[j].isEntity ==> file[j].name in entities
        invariant clean && errs == 0 ==> Closed(map[])
        invariant errs > 0 ==> who in file && who.isEntity && who.name !in known
        invariant errs > 0 ==> Justified(pool, known, map[], clean, who, why)
        invariant errs > 0 && Blocked(why).Some? ==>
                    blocker != null && blocker in edges && blocker.unique && Answers(blocker, Blocked(why).value)
      {
        var r;
        ghost var w;
        ghost var reached := Now();
        NowIs();
        r, w := ParseEntity(pool, file[i], pool.Keys, known, map[], clean && errs == 0);
        NowIs();
        LaterMeans(reached, Now(), pool);
        LaterStill(old(Now()), reached, Now(), pool);
        if r.Failed? {
          if errs == 0 {
            who, why := file[i], w;
            if Blocked(why).Some? { blocker := BlockerFor(edges, Blocked(why).value); }
          }
          errs := errs + 1;
        }
      }
      ok := errs == 0;
      if !ok { Blames(pool, known, clean, file, edges, who, why, blocker); }
    }

    /** A file parsed into a clone; this graph keeps its map whatever happens, and remembers what was made. */
    method Stage(pool: map<string, MessageDecl>, file: seq<MessageDecl>) returns (staged: Graph, ok: bool)
      requires PoolOk(pool) && Sound()
      requires forall m <- file :: m.name in pool && pool[m.name] == m
      modifies edges`unique, edges`pair
      ensures fresh(staged) && staged.Sound()
      ensures forall n <- entities :: n in staged.entities && staged.entities[n] == entities[n]
      ensures forall n <- staged.entities :: n !in entities ==> n in pool && staged.entities[n].source == pool[n] && pool[n].isEntity
      ensures all <= staged.all && staged.discarded == discarded
      ensures forall ed <- edges :: old(ed.unique) ==> ed.unique
      ensures ok ==> forall m <- file :: m.isEntity ==> m.name in staged.entities
      ensures old(Closed(map[])) && ok ==> staged.Closed(map[])
      ensures !ok ==> Blamed(pool, Sources(), old(Closed(map[])), file, staged.edges)
    {
      hide Closed, PoolOk, Blamed;
      staged := Clone();
      assert staged.Sources() == Sources();
      ok := staged.ParseMessages(pool, file, Closed(map[]));
    }

    /** Staging marks edges of this graph's entities, and they stay closed all the same. */
    method StageBeside(pool: map<string, MessageDecl>, file: seq<MessageDecl>) returns (staged: Graph, ok: bool)
      requires PoolOk(pool) && Sound()
      requires forall m <- file :: m.name in pool && pool[m.name] == m
      modifies edges`unique, edges`pair
      ensures fresh(staged) && staged.Sound()
      ensures forall n <- entities :: n in staged.entities && staged.entities[n] == entities[n]
      ensures forall n <- staged.entities :: n !in entities ==> n in pool && staged.entities[n].source == pool[n] && pool[n].isEntity
      ensures all <= staged.all && staged.discarded == discarded
      ensures ok ==> forall m <- file :: m.isEntity ==> m.name in staged.entities
      ensures old(Closed(map[])) && ok ==> staged.Closed(map[])
      ensures old(Closed(map[])) ==> Closed(map[])
      ensures !ok ==> Blamed(pool, Sources(), old(Closed(map[])), file, staged.edges)
    {
      hide Belong, Marked, PoolOk, Blamed, Linked, MessageOk, Shapes, Kept, KeyMarked, Sources;
      ghost var closed := Closed(map[]);
      OwnEdges();
      staged, ok := Stage(pool, file);
      if closed {
        forall n | n in entities ensures Linked(entities, entities[n]) && Finished(entities[n]) {
          assert old(Linked(entities, entities[n]) && Finished(entities[n]));
          forall p | p in entities[n].props && p.E? ensures Paired(p.e) {
            assert p.e in edges && old(Paired(p.e));
          }
        }
      }
    }

    /** What a file made is remembered; that of a failed one as discarded, except for the marks it left on older edges. */
    ghost method Absorb(staged: Graph, ok: bool)
      requires staged != this && staged.Sound() && all <= staged.all
      requires forall n <- entities :: n in staged.entities && staged.entities[n] == entities[n]
      modifies this
      ensures Sound() && entities == old(entities) && all == staged.all && edges == staged.edges
      ensures discarded == if ok then old(discarded) else old(discarded) + (staged.all - old(all))
      ensures old(Closed(map[])) && !ok ==> Closed(map[])
    {
      hide ClosedOver, Belong, Marked;
      discarded := if ok then discarded else discarded + (staged.all - all);
      all, fields, edges := staged.all, staged.fields, staged.edges;
    }

    /** An edge's message is registered once the entity is linked and finished. */
    lemma LeadsIn(v: ProtoEntity, f: FieldDecl, n: string)
      requires Linked(entities, v) && Finished(v) && f in v.source.fields && LeadsTo(f, n)
      ensures n in entities
    {
      KeptHolds(v.source.fields, f);
      var i :| 0 <= i < |v.props| && Shapes(v.props)[i] == Shape(f.desc, Rule(f));
      assert ShapeOf(v.props[i]) == Shape(f.desc, Rule(f)) && v.props[i] in v.props;
    }

    /** Everything a parsed file needs is registered, and met its own checks. */
    lemma NeededAreFit(pool: map<string, MessageDecl>, known: set<string>, file: seq<MessageDecl>)
      requires Closed(map[]) && forall m <- file :: m.isEntity ==> m.name in entities
      requires forall n <- entities :: n in known || (n in pool && entities[n].source == pool[n] && pool[n].isEntity)
      ensures AllFit(pool, known, file)
    {
      hide Rule, MessageOk, LeadsTo;
      forall a, b | a in entities && Next(pool, known, a, b) ensures b in entities {
        var f :| f in pool[a].fields && LeadsTo(f, b);
        LeadsIn(entities[a], f, b);
      }
      forall n | Reached(pool, known, file, n) ensures n in known || (n in pool && pool[n].isEntity && MessageOk(pool[n])) {
        var path :| Chain(pool, known, file, path) && path[|path| - 1] == n;
        ClosedHoldsChain(pool, known, file, entities.Keys, path);
        assert Finished(entities[n]);
      }
    }

    /**
     Transactional over the entity map: a file is staged in a clone and merged only if all
     of it parses. If it does not, one of its entities fails for a reason.
     */
    method ParseFile(pool: map<string, MessageDecl>, file: seq<MessageDecl>) returns (ok: bool)
      requires PoolOk(pool) && Sound()
      requires forall m <- file :: m.name in pool && pool[m.name] == m
      modifies this, edges`unique, edges`pair
      ensures Sound()
      ensures !ok ==> entities == old(entities) && Blamed(pool, old(Sources()), old(Closed(map[])), file, edges)
      ensures forall n <- old(entities) :: n in entities && entities[n] == old(entities[n])
      ensures forall n <- entities :: n in old(entities) || (n in pool && entities[n].source == pool[n] && pool[n].isEntity)
      ensures ok ==> discarded == old(discarded) && forall m <- file :: m.isEntity ==> m.name in entities
      ensures old(Closed(map[])) ==> Closed(map[])
    {
      hide Sound, ClosedOver, PoolOk, Blamed;
      var staged;
      staged, ok := StageBeside(pool, file);
      Absorb(staged, ok);
      if ok {
        Overridden(entities, staged.entities);
        InPlaceMerge(staged);
      }
    }

    /** What is reached and fit, without back references, is not to blame. */
    lemma NoneToBlame(pool: map<string, MessageDecl>, known: map<string, MessageDecl>, clean: bool, file: seq<MessageDecl>)
      requires NoBackRefs(pool, known.Keys, file) && AllFit(pool, known.Keys, file)
      requires forall m <- file :: m.name in pool && pool[m.name] == m
      ensures !Blamed(pool, known, clean, file, edges)
    {
      hide NoBackRefs, AllFit, Acceptable, Justified;
      var fit := ReachedSet(pool, known.Keys, file);
      ReachedIsAcceptable(pool, known.Keys, file);
      forall m, why | m in file && m.isEntity && m.name !in known ensures !Justified(pool, known, map[], clean, m, why) {
        AcceptableIsNotJustified(pool, known, map[], clean, fit, m.name, why);
      }
    }

    /**
     A file that fails leaves the entity map as it was, and fails for a reason; one that
     parses registers each of its entities. Without back references, a file parses
     exactly when every message reachable from it by edges is registered already or
     meets its own checks.
     */
    method Parse(pool: map<string, MessageDecl>, file: seq<MessageDecl>) returns (ok: bool)
      requires PoolOk(pool) && Sound()
      requires forall m <- file :: m.name in pool && pool[m.name] == m
      modifies this, edges`unique, edges`pair
      ensures Sound()
      ensures !ok ==> entities == old(entities) && Blamed(pool, old(Sources()), old(Closed(map[])), file, edges)
      ensures forall n <- old(entities) :: n in entities && entities[n] == old(entities[n])
      ensures forall n <- entities :: n !in old(entities) ==> n in pool && entities[n].source == pool[n]
      ensures ok ==> discarded == old(discarded) && forall m <- file :: m.isEntity ==> m.name in entities
      ensures old(Closed(map[])) ==> Closed(map[])
      ensures old(Closed(map[])) && ok ==> AllFit(pool, old(entities.Keys), file)
      ensures NoBackRefs(pool, old(entities.Keys), file) && AllFit(pool, old(entities.Keys), file) ==> ok
    {
      hide Sound, Closed, PoolOk, AllFit, NoBackRefs, Blamed;
      ghost var known, closed := Sources(), Closed(map[]);
      assert known.Keys == entities.Keys;
      ok := ParseFile(pool, file);
      if ok {
        if closed { NeededAreFit(pool, known.Keys, file); }
      } else if NoBackRefs(pool, known.Keys, file) && AllFit(pool, known.Keys, file) {
        NoneToBlame(pool, known, closed, file);
      }
    }

    lemma Overridden(a: map<string, ProtoEntity>, b: map<string, ProtoEntity>)
      requires a.Keys <= b.Keys
      ensures a + b == b
    {
    }

    lemma PairIsRegistered(ed: ProtoEdge)
      requires Sound() && Closed(map[]) && discarded == {} && ed in edges && ed.pair != null
      ensures exists n <- entities, p <- entities[n].props :: p.E? && EndOf(ed, p.e)
    {
      hide ClosedOver;
      var c := ed.pair;
      assert Registered(c.owner) && E(c) in entities[c.owner.source.name].props && EndOf(ed, E(c).e);
    }

    lemma PairIsUnique(v: ProtoEntity, c: ProtoEdge)
      requires Finished(v) && E(c) in v.props && IsPair(c)
      ensures c.unique && c.inverse.unique
    {
      assert Paired(E(c).e);
    }

    /**
     When no file has failed: an edge of a registered entity is unique if and only if it
     was declared unique or is one end of a singular pair that a registered entity's
     back reference names.
     */
    lemma UniqueIsDeclaredOrPaired(v: ProtoEntity, ed: ProtoEdge)
      requires Sound() && Closed(map[]) && discarded == {} && Registered(v) && E(ed) in v.props
      ensures ed.unique <==>
              Get(ed.opts.unique) || exists n <- entities, p <- entities[n].props :: p.E? && EndOf(ed, p.e)
    {
      hide Finished, Linked;
      assert E(ed).e in edges by { OwnAll(); }
      if ed.pair != null { PairIsRegistered(ed); }
      if n, p :| n in entities && p in entities[n].props && p.E? && EndOf(ed, p.e) {
        PairIsUnique(entities[n], p.e);
      }
    }

    /** The entities of `h` join this graph's, and replace those of the same name. */
    method InPlaceMerge(h: Graph)
      requires Sound() && h.Sound()
      modifies this
      ensures entities == old(entities) + old(h.entities)
      ensures all == old(all) + old(h.all) && discarded == old(discarded) + old(h.discarded)
      ensures Sound()
    {
      hide Belong, Marked;
      BelongJointly(all, fields, edges, h.all, h.fields, h.edges);
      entities := entities + h.entities;
      all, fields, edges := all + h.all, fields + h.fields, edges + h.edges;
      discarded := discarded + h.discarded;
      forall n <- entities ensures entities[n] in all && entities[n].source.name == n {
        if n !in old(h.entities) { assert n in old(entities); }
      }
    }
  }
}
