/** What a parsed graph guarantees the patch engine: the entities it compiles against are well formed. */
module ParsedSchemas {
  import opened Values
  import opened Schema
  import opened FieldRules
  import opened Layout
  import Elaboration
  import Requests
  import C = MessageChecks
  import P = GraphParser

  function Declared(fields: seq<FieldDecl>): seq<FieldDesc> {
    if fields == [] then [] else Declared(fields[..|fields| - 1]) + [fields[|fields| - 1].desc]
  }

  /** `p` is what the engine sees of a parsed prop. */
  ghost predicate DepictsProp(p: Prop, r: P.PropRef)
    reads if r.F? then {r.f} else {}
    reads if r.E? then {r.e.target} else {}
    reads if r.E? && r.e.target.key != null then {r.e.target.key} else {}
  {
    match r
    case F(f) => p == Field(f.desc, f.opts)
    case E(ed) =>
      p.Edge? && p.desc == ed.desc && p.eopts == ed.opts
      && p.target.fields == Declared(ed.target.source.fields)
      && (ed.target.key != null ==> p.target.key == ed.target.key.desc && p.target.keyType == ed.target.key.opts.typ)
  }

  /** `e` is what the engine sees of a parsed entity. */
  ghost predicate Depicts(e: Entity, v: P.ProtoEntity)
    reads v, set r | r in v.props && r.F? :: r.f
    reads set r | r in v.props && r.E? :: r.e.target
    reads set r | r in v.props && r.E? && r.e.target.key != null :: r.e.target.key
  {
    && e.fullName == v.source.name && e.declared == Declared(v.source.fields)
    && |e.props| == |v.props| && forall i | 0 <= i < |v.props| :: DepictsProp(e.props[i], v.props[i])
  }

  /** The fields that become props are declared ones, legal, and no two of them share a number. */
  lemma {:induction false} KeptAreDeclared(fields: seq<FieldDecl>)
    requires DistinctDescriptors(Declared(fields))
    ensures forall s <- C.Kept(fields) :: s.desc in Declared(fields) && (s.rule.AsField? ==> Legal(s.rule.fopts))
    ensures forall i, j | 0 <= i < j < |C.Kept(fields)| :: C.Kept(fields)[i].desc.number != C.Kept(fields)[j].desc.number
  {
    if fields == [] {
    } else {
      var init, last := fields[..|fields| - 1], fields[|fields| - 1].desc;
      assert Declared(fields) == Declared(init) + [last];
      assert forall i | 0 <= i < |Declared(init)| :: Declared(init)[i] == Declared(fields)[i];
      KeptAreDeclared(init);
      RuledIsLegal(fields[|fields| - 1]);
      forall d | d in Declared(init) ensures d.number != last.number {
        var k :| 0 <= k < |Declared(init)| && Declared(init)[k] == d;
        assert Declared(fields)[k] == d && Declared(fields)[|Declared(init)|] == last;
      }
    }
  }

  lemma KeyIsDeclared(v: P.ProtoEntity)
    requires P.Finished(v) && DistinctDescriptors(Declared(v.source.fields))
    ensures v.key.desc in Declared(v.source.fields)
  {
    KeptAreDeclared(v.source.fields);
    var i :| 0 <= i < |v.props| && v.props[i] == P.F(v.key);
    assert P.Shapes(v.props)[i] in C.Kept(v.source.fields);
  }

  lemma PropsAreDistinct(e: Entity, v: P.ProtoEntity)
    requires P.Finished(v) && Depicts(e, v) && DistinctDescriptors(e.declared)
    ensures WellFormed(e)
  {
    KeptAreDeclared(v.source.fields);
    forall i | 0 <= i < |e.props| ensures e.props[i].desc == C.Kept(v.source.fields)[i].desc {
      assert P.Shapes(v.props)[i] == P.ShapeOf(v.props[i]);
      assert DepictsProp(e.props[i], v.props[i]);
    }
    forall p <- e.props ensures p.desc in e.declared {
      var i :| 0 <= i < |e.props| && e.props[i] == p;
      assert C.Kept(v.source.fields)[i] in C.Kept(v.source.fields);
    }
  }

  /** Each field the engine sees is one the parser finished: the options given, and on the key its marks. */
  lemma FieldAt(e: Entity, v: P.ProtoEntity, i: nat)
    requires P.Finished(v) && Depicts(e, v) && i < |e.props| && e.props[i].Field?
    ensures var s, o := C.Kept(v.source.fields)[i], e.props[i].fopts;
            && s.rule.AsField? && Legal(s.rule.fopts)
            && o == if s.IsKey() then s.rule.fopts.(unique := Some(true), immutable := Some(true)) else s.rule.fopts
  {
    assert DepictsProp(e.props[i], v.props[i]) && v.props[i] in v.props;
    assert P.Shapes(v.props)[i] == P.ShapeOf(v.props[i]) && P.Shapes(v.props)[i] in C.Kept(v.source.fields);
    C.KeptIsDeclared(v.source.fields, P.Shapes(v.props)[i]);
    var d :| d in v.source.fields && P.Shapes(v.props)[i] == C.Shape(d.desc, Rule(d));
    RuledIsLegal(d);
    var k :| 0 <= k < |v.props| && v.props[k] == P.F(v.key);
    assert P.Shapes(v.props)[k].IsKey();
  }

  lemma KeyIsFixed(e: Entity, v: P.ProtoEntity)
    requires P.Finished(v) && Depicts(e, v)
    ensures exists p <- e.props :: p.Field? && p.fopts.key
    ensures forall p <- e.props :: p.Field? && p.fopts.key ==> p.IsImmutable() && !p.IsVersion()
  {
    var ss := C.Kept(v.source.fields);
    var k: nat :| C.OnlyKey(ss, k);
    assert DepictsProp(e.props[k], v.props[k]) && P.Shapes(v.props)[k] == P.ShapeOf(v.props[k]);
    FieldAt(e, v, k);
    assert e.props[k] in e.props;
    forall p <- e.props | p.Field? && p.fopts.key ensures p.IsImmutable() && !p.IsVersion() {
      var i :| 0 <= i < |e.props| && e.props[i] == p;
      FieldAt(e, v, i);
    }
  }

  lemma VersionShapes(e: Entity, v: P.ProtoEntity)
    requires P.Finished(v) && Depicts(e, v)
    ensures |e.props| == |C.Kept(v.source.fields)| && C.Singles(C.Kept(v.source.fields))
    ensures forall i | 0 <= i < |e.props| && e.props[i].IsVersion() ::
              C.Kept(v.source.fields)[i].IsVersion() && Legal(e.props[i].fopts)
  {
    forall i | 0 <= i < |e.props| && e.props[i].IsVersion()
      ensures C.Kept(v.source.fields)[i].IsVersion() && Legal(e.props[i].fopts)
    {
      FieldAt(e, v, i);
    }
  }

  lemma VersionIsOne(e: Entity, v: P.ProtoEntity)
    requires P.Finished(v) && Depicts(e, v)
    ensures forall p <- e.props :: p.IsVersion() ==> p in PatchProps(e.props) && FlagOf(p) == ForceFlag && p.Type() == TypeTime
    ensures forall p <- e.props :: p.IsVersion() ==> (p.IsNullable() <==> p.desc.card == Single && p.desc.optionalKeyword)
    ensures forall p <- e.props, q <- e.props :: p.IsVersion() && q.IsVersion() ==> p == q
  {
    hide P.Finished, Depicts, PatchProps;
    VersionShapes(e, v);
    forall p <- e.props | p.IsVersion() ensures p in PatchProps(e.props) && FlagOf(p) == ForceFlag && p.Type() == TypeTime {
      VersionIsPatchable(e, p);
    }
  }

  lemma TargetsHaveKeys(g: P.Graph, v: P.ProtoEntity, e: Entity)
    requires g.Closed(map[]) && v in g.entities.Values && Depicts(e, v)
    requires forall u <- g.entities.Values :: DistinctDescriptors(Declared(u.source.fields))
    ensures forall p <- e.props :: p.Edge? ==> p.target.key in p.target.fields && DistinctDescriptors(p.target.fields)
  {
    assert P.Linked(g.entities, v);
    forall p <- e.props | p.Edge? ensures p.target.key in p.target.fields && DistinctDescriptors(p.target.fields) {
      var i :| 0 <= i < |e.props| && e.props[i] == p;
      assert DepictsProp(p, v.props[i]) && v.props[i] in v.props;
      var t := v.props[i].e.target;
      assert t in g.entities.Values && P.Finished(t);
      KeyIsDeclared(t);
    }
  }

  /**
   An entity registered in a closed graph is what the engine needs: its props are
   distinct declared fields, every edge's target has a key among its own fields, its
   key is immutable, and its version field, if any, is the only one and is patchable.
   */
  lemma ParsedIsUsable(g: P.Graph, v: P.ProtoEntity, e: Entity)
    requires g.Closed(map[]) && v in g.entities.Values && Depicts(e, v)
    requires forall u <- g.entities.Values :: DistinctDescriptors(Declared(u.source.fields))
    ensures WellFormed(e)
    ensures forall p <- e.props :: p.Edge? ==> p.target.key in p.target.fields && DistinctDescriptors(p.target.fields)
    ensures exists p <- e.props :: p.Field? && p.fopts.key
    ensures forall p <- e.props :: p.Field? && p.fopts.key ==> p.IsImmutable() && !p.IsVersion()
    ensures forall p <- e.props :: p.IsVersion() ==> p in PatchProps(e.props) && FlagOf(p) == ForceFlag && p.Type() == TypeTime
    ensures forall p <- e.props :: p.IsVersion() ==> (p.IsNullable() <==> p.desc.card == Single && p.desc.optionalKeyword)
    ensures forall p <- e.props, q <- e.props :: p.IsVersion() && q.IsVersion() ==> p == q
  {
    hide P.Finished, Depicts;
    assert P.Finished(v);
    assert e.declared == Declared(v.source.fields) by { DepictsDeclared(e, v); }
    PropsAreDistinct(e, v);
    KeyIsFixed(e, v);
    VersionIsOne(e, v);
    TargetsHaveKeys(g, v, e);
  }

  lemma DepictsDeclared(e: Entity, v: P.ProtoEntity)
    requires Depicts(e, v)
    ensures e.declared == Declared(v.source.fields)
  {
  }

  /** With a singular version field, that is everything a request's end-to-end meaning asks of a schema. */
  lemma ParsedSchemaOk(g: P.Graph, v: P.ProtoEntity, e: Entity)
    requires g.Closed(map[]) && v in g.entities.Values && Depicts(e, v)
    requires forall u <- g.entities.Values :: DistinctDescriptors(Declared(u.source.fields))
    ensures Requests.SchemaOk(e) <==> forall p <- e.props :: p.IsVersion() ==> p.desc.card == Single
  {
    hide P.Finished, g.Closed, Depicts;
    ParsedIsUsable(g, v, e);
    SchemaOkIff(e);
  }

  lemma SchemaOkIff(e: Entity)
    requires WellFormed(e)
    requires forall p <- e.props :: p.Edge? ==> p.target.key in p.target.fields && DistinctDescriptors(p.target.fields)
    requires forall p <- e.props :: p.IsVersion() ==> p.Type() == TypeTime
    ensures Requests.SchemaOk(e) <==> forall p <- e.props :: p.IsVersion() ==> p.desc.card == Single
  {
  }
}
