/** A schema whose back reference resolves: the doubly linked node of examples/graphtest/edge_o2o.proto. */
module BackReferences {
  import opened Values
  import opened Schema
  import opened FieldRules
  import opened MessageChecks
  import opened GraphParser

  const NODE_KIND := MessageKind("graphtest.Node")

  const ID := FieldDecl(FieldDesc(1, "id", Single, ScalarKind(5), StringKind, "", false, false),
                        Some(NO_FIELD_OPTS.(key := true)), None)
  const NEXT := FieldDecl(FieldDesc(2, "next", Single, NODE_KIND, StringKind, "", false, false),
                          None, Some(EdgeOpts(None, None, None, None, false)))
  const PREV := FieldDecl(FieldDesc(3, "prev", Single, NODE_KIND, StringKind, "", false, false),
                          None, Some(EdgeOpts(None, None, None, Some(BackRef("next", 2)), false)))
  const NODE := MessageDecl("graphtest.Node", true, [ID, NEXT, PREV], [])
  const POOL := map["graphtest.Node" := NODE]

  function Ruled(f: FieldDecl): Shape {
    Shape(f.desc, Rule(f))
  }

  lemma NodeKept()
    ensures Kept(NODE.fields) == [Ruled(ID), Ruled(NEXT), Ruled(PREV)]
  {
    assert NODE.fields[..0] == [];
    KeptGrows(NODE.fields, 0);
    KeptGrows(NODE.fields, 1);
    KeptGrows(NODE.fields, 2);
    assert NODE.fields[..3] == NODE.fields;
  }

  lemma NodeIsOk()
    ensures MessageOk(NODE)
  {
    NodeKept();
    var ss := Kept(NODE.fields);
    assert OnlyKey(ss, 0);
    assert Singles(ss);
  }

  /** Nothing keeps the node from being parsed: its one back reference names an edge of its own. */
  lemma NodeHasNoFault(why: Why)
    ensures !Justified(POOL, map[], map[], true, NODE, why)
  {
    NodeIsOk();
    NodeKept();
    match why {
      case Unmatched(f, seen) =>
        if RefersBack(NODE, f) {
          assert f == PREV;
          var ss := Kept(NODE.fields);
          assert FirstNumbered(ss, 2) == 1;
          assert Matched(ss, BackRef("next", 2));
        }
      case Taken(f) =>
      case BadTarget(i, cause) =>
      case Unsound =>
    }
  }

  lemma NodeIsBlameless(edges: set<ProtoEdge>)
    ensures !Blamed(POOL, map[], true, [NODE], edges)
  {
    hide Justified;
    forall why ensures !Justified(POOL, map[], map[], true, NODE, why) {
      NodeHasNoFault(why);
    }
  }

  /** The node's `prev` edge has the inverse it names, and both are unique. */
  ghost predicate OneToOne(v: ProtoEntity)
    reads v, set p | p in v.props && p.E? :: p.e
    reads set p | p in v.props && p.E? && p.e.inverse != null :: p.e.inverse
  {
    |v.props| == 3 && v.props[2].E? &&
    var prev := v.props[2].e;
    prev.desc == PREV.desc && prev.unique && prev.inverse != null && prev.inverse.unique && prev.inverse.desc.name == "next"
  }

  lemma NodeProps(v: ProtoEntity)
    requires Shapes(v.props) == Kept(v.source.fields) && v.source == NODE
    ensures |v.props| == 3 && v.props[0].F? && v.props[1].E? && v.props[2].E?
    ensures v.props[1].e.desc == NEXT.desc && v.props[2].e.desc == PREV.desc && v.props[2].e.opts == PREV.oe.value
  {
    NodeKept();
    var ss := Kept(NODE.fields);
    forall i | 0 <= i < 3 ensures ShapeOf(v.props[i]) == ss[i] {
      assert Shapes(v.props)[i] == ShapeOf(v.props[i]);
    }
  }

  lemma FinishedIsOneToOne(g: Graph, v: ProtoEntity)
    requires g.Sound() && g.Closed(map[]) && NODE.name in g.entities && g.entities[NODE.name] == v && v.source == NODE
    ensures OneToOne(v)
  {
    hide Shapes, Kept, MessageOk, KeyMarked, Marked, Rule;
    assert Finished(v) && Linked(g.entities, v);
    NodeProps(v);
    var prev := v.props[2].e;
    assert v.props[2] in v.props && Paired(prev) && prev.target == v;
    assert prev in g.edges && E(prev.inverse) in v.props;
    var k :| 0 <= k < |v.props| && v.props[k] == E(prev.inverse);
    assert k == 1;
  }

  /** It parses, and both ends of the pair are unique. */
  method ParseNode() returns (g: Graph)
    ensures fresh(g) && g.Sound() && g.Closed(map[])
    ensures NODE.name in g.entities && OneToOne(g.entities[NODE.name])
  {
    hide Blamed, OneToOne, MessageOk, Belong, Marked, AllFit, NoBackRefs;
    g := new Graph();
    assert g.Sources() == map[];
    assert g.Closed(map[]) && g.Sound() by { EmptyIsSound(); }
    var ok := g.Parse(POOL, [NODE]);
    NodeIsBlameless(g.edges);
    assert NODE in [NODE];
    FinishedIsOneToOne(g, g.entities[NODE.name]);
  }

  lemma EmptyIsSound()
    ensures Belong({}, {}, {}) && Marked({})
  {
  }
}
