/** Where a path leads, and what a reference to a field comes to (`walk`, `enter` and `resolve`). */
module Routes {
  import opened Values
  import opened Schema
  import opened Elaboration
  import opened Bookkeeping
  import opened Nesting
  import Doc = Documents

  /** A reference is a column's, or vacant, or refused: in conflict, or to a declared field that has no column. */
  lemma ResolveMeans(e: Entity, types: Types, ref: FieldRef)
    requires WellFormed(e)
    ensures forall p :: Resolve(NewEnv(e, types), ref) == Known(p) <==>
                        p in e.props && ResolveField(e.declared, ref) == Found(p.desc)
    ensures Resolve(NewEnv(e, types), ref).NoField? <==> ResolveField(e.declared, ref).Vacant?
    ensures Resolve(NewEnv(e, types), ref).Refused? <==>
            var r := ResolveField(e.declared, ref);
            r.Conflict? || (r.Found? && forall p <- e.props :: p.desc != r.field)
  {
    var env, r := NewEnv(e, types), ResolveField(e.declared, ref);
    ByNumberFiles(e.props);
    if r.Found? {
      FoundIsDeclared(e.declared, ref);
      forall p <- e.props | p.Number() == r.field.number ensures p.desc == r.field {
        var i :| 0 <= i < |e.declared| && e.declared[i] == p.desc;
        var j :| 0 <= j < |e.declared| && e.declared[j] == r.field;
      }
    }
  }

  /** The container a column is, if it is one. */
  ghost predicate IsPlaceOf(t: Place, p: Prop) {
    match t
    case Root => false
    case InMap(q) => q == p && p.Field? && p.desc.card == Mapped
    case InList(q) => q == p && p.desc.card == Repeated
    case InEdge(q) => q == p && p.Edge? && p.desc.card != Repeated
  }

  /** A path leads nowhere new, or from the root, by one field key, into a map, a list or an edge. */
  lemma WalkMeans(env: Env, s: Place, segs: seq<Doc.Key>, t: Place)
    ensures Walk(env, s, segs) == Some(t) <==>
            || (segs == [] && t == s)
            || (s == Root && |segs| == 1 && segs[0].FieldKey? &&
                exists p :: Resolve(env, segs[0].field) == Known(p) && IsPlaceOf(t, p))
  {
    if segs == [] {
    } else {
      var r := Follow(env, s, segs[0]);
      FollowMeans(env, s, segs[0]);
      if r.Some? {
        assert !r.value.Root?;
        if |segs| == 1 {
          assert segs[1..] == [];
        } else {
          assert segs[1..] != [] && Walk(env, r.value, segs[1..]) == None;
        }
      }
    }
  }

  lemma FollowMeans(env: Env, s: Place, seg: Doc.Key)
    ensures forall t :: Follow(env, s, seg) == Some(t) <==>
                        s == Root && seg.FieldKey? && exists p :: Resolve(env, seg.field) == Known(p) && IsPlaceOf(t, p)
  {
  }

  /** Nest targets and path together: no route of two segments or more is followed. */
  lemma LongRouteRefused(env: Env, e: Doc.Entry, depth: nat)
    requires |e.path| >= 2
    ensures OneEntry(env, e, Root, depth) == None
  {
    var r := Walk(env, Root, e.path);
    if r.Some? { WalkMeans(env, Root, e.path, r.value); }
  }

  predicate Compiles(env: Env, e: Doc.Entry, s: Place, depth: nat) {
    OneEntry(env, e, s, depth).Some?
  }

  lemma {:induction false} EntriesEach(env: Env, es: seq<Doc.Entry>, s: Place, depth: nat)
    ensures Entries(env, es, s, depth).Some? <==> forall e <- es :: Compiles(env, e, s, depth)
    decreases es
  {
    if es == [] {
    } else {
      EntriesEach(env, es[1..], s, depth);
      assert forall e :: e in es <==> e == es[0] || e in es[1..];
      assert Entries(env, es, s, depth).Some? <==> Compiles(env, es[0], s, depth) && Entries(env, es[1..], s, depth).Some?;
      assert (forall e <- es :: Compiles(env, e, s, depth)) <==> Compiles(env, es[0], s, depth) && forall e <- es[1..] :: Compiles(env, e, s, depth);
    }
  }

  /** However it is nested: an entry whose whole route has two segments or more keeps its document from compiling. */
  lemma LongRoutesRefused(env: Env, doc: Doc.Document, e: Doc.Entry)
    requires Filled(doc.delta) && e in Flatten(doc.delta, []) && |e.path| >= 2
    ensures Compiled(env, doc) == None
  {
    NestingIsPrefix(env, doc);
    EntriesEach(env, Flatten(doc.delta, []), Root, 0);
    LongRouteRefused(env, e, 0);
    assert !Compiles(env, e, Root, 0);
  }

  // A declared field that has no column.
  ghost predicate Columnless(e: Entity, ref: FieldRef) {
    var r := ResolveField(e.declared, ref);
    r.Found? && forall p <- e.props :: p.desc != r.field
  }

  ghost predicate Names(e: Doc.Entry, ref: FieldRef) {
    || (e.path != [] && e.path[0] == Doc.FieldKey(ref))
    || (e.path == [] && e.scope.Targets? && Doc.ByKey(Doc.FieldKey(ref)) in e.scope.selectors)
  }

  /** An entry that names a declared field without a column is refused, skip or test it as it may. */
  lemma ColumnlessRefused(e: Entity, types: Types, doc: Doc.Document, entry: Doc.Entry, ref: FieldRef)
    requires WellFormed(e) && Columnless(e, ref)
    requires Filled(doc.delta) && entry in Flatten(doc.delta, []) && Names(entry, ref)
    ensures Compiled(NewEnv(e, types), doc) == None
  {
    var env := NewEnv(e, types);
    ResolveMeans(e, types, ref);
    if entry.path != [] {
      var r := Walk(env, Root, entry.path);
      if r.Some? { WalkMeans(env, Root, entry.path, r.value); }
    } else if OneEntry(env, entry, Root, 0).Some? {
      assert Walk(env, Root, entry.path) == Some(Root);
      FlatTargets(env, entry, ref);
    }
    NestingIsPrefix(env, doc);
    EntriesEach(env, Flatten(doc.delta, []), Root, 0);
  }

  lemma FlatTargets(env: Env, e: Doc.Entry, ref: FieldRef)
    requires e.path == [] && e.scope.Targets? && Resolve(env, ref).Refused?
    requires Doc.ByKey(Doc.FieldKey(ref)) in e.scope.selectors
    ensures OneEntry(env, e, Root, 0) == None
  {
    var sel, sels := Doc.ByKey(Doc.FieldKey(ref)), e.scope.selectors;
    assert Walk(env, Root, e.path) == Some(Root);
    assert OneEntry(env, e, Root, 0) == OnTargets(env, e, sels, Root, 0);
    if e.op.Nest? {
      assert |sels| == 1 ==> sels[0] == sel;
    } else {
      SelectorRefused(env, e, sels, {}, sel);
    }
  }

  lemma {:induction false} SelectorRefused(env: Env, e: Doc.Entry, sels: seq<Doc.Selector>, seen: set<Ident>, sel: Doc.Selector)
    requires sel in sels && One(env, e, Root, sel).None?
    ensures Selectors(env, e, sels, Root, seen).None?
    decreases sels
  {
    if sels[0] == sel {
    } else {
      SelectorRefused(env, e, sels[1..], seen + {IdentOf(env, Root, sels[0])}, sel);
    }
  }
}
