/** Nesting is only a shared prefix: a nested document is its entries with the nest's target as their path. */
module Nesting {
  import opened Values
  import opened Schema
  import opened Plans
  import opened Elaboration
  import opened Bookkeeping
  import Doc = Documents

  function Flatten(es: seq<Doc.Entry>, prefix: seq<Doc.Key>): seq<Doc.Entry>
    decreases es, 1
  {
    if es == [] then [] else FlattenEntry(es[0], prefix) + Flatten(es[1..], prefix)
  }

  function FlattenEntry(e: Doc.Entry, prefix: seq<Doc.Key>): seq<Doc.Entry>
    decreases e, 0
  {
    if !NamesContainer(e) then [e.(path := prefix + e.path)]
    else if e.scope.Container? then Flatten(e.op.delta, prefix + e.path)
    else Flatten(e.op.delta, prefix + e.path + [e.scope.selectors[0].key])
  }

  /** A nest into one named container. */
  predicate NamesContainer(e: Doc.Entry) {
    e.op.Nest? &&
    (e.scope.Container? || (e.scope.Targets? && |e.scope.selectors| == 1 && e.scope.selectors[0].ByKey?))
  }

  /** Normalized documents nest no empty delta. */
  predicate Filled(es: seq<Doc.Entry>)
    decreases es, 1
  {
    es == [] || (FilledEntry(es[0]) && Filled(es[1..]))
  }

  predicate FilledEntry(e: Doc.Entry)
    decreases e, 0
  {
    e.op.Nest? ==> e.op.delta != [] && Filled(e.op.delta)
  }

  // The container a nest opens, reached from `s`.
  function Opened(env: Env, e: Doc.Entry, s: Place): Option<Place>
    requires NamesContainer(e)
  {
    match Walk(env, s, e.path)
    case None => None
    case Some(t) => if e.scope.Container? then Some(t) else Enter(env, t, e.scope.selectors[0])
  }

  /** Container-scope nests stand in a map or a list, and no chain of nests is deeper than the limit. */
  predicate Plain(env: Env, es: seq<Doc.Entry>, s: Place, depth: nat)
    decreases es, 1
  {
    es == [] || (PlainEntry(env, es[0], s, depth) && Plain(env, es[1..], s, depth))
  }

  predicate PlainEntry(env: Env, e: Doc.Entry, s: Place, depth: nat)
    decreases e, 0
  {
    NamesContainer(e) ==>
      match Opened(env, e, s)
      case None => true
      case Some(t) =>
        (e.scope.Container? ==> t.InMap? || t.InList?) && depth < MAX_NEST && Plain(env, e.op.delta, t, depth + 1)
  }

  lemma {:induction false} WalkOn(env: Env, s: Place, a: seq<Doc.Key>, b: seq<Doc.Key>)
    ensures Walk(env, s, a + b) == match Walk(env, s, a) case None => None case Some(t) => Walk(env, t, b)
    decreases a
  {
    if a == [] {
      assert a + b == b;
    } else {
      assert (a + b)[0] == a[0] && (a + b)[1..] == a[1..] + b;
      var t := Follow(env, s, a[0]);
      if t.Some? { WalkOn(env, t.value, a[1..], b); }
    }
  }

  lemma EnterIsWalk(env: Env, s: Place, sel: Doc.Selector)
    requires sel.ByKey?
    ensures Enter(env, s, sel) == Walk(env, s, [sel.key])
  {
    assert [sel.key][1..] == [];
  }

  /** Opening a nest is walking to its flattened prefix. */
  lemma OpenedIsWalk(env: Env, e: Doc.Entry, s: Place, prefix: seq<Doc.Key>)
    requires NamesContainer(e) && Walk(env, Root, prefix) == Some(s)
    ensures Opened(env, e, s) ==
            Walk(env, Root, if e.scope.Container? then prefix + e.path else prefix + e.path + [e.scope.selectors[0].key])
  {
    WalkOn(env, Root, prefix, e.path);
    if e.scope.Targets? {
      WalkOn(env, Root, prefix + e.path, [e.scope.selectors[0].key]);
      var t := Walk(env, s, e.path);
      if t.Some? { EnterIsWalk(env, t.value, e.scope.selectors[0]); }
    }
  }

  lemma {:induction false} SelectorsIgnorePath(env: Env, e: Doc.Entry, path: seq<Doc.Key>, sels: seq<Doc.Selector>, s: Place, seen: set<Ident>)
    ensures Selectors(env, e.(path := path), sels, s, seen) == Selectors(env, e, sels, s, seen)
    decreases sels
  {
    if sels == [] {
    } else {
      SelectorsIgnorePath(env, e, path, sels[1..], s, seen + {IdentOf(env, s, sels[0])});
    }
  }

  /** An entry that opens no container means the same wherever its path starts. */
  lemma MovedEntry(env: Env, e: Doc.Entry, s: Place, prefix: seq<Doc.Key>, depth: nat)
    requires !NamesContainer(e) && Walk(env, Root, prefix) == Some(s)
    ensures OneEntry(env, e.(path := prefix + e.path), Root, 0) == OneEntry(env, e, s, depth)
  {
    WalkOn(env, Root, prefix, e.path);
    var moved := e.(path := prefix + e.path);
    var t := Walk(env, s, e.path);
    if t.Some? && e.scope.Targets? {
      SelectorsIgnorePath(env, e, prefix + e.path, e.scope.selectors, t.value, {});
      if e.op.Nest? && |e.scope.selectors| == 1 { assert Enter(env, t.value, e.scope.selectors[0]).None?; }
    }
  }

  /** Nothing under an unreachable prefix compiles. */
  lemma {:induction false} UnreachableRefused(env: Env, es: seq<Doc.Entry>, prefix: seq<Doc.Key>)
    requires Walk(env, Root, prefix).None? && es != [] && Filled(es)
    ensures Entries(env, Flatten(es, prefix), Root, 0).None?
    decreases es, 1
  {
    var e := es[0];
    WalkOn(env, Root, prefix, e.path);
    EntriesAppend(env, FlattenEntry(e, prefix), Flatten(es[1..], prefix));
    if NamesContainer(e) {
      if e.scope.Container? {
        UnreachableRefused(env, e.op.delta, prefix + e.path);
      } else {
        WalkOn(env, Root, prefix + e.path, [e.scope.selectors[0].key]);
        UnreachableRefused(env, e.op.delta, prefix + e.path + [e.scope.selectors[0].key]);
      }
    } else {
      assert FlattenEntry(e, prefix)[0].path == prefix + e.path;
    }
  }

  lemma {:induction false} FlattenEntries(env: Env, es: seq<Doc.Entry>, s: Place, prefix: seq<Doc.Key>, depth: nat)
    requires Walk(env, Root, prefix) == Some(s) && Filled(es) && depth <= MAX_NEST
    ensures Entries(env, es, s, depth) ==
            if Plain(env, es, s, depth) then Entries(env, Flatten(es, prefix), Root, 0) else None
    decreases es, 1
  {
    if es == [] {
    } else {
      FlattenOne(env, es[0], s, prefix, depth);
      FlattenEntries(env, es[1..], s, prefix, depth);
      EntriesAppend(env, FlattenEntry(es[0], prefix), Flatten(es[1..], prefix));
    }
  }

  lemma {:induction false} FlattenOne(env: Env, e: Doc.Entry, s: Place, prefix: seq<Doc.Key>, depth: nat)
    requires Walk(env, Root, prefix) == Some(s) && FilledEntry(e) && depth <= MAX_NEST
    ensures OneEntry(env, e, s, depth) ==
            if PlainEntry(env, e, s, depth) then Entries(env, FlattenEntry(e, prefix), Root, 0) else None
    decreases e, 0
  {
    if !NamesContainer(e) {
      MovedEntry(env, e, s, prefix, depth);
      var moved := e.(path := prefix + e.path);
      assert [moved][1..] == [];
      var only := OneEntry(env, moved, Root, 0);
      assert Entries(env, [moved], Root, 0) == Join(only, Some([]));
      if only.Some? { assert only.value + [] == only.value; }
    } else {
      var path := if e.scope.Container? then prefix + e.path else prefix + e.path + [e.scope.selectors[0].key];
      var inner := Opened(env, e, s);
      OpenedIsWalk(env, e, s, prefix);
      assert FlattenEntry(e, prefix) == Flatten(e.op.delta, path);
      if inner.None? {
        UnreachableRefused(env, e.op.delta, path);
      } else {
        if depth < MAX_NEST { FlattenEntries(env, e.op.delta, inner.value, path, depth + 1); }
        var t := Walk(env, s, e.path).value;
        if e.scope.Container? {
          assert OneEntry(env, e, s, depth) == OnContainer(env, e, t, depth);
          if t.InMap? || t.InList? { assert OnContainer(env, e, t, depth) == Elaborate(env, e.op.delta, t, depth + 1); }
        } else {
          assert OneEntry(env, e, s, depth) == Elaborate(env, e.op.delta, inner.value, depth + 1);
        }
      }
    }
  }

  /**
   A document compiles if and only if its nests are plain and its flattened form
   compiles, and then to the same plan.
   */
  lemma NestingIsPrefix(env: Env, doc: Doc.Document)
    requires Filled(doc.delta)
    ensures Compiled(env, doc) ==
            if Plain(env, doc.delta, Root, 0) then Compiled(env, doc.(delta := Flatten(doc.delta, []))) else None
  {
    FlattenEntries(env, doc.delta, Root, [], 0);
  }
}
