/** The targets of one entry, and when two of them name the same location (`targets` and `ident` of ormpatch/compile.go). */
module Targets {
  import opened Values
  import opened Literals
  import opened Schema
  import opened Plans
  import opened Elaboration
  import Doc = Documents

  // A part of a column, or the end of a list; Nowhere for a field the entity does not have.
  datatype Location = Nowhere | Spot(column: Num, addr: Address) | End(column: Num)

  /** What a step reads or writes. */
  function Touched(step: Step): Location {
    var n := step.Prop().Number();
    match step
    case Check(t) => Spot(n, t.addr)
    case Guard(t) => Spot(n, t.addr)
    case Put(_, op, _) =>
      if !op.EditJSON? || |op.ops| != 1 then Spot(n, Whole) else
      match op.ops[0]
      case SetEntry(k, _) => Spot(n, AtKey(k))
      case RemoveEntry(k) => Spot(n, AtKey(k))
      case SetElem(i, _) => Spot(n, AtIndex(i))
      case RemoveElem(i) => Spot(n, AtIndex(i))
      case AppendElem(_) => End(n)
      case ClearAll => Spot(n, Whole)
  }

  /** The location a selector names, through its place. */
  function LocationOf(env: Env, s: Place, sel: Doc.Selector): Location {
    match s
    case Root =>
      (match FieldOf(env, sel) case None => Nowhere case Some(n) => Spot(n, Whole))
    case InEdge(p) =>
      if p.Edge? && sel.ByKey? && sel.key.FieldKey? && NamesKey(p.target, sel.key.field) then Spot(p.Number(), Whole)
      else Nowhere
    case InMap(p) =>
      if sel.EveryEntry? then Spot(p.Number(), Whole)
      else if sel.ByKey? && sel.key.MapEntryKey? then Spot(p.Number(), AtKey(sel.key.key))
      else Nowhere
    case InList(p) =>
      if sel.Append? then End(p.Number())
      else if sel.ByKey? && sel.key.IndexKey? then Spot(p.Number(), AtIndex(sel.key.index))
      else Nowhere
  }

  predicate NamesKey(t: Target, ref: FieldRef) {
    var r := ResolveField(t.fields, ref);
    r.Found? && r.field.number == t.key.number
  }

  // The entity's own column a selector's field names, if it names one.
  function FieldOf(env: Env, sel: Doc.Selector): Option<Num> {
    if !sel.ByKey? || !sel.key.FieldKey? then None
    else match Resolve(env, sel.key.field) case Known(p) => Some(p.Number()) case _ => None
  }

  /** A target that compiles touches the location it names, and no other. */
  lemma TargetTouches(env: Env, e: Doc.Entry, s: Place, sel: Doc.Selector)
    requires One(env, e, s, sel).Some?
    ensures forall step <- One(env, e, s, sel).value :: Touched(step) == LocationOf(env, s, sel)
  {
  }

  /** Identities are as the entity's own fields, keys and indices; a target is refused when its identity was seen. */
  lemma {:induction false} IdentsAreDistinct(env: Env, e: Doc.Entry, s: Place, sels: seq<Doc.Selector>, seen: set<Ident>)
    ensures Selectors(env, e, sels, s, seen).Some? <==>
            && (forall sel <- sels :: One(env, e, s, sel).Some? && IdentOf(env, s, sel) !in seen)
            && forall i, j | 0 <= i < j < |sels| :: IdentOf(env, s, sels[i]) != IdentOf(env, s, sels[j])
    decreases sels
  {
    hide One, IdentOf;
    if sels == [] {
    } else {
      var id, rest := IdentOf(env, s, sels[0]), sels[1..];
      IdentsAreDistinct(env, e, s, rest, seen + {id});
      assert forall sel :: sel in sels <==> sel == sels[0] || sel in rest;
      if Selectors(env, e, sels, s, seen).Some? {
        forall i, j | 0 <= i < j < |sels| ensures IdentOf(env, s, sels[i]) != IdentOf(env, s, sels[j]) {
          assert sels[j] == rest[j - 1] && rest[j - 1] in rest;
          if i > 0 { assert sels[i] == rest[i - 1]; }
        }
      } else if forall i, j | 0 <= i < j < |sels| :: IdentOf(env, s, sels[i]) != IdentOf(env, s, sels[j]) {
        forall i, j | 0 <= i < j < |rest| ensures IdentOf(env, s, rest[i]) != IdentOf(env, s, rest[j]) {
          assert rest[i] == sels[i + 1] && rest[j] == sels[j + 1];
        }
        forall k | 0 <= k < |rest| ensures IdentOf(env, s, rest[k]) != id {
          assert rest[k] == sels[k + 1];
        }
      }
    }
  }

  /** Outside an edge the compiler's identities are the locations. */
  lemma IdentIsLocation(env: Env, e: Doc.Entry, s: Place, a: Doc.Selector, b: Doc.Selector)
    requires !s.InEdge? && One(env, e, s, a).Some? && One(env, e, s, b).Some?
    ensures IdentOf(env, s, a) == IdentOf(env, s, b) <==> LocationOf(env, s, a) == LocationOf(env, s, b)
  {
  }

  ghost predicate Apart(env: Env, s: Place, sels: seq<Doc.Selector>) {
    forall i, j | 0 <= i < j < |sels| :: LocationOf(env, s, sels[i]) != LocationOf(env, s, sels[j])
  }

  /**
   At the root, in a map and in a list, an entry's targets compile if and only if each
   one does and no two name the same location; all vacant fields are one location.
   */
  lemma TargetsAreApart(env: Env, e: Doc.Entry, s: Place, sels: seq<Doc.Selector>)
    requires !s.InEdge?
    ensures Selectors(env, e, sels, s, {}).Some? <==>
            (forall sel <- sels :: One(env, e, s, sel).Some?) && Apart(env, s, sels)
  {
    hide One, IdentOf, LocationOf;
    IdentsAreDistinct(env, e, s, sels, {});
    if forall sel <- sels :: One(env, e, s, sel).Some? {
      forall i, j | 0 <= i < j < |sels|
        ensures IdentOf(env, s, sels[i]) == IdentOf(env, s, sels[j]) <==> LocationOf(env, s, sels[i]) == LocationOf(env, s, sels[j])
      {
        assert sels[i] in sels && sels[j] in sels;
        IdentIsLocation(env, e, s, sels[i], sels[j]);
      }
    }
  }

  /**
   In an edge there is one location, the target's key, so two targets are never apart.
   They compile all the same if and only if each one does and their references name
   different fields of the entity the edge starts from, which is where the compiler
   looks them up.
   */
  lemma EdgeTargets(env: Env, e: Doc.Entry, p: Prop, sels: seq<Doc.Selector>)
    requires EnvOk(env) && PlaceOk(env, InEdge(p))
    ensures Selectors(env, e, sels, InEdge(p), {}).Some? <==>
            && (forall sel <- sels :: One(env, e, InEdge(p), sel).Some?)
            && forall i, j | 0 <= i < j < |sels| :: FieldOf(env, sels[i]) != FieldOf(env, sels[j])
    ensures Selectors(env, e, sels, InEdge(p), {}).Some? ==>
              && (forall sel <- sels :: LocationOf(env, InEdge(p), sel) == Spot(p.Number(), Whole))
              && (Apart(env, InEdge(p), sels) <==> |sels| <= 1)
  {
    hide One;
    IdentsAreDistinct(env, e, InEdge(p), sels, {});
    forall a, b ensures IdentOf(env, InEdge(p), a) == IdentOf(env, InEdge(p), b) <==> FieldOf(env, a) == FieldOf(env, b) {
    }
    forall sel <- sels | One(env, e, InEdge(p), sel).Some? ensures LocationOf(env, InEdge(p), sel) == Spot(p.Number(), Whole) {
      EdgeTargetIsKey(env, e, p, sel);
    }
    if |sels| > 1 && Selectors(env, e, sels, InEdge(p), {}).Some? {
      assert sels[0] in sels && sels[1] in sels;
    }
  }

  lemma EdgeTargetIsKey(env: Env, e: Doc.Entry, p: Prop, sel: Doc.Selector)
    requires One(env, e, InEdge(p), sel).Some?
    ensures LocationOf(env, InEdge(p), sel) == Spot(p.Number(), Whole)
  {
  }

  // ---- One location, named twice ----

  const KIND := ScalarKind(9)
  const ID := FieldDesc(1, "id", Single, KIND, StringKind, "", false, false)
  const PARENT := FieldDesc(3, "parent", Single, MessageKind("library.Parent"), StringKind, "", false, false)
  const OWN_NAME := FieldDesc(1, "name", Single, KIND, StringKind, "", false, false)
  const OWN_ID := FieldDesc(2, "id", Single, KIND, StringKind, "", false, false)
  const PLAIN := FieldOpts(false, None, None, None, TypeOther(1), false, false, false)
  const PARENT_EDGE := Edge(PARENT, EdgeOpts(None, None, None, None, false), Target([ID], ID, TypeOther(1)))
  const CHILD := Schema.Entity("library.Child", [OWN_NAME, OWN_ID, PARENT],
                               [Field(OWN_NAME, PLAIN), Field(OWN_ID, PLAIN), PARENT_EDGE])

  const BY_NAME := Doc.ByKey(Doc.FieldKey(FieldRef(Some("id"), None)))
  const BY_NUMBER := Doc.ByKey(Doc.FieldKey(FieldRef(None, Some(1))))

  // "In parent, set id and field 1."
  const SET_TWICE := Doc.Entry([Doc.FieldKey(FieldRef(Some("parent"), None))],
                               Doc.Targets([BY_NAME, BY_NUMBER]), Doc.Assign(LScalar(9, "a")), false)

  const SET_PARENT := [Put(PARENT_EDGE, SetEdge(Scalar(9, "a")), false)]

  lemma KeyNamedEitherWay()
    ensures var env, s := NewEnv(CHILD, map[]), InEdge(PARENT_EDGE);
            && Walk(env, Root, SET_TWICE.path) == Some(s)
            && IdentOf(env, s, BY_NAME) == FieldIdent(2) && IdentOf(env, s, BY_NUMBER) == FieldIdent(1)
            && One(env, SET_TWICE, s, BY_NAME) == Some(SET_PARENT) && One(env, SET_TWICE, s, BY_NUMBER) == Some(SET_PARENT)
            && LocationOf(env, s, BY_NAME) == LocationOf(env, s, BY_NUMBER) == Spot(3, Whole)
  {
    var env, s := NewEnv(CHILD, map[]), InEdge(PARENT_EDGE);
    ChildColumns();
    assert FindByName(CHILD.declared[1..], "id") == Some(OWN_ID);
    assert FindByName(CHILD.declared[1..][1..], "parent") == Some(PARENT);
    assert FindByName(CHILD.declared, "parent") == Some(PARENT);
    assert Follow(env, Root, SET_TWICE.path[0]) == Some(s) && SET_TWICE.path[1..] == [];
  }

  /** Both targets are the parent's key, the entity has other fields of that name and that number, and the entry compiles. */
  lemma KeyNamedTwice()
    ensures var env, s := NewEnv(CHILD, map[]), InEdge(PARENT_EDGE);
            && OneEntry(env, SET_TWICE, Root, 0) == Some(SET_PARENT + SET_PARENT)
            && LocationOf(env, s, BY_NAME) == LocationOf(env, s, BY_NUMBER) == Spot(3, Whole)
  {
    hide One, IdentOf, LocationOf, Walk;
    var env, s, sels := NewEnv(CHILD, map[]), InEdge(PARENT_EDGE), [BY_NAME, BY_NUMBER];
    KeyNamedEitherWay();
    assert sels[1..] == [BY_NUMBER] && sels[1..][1..] == [] && SET_PARENT + [] == SET_PARENT;
    assert Selectors(env, SET_TWICE, [BY_NUMBER], s, {FieldIdent(2)}) == Join(Some(SET_PARENT), Some([]));
    assert {} + {FieldIdent(2)} == {FieldIdent(2)};
    assert Selectors(env, SET_TWICE, sels, s, {}) == Join(Some(SET_PARENT), Some(SET_PARENT));
    assert Selectors(env, SET_TWICE, sels, s, {}) == Some(SET_PARENT + SET_PARENT);
    assert OneEntry(env, SET_TWICE, Root, 0) == OnTargets(env, SET_TWICE, sels, s, 0);
  }

  lemma ChildColumns()
    ensures ByNumber(CHILD.props) == map[1 := CHILD.props[0], 2 := CHILD.props[1], 3 := CHILD.props[2]]
  {
    var ps := CHILD.props;
    assert ps[..2][..1] == ps[..1] && ps[..1][..0] == [];
    assert ByNumber(ps[..1]) == map[1 := ps[0]];
    assert ByNumber(ps[..2]) == map[1 := ps[0], 2 := ps[1]];
  }
}
