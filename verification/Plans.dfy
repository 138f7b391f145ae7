/** Compiled plans (ormpatch/plan.go). Positions in the document are not kept. */
module Plans {
  import opened Values
  import opened Schema

  // Part of a column: all of it, one map entry, or one list element.
  datatype Address = Whole | AtKey(key: MapKey) | AtIndex(index: int)

  datatype Want = IsEqual(value: Value) | Exists | Absent

  datatype Test = Test(prop: Prop, addr: Address, want: Want)

  datatype JSONOp =
    | SetEntry(key: MapKey, value: Value)
    | SetElem(index: int, value: Value)
    | RemoveEntry(key: MapKey)
    | RemoveElem(index: int)
    | AppendElem(value: Value)
    | ClearAll

  datatype Op =
    | SetColumn(value: Value)
    | ClearColumn
    | SetEdge(key: Value)
    | ClearEdge
    | EditJSON(ops: seq<JSONOp>)

  datatype Write = Write(prop: Prop, op: Op)

  datatype Plan = Plan(tests: seq<Test>, writes: seq<Write>)
  {
    ghost predicate Writes(n: Num) { exists w <- writes :: w.prop.Number() == n }
  }

  /** The plan's write to column `n`, if it has one; the answer is unambiguous when columns are not repeated. */
  method WriteTo(p: Plan, n: Num) returns (r: Option<Write>)
    ensures r.Some? <==> p.Writes(n)
    ensures r.Some? ==> r.value in p.writes && r.value.prop.Number() == n
    ensures OnePerColumn(p.writes) ==> forall w <- p.writes :: w.prop.Number() == n ==> r == Some(w)
  {
    for i := 0 to |p.writes|
      invariant forall j | 0 <= j < i :: p.writes[j].prop.Number() != n
    {
      if p.writes[i].prop.Number() == n {
        return Some(p.writes[i]);
      }
    }
    r := None;
  }

  method WritesTo(p: Plan, n: Num) returns (r: bool)
    ensures r <==> p.Writes(n)
  {
    var w := WriteTo(p, n);
    r := w.Some?;
  }

  ghost predicate OnePerColumn(writes: seq<Write>) {
    forall i, j | 0 <= i < j < |writes| :: writes[i].prop.Number() != writes[j].prop.Number()
  }

  const UUID_LEN := 16

  predicate UuidSized(v: Value) {
    v.Bytes? ==> |v.bytes| == UUID_LEN
  }

  /** Only the UUID type constrains a value beyond its proto kind; it belongs to the element, not the column. */
  predicate CheckOrmValue(p: Prop, v: Value) {
    p.ValueType() == TypeUuid ==>
      match v
      case List(items) => forall x <- items :: UuidSized(x)
      case Map(entries) => forall k <- entries :: UuidSized(entries[k])
      case _ => UuidSized(v)
  }

  predicate CheckJSONOp(p: Prop, o: JSONOp) {
    match o
    case SetEntry(_, v) => CheckOrmValue(p, v)
    case SetElem(_, v) => CheckOrmValue(p, v)
    case AppendElem(v) => CheckOrmValue(p, v)
    case _ => true
  }

  predicate CheckOp(p: Prop, op: Op) {
    match op
    case SetColumn(v) => CheckOrmValue(p, v)
    case SetEdge(k) => CheckOrmValue(p, k)
    case EditJSON(ops) => forall o <- ops :: CheckJSONOp(p, o)
    case _ => true
  }

  // ---- What the check comes to ----

  predicate HoldsUuids(p: Prop) {
    if p.Edge? then p.target.keyType == TypeUuid else p.fopts.typ == TypeUuid
  }

  predicate SixteenBytes(v: Value) {
    v.Bytes? ==> |v.bytes| == 16
  }

  /** For a column of UUIDs: the value is sixteen bytes, and so is each element of a list and each value of a map. */
  predicate ValueFits(p: Prop, v: Value) {
    HoldsUuids(p) ==>
      && SixteenBytes(v)
      && (v.List? ==> forall x <- v.items :: SixteenBytes(x))
      && (v.Map? ==> forall k <- v.entries :: SixteenBytes(v.entries[k]))
  }

  /** Every value an operation carries, whole or in part. */
  predicate OpValuesFit(p: Prop, op: Op) {
    match op
    case SetColumn(v) => ValueFits(p, v)
    case SetEdge(k) => ValueFits(p, k)
    case EditJSON(ops) => forall o <- ops :: o.SetEntry? || o.SetElem? || o.AppendElem? ==> ValueFits(p, o.value)
    case ClearColumn => true
    case ClearEdge => true
  }

  /** The check refuses a value of the wrong length, and nothing else. */
  lemma CheckIsLength(p: Prop, v: Value)
    ensures CheckOrmValue(p, v) <==> ValueFits(p, v)
  {
  }

  lemma CheckIsLengths(p: Prop, op: Op)
    ensures CheckOp(p, op) <==> OpValuesFit(p, op)
  {
    if op.EditJSON? {
      forall o <- op.ops ensures CheckJSONOp(p, o) <==> (o.SetEntry? || o.SetElem? || o.AppendElem? ==> ValueFits(p, o.value)) {
        if o.SetEntry? || o.SetElem? || o.AppendElem? { CheckIsLength(p, o.value); }
      }
    }
  }
}
