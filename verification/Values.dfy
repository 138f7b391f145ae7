/**
 Values a row can hold, and the part of a protobuf descriptor the ORM reads.

 Value encoding and field resolution belong to the patch library. They appear
 here as small total functions carrying only that library's stated contracts.
 */
module Values {

  datatype Option<+T> = None | Some(value: T)

  type Num = nat

  datatype MapKey = BoolKey(b: bool) | IntKey(i: int) | StringKey(s: string)

  datatype KeyKind = BoolKind | IntKind | StringKind

  // Messages are finite records: exactly the fields that are set.
  datatype Value =
    | Bytes(bytes: seq<nat>)
    | Scalar(kind: nat, text: string)
    | Message(fields: map<Num, Value>)
    | List(items: seq<Value>)
    | Map(entries: map<MapKey, Value>)

  datatype Kind = BytesKind | ScalarKind(id: nat) | MessageKind(name: string)

  datatype Card = Single | Repeated | Mapped

  /** A field descriptor. `kind` governs the element or the map value of a collection;
      `oneof` is "" outside a real (non-synthetic) oneof. */
  datatype FieldDesc = FieldDesc(
    number: Num, name: string, card: Card, kind: Kind, keyKind: KeyKind,
    oneof: string, optionalKeyword: bool, presence: bool)

  // Message descriptors by full name.
  type Types = map<string, seq<FieldDesc>>

  function FieldsOf(types: Types, name: string): seq<FieldDesc> {
    if name in types then types[name] else []
  }

  /** How a document names a field: by name, by number, or by both. */
  datatype FieldRef = FieldRef(name: Option<string>, number: Option<Num>)

  datatype Resolution = Found(field: FieldDesc) | Vacant | Conflict

  function FindByName(fields: seq<FieldDesc>, name: string): Option<FieldDesc> {
    if fields == [] then None
    else if fields[0].name == name then Some(fields[0])
    else FindByName(fields[1..], name)
  }

  function FindByNumber(fields: seq<FieldDesc>, number: Num): Option<FieldDesc> {
    if fields == [] then None
    else if fields[0].number == number then Some(fields[0])
    else FindByNumber(fields[1..], number)
  }

  /** Name and number combine as constraints, not as fallbacks. */
  function ResolveField(fields: seq<FieldDesc>, ref: FieldRef): Resolution {
    match (ref.name, ref.number)
    case (None, None) => Conflict
    case (Some(name), None) => (match FindByName(fields, name) case None => Vacant case Some(f) => Found(f))
    case (None, Some(number)) => (match FindByNumber(fields, number) case None => Vacant case Some(f) => Found(f))
    case (Some(name), Some(number)) =>
      match (FindByName(fields, name), FindByNumber(fields, number))
      case (None, None) => Vacant
      case (Some(f), Some(g)) => if f == g then Found(f) else Conflict
      case (_, _) => Conflict
  }

  function KindOfKey(k: MapKey): KeyKind {
    match k
    case BoolKey(_) => BoolKind
    case IntKey(_) => IntKind
    case StringKey(_) => StringKind
  }

  /** A document's map key, checked against the map's key kind. */
  function MapKeyFor(k: MapKey, fd: FieldDesc): Option<MapKey> {
    if fd.card == Mapped && KindOfKey(k) == fd.keyKind then Some(k) else None
  }

  predicate DistinctDescriptors(fields: seq<FieldDesc>) {
    forall i, j | 0 <= i < j < |fields| :: fields[i].number != fields[j].number && fields[i].name != fields[j].name
  }

  /** A reference pinned to both the name and the number of a declared field resolves to that field. */
  lemma {:induction false} PinnedFieldResolves(fields: seq<FieldDesc>, i: nat)
    requires i < |fields| && DistinctDescriptors(fields)
    ensures ResolveField(fields, FieldRef(Some(fields[i].name), Some(fields[i].number))) == Found(fields[i])
  {
    PinnedFieldFound(fields, i);
  }

  lemma {:induction false} PinnedFieldFound(fields: seq<FieldDesc>, i: nat)
    requires i < |fields| && DistinctDescriptors(fields)
    ensures FindByName(fields, fields[i].name) == Some(fields[i])
    ensures FindByNumber(fields, fields[i].number) == Some(fields[i])
  {
    if i == 0 {
    } else {
      assert DistinctDescriptors(fields[1..]);
      PinnedFieldFound(fields[1..], i - 1);
    }
  }

  lemma {:induction false} FoundByName(fields: seq<FieldDesc>, name: string)
    ensures FindByName(fields, name).Some? ==> FindByName(fields, name).value in fields
  {
    if fields == [] {
    } else {
      FoundByName(fields[1..], name);
    }
  }

  lemma {:induction false} FoundByNumber(fields: seq<FieldDesc>, number: Num)
    ensures FindByNumber(fields, number).Some? ==> FindByNumber(fields, number).value in fields
  {
    if fields == [] {
    } else {
      FoundByNumber(fields[1..], number);
    }
  }

  lemma FoundIsDeclared(fields: seq<FieldDesc>, ref: FieldRef)
    requires ResolveField(fields, ref).Found?
    ensures ResolveField(fields, ref).field in fields
  {
    if ref.name.Some? { FoundByName(fields, ref.name.value); }
    if ref.number.Some? { FoundByNumber(fields, ref.number.value); }
  }
}
