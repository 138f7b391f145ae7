/** Entities and props as the patch engine reads them (graph/prop.go, field.go, edge.go). */
module Schema {
  import opened Values

  datatype OrmType = TypeUnspecified | TypeTime | TypeUuid | TypeJson | TypeMessage | TypeOther(id: nat)

  // An unset bit and a bit set to false are different option states.
  datatype FieldOpts = FieldOpts(
    key: bool, unique: Option<bool>, nullable: Option<bool>, immutable: Option<bool>,
    typ: OrmType, version: bool, erased: bool, disabled: bool)

  datatype BackRef = BackRef(name: string, number: Num)

  datatype EdgeOpts = EdgeOpts(
    unique: Option<bool>, nullable: Option<bool>, immutable: Option<bool>,
    from: Option<BackRef>, disabled: bool)

  function Get(bit: Option<bool>): bool {
    bit.Some? && bit.value
  }

  // What a row knows of an edge's target: its declared fields and its key.
  datatype Target = Target(fields: seq<FieldDesc>, key: FieldDesc, keyType: OrmType)

  datatype Prop =
    | Field(desc: FieldDesc, fopts: FieldOpts)
    | Edge(desc: FieldDesc, eopts: EdgeOpts, target: Target)
  {
    function Number(): Num { desc.number }

    function Name(): string { desc.name }

    function Type(): OrmType { if Edge? then TypeMessage else fopts.typ }

    predicate IsList() { desc.card == Repeated }

    predicate IsMap() { Field? && desc.card == Mapped }

    predicate IsCollection() { IsList() || IsMap() }

    predicate IsImmutable() { Get(if Edge? then eopts.immutable else fopts.immutable) }

    predicate IsVersion() { Field? && fopts.version }

    predicate IsErased() { Field? && fopts.erased }

    predicate IsNullable() {
      if desc.card != Single then false
      else if Edge? then Get(eopts.nullable) || desc.optionalKeyword
      else FieldNullable(desc, fopts)
    }

    // The field whose values the column holds: an edge's own are its target's keys.
    function Held(): FieldDesc { if Edge? && !IsList() then target.key else desc }

    // The ORM type that governs the values the column holds.
    function ValueType(): OrmType { if Edge? then target.keyType else fopts.typ }
  }

  /** Presence makes a singular field nullable, except a time. */
  predicate FieldNullable(desc: FieldDesc, opts: FieldOpts) {
    desc.card == Single &&
    (Get(opts.nullable) || desc.optionalKeyword || (desc.presence && opts.typ != TypeTime))
  }

  datatype Entity = Entity(fullName: string, declared: seq<FieldDesc>, props: seq<Prop>)

  /** What protobuf guarantees of a message and its fields. */
  ghost predicate WellFormed(e: Entity) {
    && DistinctDescriptors(e.declared)
    && (forall p <- e.props :: p.desc in e.declared)
    && DistinctProps(e.props)
  }

  ghost predicate DistinctProps(props: seq<Prop>) {
    forall i, j | 0 <= i < j < |props| :: props[i].Number() != props[j].Number()
  }
}
