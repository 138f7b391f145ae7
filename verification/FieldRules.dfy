/** Which declared fields become props, and with what options (the option rules of graph/prop.go). */
module FieldRules {
  import opened Values
  import opened Schema
  import opened Layout

  /** A declared field with the orm.field and orm.edge options written on it. */
  datatype FieldDecl = FieldDecl(desc: FieldDesc, of: Option<FieldOpts>, oe: Option<EdgeOpts>)

  datatype IndexRef = IndexRef(name: string, number: Num)

  datatype IndexDecl = IndexDecl(refs: seq<IndexRef>, unique: bool, includesErased: bool)

  // `isEntity`: carries orm.message, not disabled.
  datatype MessageDecl = MessageDecl(name: string, isEntity: bool, fields: seq<FieldDecl>, indexes: seq<IndexDecl>)

  /** The type a field has when its options name none (ormpb/type.go). */
  function DeduceType(fd: FieldDesc): OrmType {
    if fd.card == Mapped then TypeJson
    else match fd.kind
         case BytesKind => TypeOther(0)
         case ScalarKind(id) => TypeOther(1 + id)
         case MessageKind(name) => if name == "google.protobuf.Timestamp" then TypeTime else TypeJson
  }

  const NO_FIELD_OPTS := FieldOpts(false, None, None, None, TypeUnspecified, false, false, false)

  datatype Ruling = Refused | Disabled | AsField(fopts: FieldOpts) | AsEdge(eopts: EdgeOpts)

  predicate VersionRefused(o: FieldOpts) {
    o.version && (o.key || Get(o.unique) || Get(o.nullable) || Get(o.immutable) || o.typ != TypeTime)
  }

  predicate ErasedRefused(o: FieldOpts) {
    o.erased && (o.key || Get(o.unique) || Get(o.immutable) || o.version || o.typ != TypeTime || o.nullable == Some(false))
  }

  function Rule(f: FieldDecl): Ruling {
    if f.of.Some? && f.oe.Some? then Refused
    else if (f.of.Some? && f.of.value.disabled) || (f.oe.Some? && f.oe.value.disabled) then Disabled
    else if f.oe.Some? then AsEdge(f.oe.value)
    else
      var given := if f.of.Some? then f.of.value else NO_FIELD_OPTS;
      var typed := if given.typ == TypeUnspecified then given.(typ := DeduceType(f.desc)) else given;
      if VersionRefused(typed) || ErasedRefused(typed) then Refused
      else
        var o := if typed.erased then typed.(nullable := Some(true)) else typed;
        if o.typ == TypeMessage then Refused else AsField(o)
  }

  // The type a field ends up with.
  function TypeGiven(f: FieldDecl): OrmType {
    if f.of.Some? && f.of.value.typ != TypeUnspecified then f.of.value.typ else DeduceType(f.desc)
  }

  function OptionsGiven(f: FieldDecl): FieldOpts {
    match f.of case None => NO_FIELD_OPTS case Some(o) => o
  }

  /** What field options may say: a version or an erased field is a plain time, one of the two, and no field is a message. */
  predicate MayBe(o: FieldOpts, t: OrmType) {
    && t != TypeMessage
    && (o.version || o.erased ==>
          t == TypeTime && !o.key && o.unique != Some(true) && o.immutable != Some(true) && !(o.version && o.erased))
    && (o.version ==> o.nullable != Some(true))
    && (o.erased ==> o.nullable != Some(false))
  }

  predicate IsDisabled(f: FieldDecl) {
    (f.of.Some? && f.of.value.disabled) || (f.oe.Some? && f.oe.value.disabled)
  }

  /** What becomes of a declared field, by what is written on it; a field with nothing written on it is a field of its deduced type. */
  lemma RuledExactly(f: FieldDecl)
    ensures f.of.Some? && f.oe.Some? ==> Rule(f) == Refused
    ensures !(f.of.Some? && f.oe.Some?) && IsDisabled(f) ==> Rule(f) == Disabled
    ensures f.of.None? && f.oe.Some? && !IsDisabled(f) ==> Rule(f) == AsEdge(f.oe.value)
    ensures f.oe.None? && !IsDisabled(f) ==>
              var o, t := OptionsGiven(f), TypeGiven(f);
              Rule(f) == if !MayBe(o, t) then Refused
                         else AsField(o.(typ := t, nullable := if o.erased then Some(true) else o.nullable))
    ensures f.of.None? && f.oe.None? ==> Rule(f) == AsField(NO_FIELD_OPTS.(typ := DeduceType(f.desc)))
  {
  }

  /** What the rules leave true of a field's options for good. */
  predicate Legal(o: FieldOpts) {
    && !VersionRefused(o)
    && (o.erased ==> !o.key && !Get(o.unique) && !Get(o.immutable) && !o.version && o.typ == TypeTime && o.nullable == Some(true))
    && o.typ != TypeMessage
  }

  lemma RuledIsLegal(f: FieldDecl)
    ensures Rule(f).AsField? ==> Legal(Rule(f).fopts)
  {
  }

  /**
   What the rules promise of a prop they accept. A version field is never NULL, except
   that its own optional keyword, which they do not look at, makes it nullable; its
   companion is the force flag all the same.
   */
  lemma AcceptedNullability(f: FieldDecl)
    requires Rule(f).AsField?
    ensures var p := Field(f.desc, Rule(f).fopts);
            && (p.IsVersion() ==> (p.IsNullable() <==> f.desc.card == Single && f.desc.optionalKeyword))
            && (p.IsVersion() ==> FlagOf(p) == ForceFlag && !p.IsImmutable() && !p.IsErased() && p.Type() == TypeTime)
            && (p.IsErased() ==> (p.IsNullable() <==> f.desc.card == Single))
            && (p.IsErased() ==> !p.IsImmutable() && !p.IsVersion() && p.Type() == TypeTime)
            && (!p.IsVersion() && !p.IsErased() ==>
                  (p.IsNullable() <==>
                     (f.desc.card == Single &&
                     (OptionsGiven(f).nullable == Some(true) || f.desc.optionalKeyword || (f.desc.presence && p.Type() != TypeTime)))))
  {
  }

  const OPTIONAL_VERSION := FieldDecl(
    FieldDesc(4, "date_updated", Single, MessageKind("google.protobuf.Timestamp"), StringKind, "", true, true),
    Some(NO_FIELD_OPTS.(version := true)), None)

  /** "optional google.protobuf.Timestamp date_updated", marked as the version: accepted, and nullable. */
  lemma OptionalVersionIsNullable()
    ensures Rule(OPTIONAL_VERSION).AsField?
    ensures var p := Field(OPTIONAL_VERSION.desc, Rule(OPTIONAL_VERSION).fopts); p.IsVersion() && p.IsNullable()
  {
    AcceptedNullability(OPTIONAL_VERSION);
  }

  /** A legal version field is always part of the entity's PatchRequest, under the force flag. */
  lemma VersionIsPatchable(e: Entity, p: Prop)
    requires p in e.props && p.IsVersion() && Legal(p.fopts)
    ensures p in PatchProps(e.props) && FlagOf(p) == ForceFlag
    ensures !p.IsImmutable() && !p.IsErased()
  {
  }
}
