/** Turning document literals into column values (ormpatch/value.go). */
module Literals {
  import opened Values

  datatype Lit =
    | LBytes(bytes: seq<nat>)
    | LScalar(kind: nat, text: string)
    | LMessage(fields: seq<LitField>)
    | LList(values: seq<Lit>)
    | LMap(entries: seq<LitEntry>)
    | LUnset

  datatype LitField = LitField(key: FieldRef, value: Lit)
  datatype LitEntry = LitEntry(key: MapKey, value: Lit)

  // The part of a field a literal lands on.
  datatype Site = SiteField | SiteElement | SiteMapValue

  predicate ElementArm(v: Lit, kind: Kind) {
    match kind
    case BytesKind => v.LBytes?
    case ScalarKind(id) => v.LScalar? && v.kind == id
    case MessageKind(_) => v.LMessage?
  }

  /** The library's arm-against-kind table: whole collections at the field site only. */
  predicate CheckArm(v: Lit, fd: FieldDesc, site: Site) {
    match site
    case SiteField =>
      (match fd.card
       case Single => ElementArm(v, fd.kind)
       case Repeated => v.LList?
       case Mapped => v.LMap?)
    case SiteElement => fd.card == Repeated && ElementArm(v, fd.kind)
    case SiteMapValue => fd.card == Mapped && ElementArm(v, fd.kind)
  }

  function MessageFields(types: Types, fd: FieldDesc): seq<FieldDesc> {
    if fd.kind.MessageKind? then FieldsOf(types, fd.kind.name) else []
  }

  // ---- Specification of the four filling routines ----

  function Denote(types: Types, v: Lit, fd: FieldDesc, site: Site): Option<Value>
    decreases v, 2
  {
    if !CheckArm(v, fd, site) then None else
    match v
    case LBytes(b) => Some(Bytes(b))
    case LScalar(kind, text) => Some(Scalar(kind, text))
    case LMessage(fields) =>
      (match DenoteFields(types, fields, MessageFields(types, fd), map[], {})
       case None => None
       case Some(m) => Some(Message(m)))
    case LList(values) =>
      (match DenoteItems(types, values, fd, []) case None => None case Some(items) => Some(List(items)))
    case LMap(entries) =>
      (match DenoteEntries(types, entries, fd, map[]) case None => None case Some(m) => Some(Map(m)))
    case LUnset => None
  }

  function DenoteFields(types: Types, fields: seq<LitField>, md: seq<FieldDesc>,
                        acc: map<Num, Value>, oneofs: set<string>): Option<map<Num, Value>>
    decreases fields, 1
  {
    if fields == [] then Some(acc) else
    match ResolveField(md, fields[0].key)
    case Conflict => None
    case Vacant => None
    case Found(fd) =>
      if fd.number in acc || (fd.oneof != "" && fd.oneof in oneofs) then None else
      assert fields decreases to fields[0];
      assert fields[0] decreases to fields[0].value;
      match Denote(types, fields[0].value, fd, SiteField)
      case None => None
      case Some(pv) => DenoteFields(types, fields[1..], md, acc[fd.number := pv], AddOneof(oneofs, fd))
  }

  function AddOneof(oneofs: set<string>, fd: FieldDesc): set<string> {
    if fd.oneof == "" then oneofs else oneofs + {fd.oneof}
  }

  function DenoteItems(types: Types, values: seq<Lit>, fd: FieldDesc, acc: seq<Value>): Option<seq<Value>>
    decreases values, 1
  {
    if values == [] then Some(acc) else
    match Denote(types, values[0], fd, SiteElement)
    case None => None
    case Some(pv) => DenoteItems(types, values[1..], fd, acc + [pv])
  }

  function DenoteEntries(types: Types, entries: seq<LitEntry>, fd: FieldDesc, acc: map<MapKey, Value>)
    : Option<map<MapKey, Value>>
    decreases entries, 1
  {
    if entries == [] then Some(acc) else
    match MapKeyFor(entries[0].key, fd)
    case None => None
    case Some(mk) =>
      if mk in acc then None else
      assert entries decreases to entries[0];
      assert entries[0] decreases to entries[0].value;
      match Denote(types, entries[0].value, fd, SiteMapValue)
      case None => None
      case Some(pv) => DenoteEntries(types, entries[1..], fd, acc[mk := pv])
  }

  // ---- The routines themselves ----

  method Materialize(types: Types, v: Lit, fd: FieldDesc, site: Site) returns (r: Option<Value>)
    ensures r == Denote(types, v, fd, site)
    decreases v, 2
  {
    if !CheckArm(v, fd, site) {
      return None;
    }
    match v {
      case LBytes(b) => r := Some(Bytes(b));
      case LScalar(kind, text) => r := Some(Scalar(kind, text));
      case LMessage(fields) =>
        var m := FillMessage(types, fields, MessageFields(types, fd));
        r := if m.Some? then Some(Message(m.value)) else None;
      case LList(values) =>
        var items := FillList(types, values, fd);
        r := if items.Some? then Some(List(items.value)) else None;
      case LMap(entries) =>
        var m := FillMap(types, entries, fd);
        r := if m.Some? then Some(Map(m.value)) else None;
      case LUnset => r := None;
    }
  }

  method FillMessage(types: Types, fields: seq<LitField>, md: seq<FieldDesc>) returns (r: Option<map<Num, Value>>)
    ensures r == DenoteFields(types, fields, md, map[], {})
    decreases fields, 1
  {
    var m: map<Num, Value> := map[];
    var seen: set<Num> := {};
    var oneofs: set<string> := {};
    for i := 0 to |fields|
      invariant seen == m.Keys
      invariant DenoteFields(types, fields, md, map[], {}) == DenoteFields(types, fields[i..], md, m, oneofs)
    {
      var res := ResolveField(md, fields[i].key);
      if !res.Found? || res.field.number in seen {
        return None;
      }
      var fd := res.field;
      seen := seen + {fd.number};
      if fd.oneof != "" {
        if fd.oneof in oneofs {
          return None;
        }
        oneofs := oneofs + {fd.oneof};
      }
      assert fields decreases to fields[i];
      assert fields[i] decreases to fields[i].value;
      var pv := Materialize(types, fields[i].value, fd, SiteField);
      if pv.None? {
        return None;
      }
      m := m[fd.number := pv.value];
    }
    r := Some(m);
  }

  method FillList(types: Types, values: seq<Lit>, fd: FieldDesc) returns (r: Option<seq<Value>>)
    ensures r == DenoteItems(types, values, fd, [])
    decreases values, 1
  {
    var l: seq<Value> := [];
    for i := 0 to |values|
      invariant DenoteItems(types, values, fd, []) == DenoteItems(types, values[i..], fd, l)
    {
      var pv := Materialize(types, values[i], fd, SiteElement);
      if pv.None? {
        return None;
      }
      l := l + [pv.value];
    }
    r := Some(l);
  }

  method FillMap(types: Types, entries: seq<LitEntry>, fd: FieldDesc) returns (r: Option<map<MapKey, Value>>)
    ensures r == DenoteEntries(types, entries, fd, map[])
    decreases entries, 1
  {
    var m: map<MapKey, Value> := map[];
    var seen: set<MapKey> := {};
    for i := 0 to |entries|
      invariant seen == m.Keys
      invariant DenoteEntries(types, entries, fd, map[]) == DenoteEntries(types, entries[i..], fd, m)
    {
      var mk := MapKeyFor(entries[i].key, fd);
      if mk.None? || mk.value in seen {
        return None;
      }
      seen := seen + {mk.value};
      assert entries decreases to entries[i];
      assert entries[i] decreases to entries[i].value;
      var pv := Materialize(types, entries[i].value, fd, SiteMapValue);
      if pv.None? {
        return None;
      }
      m := m[mk.value := pv.value];
    }
    r := Some(m);
  }

  // ---- What a literal means, said without the filling order ----

  /** `value` is what `lit` spells: lists keep length and order, maps have one entry per
      literal entry, and messages have exactly the named fields, no two of one oneof. */
  ghost predicate Spells(types: Types, lit: Lit, fd: FieldDesc, site: Site, value: Value)
    decreases lit
  {
    && CheckArm(lit, fd, site)
    && match (lit, value) {
         case (LBytes(b), Bytes(c)) => b == c
         case (LScalar(k, t), Scalar(l, u)) => k == l && t == u
         case (LMessage(fields), Message(m)) =>
           var md := MessageFields(types, fd);
           && NamesDistinctFields(fields, md)
           && m.Keys == NumbersOf(fields, md)
           && forall i | 0 <= i < |fields| ::
                var target := ResolveField(md, fields[i].key).field;
                Spells(types, fields[i].value, target, SiteField, m[target.number])
         case (LList(values), List(items)) =>
           |items| == |values| && forall i | 0 <= i < |values| :: Spells(types, values[i], fd, SiteElement, items[i])
         case (LMap(entries), Map(m)) =>
           && NamesDistinctKeys(entries, fd)
           && m.Keys == (set e <- entries :: e.key)
           && forall i | 0 <= i < |entries| :: Spells(types, entries[i].value, fd, SiteMapValue, m[entries[i].key])
         case (_, _) => false
       }
  }

  // Two fields a literal cannot both set: one field twice, or two members of one oneof.
  predicate Rivals(f: FieldDesc, g: FieldDesc) {
    f.number == g.number || (f.oneof != "" && f.oneof == g.oneof)
  }

  ghost predicate NamesDistinctFields(fields: seq<LitField>, md: seq<FieldDesc>) {
    && (forall i | 0 <= i < |fields| :: ResolveField(md, fields[i].key).Found?)
    && forall i, j | 0 <= i < j < |fields| ::
         !Rivals(ResolveField(md, fields[i].key).field, ResolveField(md, fields[j].key).field)
  }

  ghost predicate NamesDistinctKeys(entries: seq<LitEntry>, fd: FieldDesc) {
    && (forall i | 0 <= i < |entries| :: MapKeyFor(entries[i].key, fd).Some?)
    && forall i, j | 0 <= i < j < |entries| :: entries[i].key != entries[j].key
  }

  /** Materializing succeeds with a value exactly when the literal spells that value. */
  lemma {:induction false} MaterializedFaithfully(types: Types, lit: Lit, fd: FieldDesc, site: Site, value: Value)
    ensures Denote(types, lit, fd, site) == Some(value) <==> Spells(types, lit, fd, site, value)
    decreases lit, 2
  {
    match (lit, value) {
      case (LMessage(fields), Message(m)) =>
        FieldsFaithful(types, fields, MessageFields(types, fd), map[], {}, m);
        MessageSpelled(types, fields, fd, site, m);
      case (LList(values), List(items)) =>
        ItemsFaithful(types, values, fd, [], items);
        assert [] + items == items;
      case (LMap(entries), Map(m)) =>
        EntriesFaithful(types, entries, fd, map[], m);
      case (_, _) =>
    }
  }

  lemma MessageSpelled(types: Types, fields: seq<LitField>, fd: FieldDesc, site: Site, m: map<Num, Value>)
    ensures var md := MessageFields(types, fd);
            Spells(types, LMessage(fields), fd, site, Message(m)) <==>
            CheckArm(LMessage(fields), fd, site) && ExtendsByFields(fields, md, map[], {}, m) && FieldsSpelled(types, fields, md, m)
  {
    FieldsFromNothing(fields, MessageFields(types, fd), m);
  }

  lemma FieldsFromNothing(fields: seq<LitField>, md: seq<FieldDesc>, m: map<Num, Value>)
    ensures ExtendsByFields(fields, md, map[], {}, m) <==>
            NamesDistinctFields(fields, md) && m.Keys == NumbersOf(fields, md)
  {
  }

  ghost predicate ItemsSpelled(types: Types, values: seq<Lit>, fd: FieldDesc, items: seq<Value>) {
    |items| == |values| && forall i | 0 <= i < |values| :: Spells(types, values[i], fd, SiteElement, items[i])
  }

  lemma {:induction false} ItemsSpelledCons(types: Types, values: seq<Lit>, fd: FieldDesc, items: seq<Value>)
    requires values != [] && items != []
    ensures ItemsSpelled(types, values, fd, items) <==>
            Spells(types, values[0], fd, SiteElement, items[0]) && ItemsSpelled(types, values[1..], fd, items[1..])
  {
    if Spells(types, values[0], fd, SiteElement, items[0]) && ItemsSpelled(types, values[1..], fd, items[1..]) {
      forall i | 0 <= i < |values| ensures Spells(types, values[i], fd, SiteElement, items[i]) {
        if i > 0 { assert values[i] == values[1..][i - 1] && items[i] == items[1..][i - 1]; }
      }
    }
  }

  lemma {:induction false} ItemsFaithful(types: Types, values: seq<Lit>, fd: FieldDesc, acc: seq<Value>, items: seq<Value>)
    ensures DenoteItems(types, values, fd, acc) == Some(acc + items) <==> ItemsSpelled(types, values, fd, items)
    ensures forall all :: DenoteItems(types, values, fd, acc) == Some(all) ==> acc <= all
    decreases values, 1
  {
    if values == [] {
      assert acc + items == acc ==> items == [] by { assert |acc + items| == |acc| + |items|; }
      assert items == [] ==> acc + items == acc;
    } else {
      var head := Denote(types, values[0], fd, SiteElement);
      if head.Some? {
        var acc' := acc + [head.value];
        ItemsFaithful(types, values[1..], fd, acc', if items == [] then [] else items[1..]);
        if items != [] && head.value == items[0] {
          assert acc' + items[1..] == acc + items;
        } else if items != [] {
          assert (acc + items)[|acc|] == items[0];
        }
      }
      if items != [] {
        MaterializedFaithfully(types, values[0], fd, SiteElement, items[0]);
        ItemsSpelledCons(types, values, fd, items);
      } else {
        assert acc + items == acc;
      }
    }
  }

  ghost predicate EntriesSpelled(types: Types, entries: seq<LitEntry>, fd: FieldDesc, m: map<MapKey, Value>) {
    forall i | 0 <= i < |entries| ::
      entries[i].key in m && Spells(types, entries[i].value, fd, SiteMapValue, m[entries[i].key])
  }

  lemma {:induction false} EntriesSpelledCons(types: Types, entries: seq<LitEntry>, fd: FieldDesc, m: map<MapKey, Value>)
    requires entries != []
    ensures EntriesSpelled(types, entries, fd, m) <==>
            && entries[0].key in m && Spells(types, entries[0].value, fd, SiteMapValue, m[entries[0].key])
            && EntriesSpelled(types, entries[1..], fd, m)
  {
    assert forall i | 1 <= i < |entries| :: entries[i] == entries[1..][i - 1];
  }

  ghost predicate Extends<K, V>(acc: map<K, V>, m: map<K, V>) {
    forall k <- acc :: k in m && m[k] == acc[k]
  }

  /** `m` extends `acc` by one entry for each entry of the literal. */
  ghost predicate ExtendsByEntries(entries: seq<LitEntry>, fd: FieldDesc, acc: map<MapKey, Value>, m: map<MapKey, Value>) {
    && NamesDistinctKeys(entries, fd)
    && (forall e <- entries :: e.key !in acc)
    && m.Keys == acc.Keys + (set e <- entries :: e.key)
    && Extends(acc, m)
  }

  lemma {:induction false} DistinctKeysCons(entries: seq<LitEntry>, fd: FieldDesc)
    requires entries != []
    ensures NamesDistinctKeys(entries, fd) <==>
            && MapKeyFor(entries[0].key, fd).Some? && NamesDistinctKeys(entries[1..], fd)
            && forall e <- entries[1..] :: e.key != entries[0].key
  {
    var rest := entries[1..];
    if MapKeyFor(entries[0].key, fd).Some? && NamesDistinctKeys(rest, fd) && (forall e <- rest :: e.key != entries[0].key) {
      forall i | 0 <= i < |entries| ensures MapKeyFor(entries[i].key, fd).Some? {
        if i > 0 { assert entries[i] == rest[i - 1]; }
      }
      forall i, j | 0 <= i < j < |entries| ensures entries[i].key != entries[j].key {
        assert entries[j] == rest[j - 1];
        if i > 0 { assert entries[i] == rest[i - 1]; }
      }
    }
    if NamesDistinctKeys(entries, fd) {
      assert forall i | 0 <= i < |rest| :: rest[i] == entries[i + 1];
    }
  }

  lemma {:induction false} ExtendsByEntriesCons(entries: seq<LitEntry>, fd: FieldDesc,
                                                acc: map<MapKey, Value>, m: map<MapKey, Value>)
    requires entries != []
    ensures var k := entries[0].key;
            ExtendsByEntries(entries, fd, acc, m) <==>
            && MapKeyFor(k, fd).Some? && k !in acc && k in m && ExtendsByEntries(entries[1..], fd, acc[k := m[k]], m)
  {
    hide NamesDistinctKeys, MapKeyFor;
    var e, rest := entries[0], entries[1..];
    DistinctKeysCons(entries, fd);
    assert forall f :: f in entries <==> f == e || f in rest;
    assert (set f <- entries :: f.key) == {e.key} + (set f <- rest :: f.key);
    if e.key !in acc && e.key in m {
      var acc' := acc[e.key := m[e.key]];
      assert acc'.Keys == acc.Keys + {e.key};
      assert Extends(acc, m) <==> Extends(acc', m) by {
        if Extends(acc', m) { assert forall k <- acc :: k in acc' && acc'[k] == acc[k]; }
      }
    }
  }

  lemma {:induction false} EntriesFaithful(types: Types, entries: seq<LitEntry>, fd: FieldDesc,
                                           acc: map<MapKey, Value>, m: map<MapKey, Value>)
    ensures DenoteEntries(types, entries, fd, acc) == Some(m) <==>
            ExtendsByEntries(entries, fd, acc, m) && EntriesSpelled(types, entries, fd, m)
    decreases entries, 1
  {
    if entries == [] {
      if m.Keys == acc.Keys && Extends(acc, m) { assert m == acc; }
    } else {
      var k := entries[0].key;
      ExtendsByEntriesCons(entries, fd, acc, m);
      EntriesSpelledCons(types, entries, fd, m);
      assert entries decreases to entries[0];
      assert entries[0] decreases to entries[0].value;
      var head := Denote(types, entries[0].value, fd, SiteMapValue);
      if k in m { MaterializedFaithfully(types, entries[0].value, fd, SiteMapValue, m[k]); }
      if head.Some? { EntriesFaithful(types, entries[1..], fd, acc[k := head.value], m); }
    }
  }

  ghost predicate FieldsSpelled(types: Types, fields: seq<LitField>, md: seq<FieldDesc>, m: map<Num, Value>) {
    forall i | 0 <= i < |fields| ::
      && ResolveField(md, fields[i].key).Found?
      && var target := ResolveField(md, fields[i].key).field;
      && target.number in m
      && Spells(types, fields[i].value, target, SiteField, m[target.number])
  }

  lemma {:induction false} FieldsSpelledCons(types: Types, fields: seq<LitField>, md: seq<FieldDesc>, m: map<Num, Value>)
    requires fields != [] && ResolveField(md, fields[0].key).Found?
    ensures var fd := ResolveField(md, fields[0].key).field;
            FieldsSpelled(types, fields, md, m) <==>
            && fd.number in m && Spells(types, fields[0].value, fd, SiteField, m[fd.number])
            && FieldsSpelled(types, fields[1..], md, m)
  {
    assert forall i | 1 <= i < |fields| :: fields[i] == fields[1..][i - 1];
  }

  ghost function NumbersOf(fields: seq<LitField>, md: seq<FieldDesc>): set<Num>
    requires forall f <- fields :: ResolveField(md, f.key).Found?
  {
    set f <- fields :: ResolveField(md, f.key).field.number
  }

  /** `m` extends `acc` by one field for each field of the literal; `oneofs` are the oneofs already taken. */
  ghost predicate ExtendsByFields(fields: seq<LitField>, md: seq<FieldDesc>,
                                  acc: map<Num, Value>, oneofs: set<string>, m: map<Num, Value>) {
    && NamesDistinctFields(fields, md)
    && (forall f <- fields :: Fresh(ResolveField(md, f.key).field, acc, oneofs))
    && m.Keys == acc.Keys + NumbersOf(fields, md)
    && Extends(acc, m)
  }

  predicate Fresh(fd: FieldDesc, acc: map<Num, Value>, oneofs: set<string>) {
    fd.number !in acc && (fd.oneof == "" || fd.oneof !in oneofs)
  }

  lemma {:induction false} DistinctFieldsCons(fields: seq<LitField>, md: seq<FieldDesc>)
    requires fields != []
    ensures NamesDistinctFields(fields, md) <==>
            && ResolveField(md, fields[0].key).Found? && NamesDistinctFields(fields[1..], md)
            && forall e <- fields[1..] :: !Rivals(ResolveField(md, fields[0].key).field, ResolveField(md, e.key).field)
  {
    var rest := fields[1..];
    if && ResolveField(md, fields[0].key).Found? && NamesDistinctFields(rest, md)
       && (forall e <- rest :: !Rivals(ResolveField(md, fields[0].key).field, ResolveField(md, e.key).field)) {
      forall i | 0 <= i < |fields| ensures ResolveField(md, fields[i].key).Found? {
        if i > 0 { assert fields[i] == rest[i - 1]; }
      }
      forall i, j | 0 <= i < j < |fields|
        ensures !Rivals(ResolveField(md, fields[i].key).field, ResolveField(md, fields[j].key).field)
      {
        assert fields[j] == rest[j - 1];
        if i > 0 { assert fields[i] == rest[i - 1]; }
      }
    }
    if NamesDistinctFields(fields, md) {
      assert forall i | 0 <= i < |rest| :: rest[i] == fields[i + 1];
    }
  }

  lemma {:induction false} ExtendsByFieldsCons(fields: seq<LitField>, md: seq<FieldDesc>,
                                               acc: map<Num, Value>, oneofs: set<string>, m: map<Num, Value>)
    requires fields != [] && ResolveField(md, fields[0].key).Found?
    ensures var fd := ResolveField(md, fields[0].key).field;
            ExtendsByFields(fields, md, acc, oneofs, m) <==>
            && Fresh(fd, acc, oneofs) && fd.number in m
            && ExtendsByFields(fields[1..], md, acc[fd.number := m[fd.number]], AddOneof(oneofs, fd), m)
  {
    hide ResolveField;
    var rest, fd := fields[1..], ResolveField(md, fields[0].key).field;
    DistinctFieldsCons(fields, md);
    assert forall f :: f in fields <==> f == fields[0] || f in rest;
    if NamesDistinctFields(rest, md) {
      assert forall f <- rest :: ResolveField(md, f.key).Found?;
      assert NumbersOf(fields, md) == {fd.number} + NumbersOf(rest, md);
    }
    if Fresh(fd, acc, oneofs) && fd.number in m {
      var acc' := acc[fd.number := m[fd.number]];
      assert acc'.Keys == acc.Keys + {fd.number};
      assert Extends(acc, m) <==> Extends(acc', m) by {
        if Extends(acc', m) { assert forall n <- acc :: n in acc' && acc'[n] == acc[n]; }
      }
      forall f: FieldDesc
        ensures Fresh(f, acc', AddOneof(oneofs, fd)) <==> Fresh(f, acc, oneofs) && !Rivals(fd, f)
      {
      }
    }
  }

  lemma {:induction false} FieldsFaithful(types: Types, fields: seq<LitField>, md: seq<FieldDesc>,
                                          acc: map<Num, Value>, oneofs: set<string>, m: map<Num, Value>)
    ensures DenoteFields(types, fields, md, acc, oneofs) == Some(m) <==>
            ExtendsByFields(fields, md, acc, oneofs, m) && FieldsSpelled(types, fields, md, m)
    decreases fields, 1
  {
    if fields == [] {
      if m.Keys == acc.Keys && Extends(acc, m) {
        assert m == acc;
      }
    } else if !ResolveField(md, fields[0].key).Found? {
      assert !NamesDistinctFields(fields, md);
    } else {
      var fd := ResolveField(md, fields[0].key).field;
      ExtendsByFieldsCons(fields, md, acc, oneofs, m);
      FieldsSpelledCons(types, fields, md, m);
      assert fields decreases to fields[0];
      assert fields[0] decreases to fields[0].value;
      var head := Denote(types, fields[0].value, fd, SiteField);
      if fd.number in m { MaterializedFaithfully(types, fields[0].value, fd, SiteField, m[fd.number]); }
      if head.Some? {
        FieldsFaithful(types, fields[1..], md, acc[fd.number := head.value], AddOneof(oneofs, fd), m);
      }
    }
  }
}
