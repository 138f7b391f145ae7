/** What a message must be for its entity to parse: the checks of graph/prop.go, entity.go and index.go, said of descriptors. */
module MessageChecks {
  import opened Values
  import opened Schema
  import opened FieldRules

  /** Descriptors are closed: a message-typed field has its message. */
  predicate PoolOk(pool: map<string, MessageDecl>) {
    forall n <- pool ::
      && pool[n].name == n
      && forall f <- pool[n].fields :: f.desc.kind.MessageKind? ==> f.desc.kind.name in pool
  }

  // A declared field as the option rules leave it.
  datatype Shape = Shape(desc: FieldDesc, rule: Ruling)
  {
    predicate IsKey() { rule.AsField? && rule.fopts.key }

    predicate IsVersion() { rule.AsField? && rule.fopts.version }

    predicate IsErased() { rule.AsField? && rule.fopts.erased }
  }

  // The declared fields that become props, in order.
  function Kept(fields: seq<FieldDecl>): seq<Shape> {
    if fields == [] then []
    else Kept(fields[..|fields| - 1]) + KeptOne(fields[|fields| - 1])
  }

  function KeptOne(f: FieldDecl): seq<Shape> {
    if Rule(f).Disabled? then [] else [Shape(f.desc, Rule(f))]
  }

  lemma {:induction false} KeptIsDeclared(fields: seq<FieldDecl>, s: Shape)
    requires s in Kept(fields)
    ensures exists f <- fields :: s == Shape(f.desc, Rule(f)) && !Rule(f).Disabled?
  {
    var last := fields[|fields| - 1];
    if s in KeptOne(last) {
    } else {
      KeptIsDeclared(fields[..|fields| - 1], s);
    }
  }

  lemma {:induction false} KeptHolds(fields: seq<FieldDecl>, f: FieldDecl)
    requires f in fields && !Rule(f).Disabled?
    ensures Shape(f.desc, Rule(f)) in Kept(fields)
  {
    var last := fields[|fields| - 1];
    if f == last {
    } else {
      KeptHolds(fields[..|fields| - 1], f);
    }
  }

  lemma KeptGrows(fields: seq<FieldDecl>, k: nat)
    requires k < |fields|
    ensures Kept(fields[..k + 1]) == Kept(fields[..k]) + KeptOne(fields[k])
  {
    assert fields[..k + 1][..k] == fields[..k];
  }

  /** A field with no options written on it is kept, as a field of its deduced type. */
  lemma UnannotatedIsKept(fields: seq<FieldDecl>, f: FieldDecl)
    requires f in fields && f.of.None? && f.oe.None?
    ensures Shape(f.desc, AsField(NO_FIELD_OPTS.(typ := DeduceType(f.desc)))) in Kept(fields)
  {
    RuledExactly(f);
    KeptHolds(fields, f);
  }

  /** The first prop with a number; past the end when there is none. */
  function FirstNumbered(ss: seq<Shape>, n: Num): (i: nat)
    ensures i <= |ss| && (i < |ss| ==> ss[i].desc.number == n)
    ensures forall j | 0 <= j < i :: ss[j].desc.number != n
  {
    if ss == [] || ss[0].desc.number == n then 0 else 1 + FirstNumbered(ss[1..], n)
  }

  /** An edge leads to a message other than a map's entry; a repeated one is not unique. */
  predicate EdgeOk(desc: FieldDesc, o: EdgeOpts) {
    desc.kind.MessageKind? && desc.card != Mapped && (Get(o.unique) ==> desc.card == Single)
  }

  predicate KeyAllowed(o: FieldOpts) {
    o.unique != Some(false) && o.nullable != Some(true) && o.immutable != Some(false)
  }

  ghost predicate OnlyKey(ss: seq<Shape>, k: nat) {
    && k < |ss| && ss[k].IsKey() && KeyAllowed(ss[k].rule.fopts)
    && forall i | 0 <= i < |ss| :: ss[i].IsKey() ==> i == k
  }

  ghost predicate HasKey(ss: seq<Shape>) {
    exists k :: OnlyKey(ss, k)
  }

  /** At most one version field and one erased field. */
  ghost predicate Singles(ss: seq<Shape>) {
    && (forall i, j | 0 <= i < j < |ss| :: !(ss[i].IsVersion() && ss[j].IsVersion()))
    && (forall i, j | 0 <= i < j < |ss| :: !(ss[i].IsErased() && ss[j].IsErased()))
  }

  ghost predicate Erases(ss: seq<Shape>) {
    exists s <- ss :: s.IsErased()
  }

  /** Every reference of an index resolves, by number and by name, and what it says of erased rows means something. */
  predicate IndexOk(ss: seq<Shape>, erases: bool, x: IndexDecl) {
    && x.refs != []
    && (forall r <- x.refs ::
          var i := FirstNumbered(ss, r.number); i < |ss| && ss[i].desc.name == r.name)
    && (x.includesErased ==> x.unique && erases)
  }

  /** The checks on an entity as a whole. */
  ghost predicate Validates(m: MessageDecl) {
    var ss := Kept(m.fields);
    HasKey(ss) && Singles(ss) && forall x <- m.indexes :: IndexOk(ss, Erases(ss), x)
  }

  /** The checks on one field; whether an edge's target parses is another message's matter. */
  predicate FieldOk(f: FieldDecl) {
    var rule := Rule(f);
    !rule.Refused? && (rule.AsEdge? ==> EdgeOk(f.desc, rule.eopts))
  }

  ghost predicate MessageOk(m: MessageDecl) {
    Validates(m) && forall f <- m.fields :: FieldOk(f)
  }

  // ---- The messages a file needs ----

  /** The field names no back reference, and its edge, if it is one, leads into `fit`. */
  predicate Forward(fit: set<string>, f: FieldDecl) {
    Rule(f).AsEdge? ==> Rule(f).eopts.from.None? && (f.desc.kind.MessageKind? ==> f.desc.kind.name in fit)
  }

  ghost predicate FitMessage(pool: map<string, MessageDecl>, fit: set<string>, n: string) {
    n in pool && pool[n].isEntity && MessageOk(pool[n]) && forall f <- pool[n].fields :: Forward(fit, f)
  }

  /** Each of `fit` is registered already, or meets its own checks and leads only into `fit`. */
  ghost predicate Acceptable(pool: map<string, MessageDecl>, known: set<string>, fit: set<string>) {
    forall n <- fit :: n in known || FitMessage(pool, fit, n)
  }

  predicate LeadsTo(f: FieldDecl, n: string) {
    Rule(f).AsEdge? && f.desc.card != Mapped && f.desc.kind == MessageKind(n)
  }

  ghost predicate Next(pool: map<string, MessageDecl>, known: set<string>, a: string, b: string) {
    a !in known && a in pool && pool[a].isEntity && exists f <- pool[a].fields :: LeadsTo(f, b)
  }

  /** From an entity of the file along edges; an entity registered already is not parsed again. */
  ghost predicate Chain(pool: map<string, MessageDecl>, known: set<string>, file: seq<MessageDecl>, path: seq<string>) {
    && path != [] && (exists m <- file :: m.isEntity && m.name == path[0])
    && forall i | 0 <= i < |path| - 1 :: Next(pool, known, path[i], path[i + 1])
  }

  ghost predicate Reached(pool: map<string, MessageDecl>, known: set<string>, file: seq<MessageDecl>, n: string) {
    exists path :: Chain(pool, known, file, path) && path[|path| - 1] == n
  }

  /** Every message the file needs is registered, or an entity that meets its own checks. */
  ghost predicate AllFit(pool: map<string, MessageDecl>, known: set<string>, file: seq<MessageDecl>) {
    forall n | Reached(pool, known, file, n) :: n in known || (n in pool && pool[n].isEntity && MessageOk(pool[n]))
  }

  ghost predicate NoBackRefs(pool: map<string, MessageDecl>, known: set<string>, file: seq<MessageDecl>) {
    forall n | Reached(pool, known, file, n) && n !in known && n in pool ::
      forall f <- pool[n].fields :: Rule(f).AsEdge? ==> Rule(f).eopts.from.None?
  }

  ghost function ReachedSet(pool: map<string, MessageDecl>, known: set<string>, file: seq<MessageDecl>): set<string> {
    set n | n in pool.Keys + known && Reached(pool, known, file, n)
  }

  lemma ReachedOn(pool: map<string, MessageDecl>, known: set<string>, file: seq<MessageDecl>, a: string, b: string)
    requires Reached(pool, known, file, a) && Next(pool, known, a, b)
    ensures Reached(pool, known, file, b)
  {
    var path :| Chain(pool, known, file, path) && path[|path| - 1] == a;
    assert Chain(pool, known, file, path + [b]);
  }

  /** When all that is needed is fit, it is a set that parsing accepts. */
  lemma ReachedIsAcceptable(pool: map<string, MessageDecl>, known: set<string>, file: seq<MessageDecl>)
    requires AllFit(pool, known, file) && NoBackRefs(pool, known, file)
    ensures Acceptable(pool, known, ReachedSet(pool, known, file))
    ensures forall m <- file :: m.isEntity ==> m.name in ReachedSet(pool, known, file)
  {
    hide MessageOk, Rule;
    var fit := ReachedSet(pool, known, file);
    forall n <- fit | n !in known ensures FitMessage(pool, fit, n) {
      forall f <- pool[n].fields ensures Forward(fit, f) {
        if Rule(f).AsEdge? && f.desc.kind.MessageKind? {
          assert FieldOk(f) by { assert MessageOk(pool[n]); FieldsOk(pool[n]); }
          assert LeadsTo(f, f.desc.kind.name);
          ReachedOn(pool, known, file, n, f.desc.kind.name);
        }
      }
    }
    forall m <- file | m.isEntity ensures m.name in fit {
      assert Chain(pool, known, file, [m.name]);
    }
  }

  lemma FieldsOk(m: MessageDecl)
    requires MessageOk(m)
    ensures forall f <- m.fields :: FieldOk(f)
  {
  }

  /** Names that hold the file's entities and are closed under edges hold all that is needed. */
  lemma {:induction false} ClosedHoldsChain(pool: map<string, MessageDecl>, known: set<string>, file: seq<MessageDecl>,
                                            names: set<string>, path: seq<string>)
    requires Chain(pool, known, file, path) && forall m <- file :: m.isEntity ==> m.name in names
    requires forall a, b | a in names && Next(pool, known, a, b) :: b in names
    ensures path[|path| - 1] in names
    decreases path
  {
    var n := |path| - 1;
    if n == 0 {
    } else {
      assert Next(pool, known, path[n - 1], path[n]);
      ClosedHoldsChain(pool, known, file, names, path[..n]);
    }
  }
}
