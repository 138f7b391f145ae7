/** The layout of a generated PatchRequest (graph/patchreq.go). */
module Layout {
  import opened Values
  import opened Schema

  const FIRST_RESERVED := 19000
  const LAST_RESERVED := 19999
  const MAX_FIELD_NUMBER := 536870911

  const REF_NUMBER := 1

  /** A field number is an int32; arithmetic on it wraps. */
  function Wrap32(x: int): int {
    var r := x % 0x1_0000_0000;
    if r < 0x8000_0000 then r else r - 0x1_0000_0000
  }

  function ValueNumber(p: Prop): int {
    Wrap32(p.Number() * 2)
  }

  function FlagNumber(p: Prop): int {
    Wrap32(Wrap32(p.Number() * 2) + 1)
  }

  datatype Flag = NoFlag | ForceFlag | NullFlag

  function FlagOf(p: Prop): Flag {
    if p.IsVersion() then ForceFlag
    else if p.IsNullable() then NullFlag
    else NoFlag
  }

  /** The props a request carries, in declaration order: neither immutable nor the erased field. */
  function PatchProps(props: seq<Prop>): (r: seq<Prop>)
    ensures forall p :: p in r <==> p in props && !p.IsImmutable() && !p.IsErased()
    ensures DistinctProps(props) ==> DistinctProps(r)
  {
    if props == [] then []
    else
      var init, last := PatchProps(props[..|props| - 1]), props[|props| - 1];
      assert props == props[..|props| - 1] + [last];
      assert DistinctProps(props) ==> forall q <- init :: q.Number() != last.Number() by {
        assert forall q <- init :: q in props[..|props| - 1];
      }
      if last.IsImmutable() || last.IsErased() then init else init + [last]
  }

  datatype Slot = RefSlot | ValueSlot(prop: Prop) | FlagSlot(prop: Prop)

  function NumberOf(s: Slot): int {
    match s
    case RefSlot => REF_NUMBER
    case ValueSlot(p) => ValueNumber(p)
    case FlagSlot(p) => FlagNumber(p)
  }

  predicate Wanted(props: seq<Prop>, s: Slot) {
    match s
    case RefSlot => true
    case ValueSlot(p) => p in props
    case FlagSlot(p) => p in props && FlagOf(p) != NoFlag
  }

  /** Protobuf's own rule for the numbers an author may write. */
  ghost predicate LegalNumbers(e: Entity) {
    DistinctProps(e.props) && forall p <- e.props :: 1 <= p.Number() <= MAX_FIELD_NUMBER
  }

  /** Doubling keeps out of protobuf's reserved band and under its cap. */
  predicate Doubles(p: Prop) {
    !(9500 <= p.Number() <= 9999) && p.Number() <= 268435455
  }

  predicate Allowed(n: int) {
    1 <= n <= MAX_FIELD_NUMBER && !(FIRST_RESERVED <= n <= LAST_RESERVED)
  }

  // Every slot stands at its own number, and every number holds a slot that belongs there.
  ghost predicate Bijection(props: seq<Prop>, out: map<int, Slot>) {
    && (forall s :: Wanted(props, s) ==> NumberOf(s) in out && out[NumberOf(s)] == s)
    && (forall n <- out :: Wanted(props, out[n]) && NumberOf(out[n]) == n)
  }

  /** One slot; refused when its number is not allowed or already taken. */
  function Put(out: map<int, Slot>, s: Slot): Option<map<int, Slot>> {
    if !Allowed(NumberOf(s)) || NumberOf(s) in out then None else Some(out[NumberOf(s) := s])
  }

  lemma SmallStays(x: int)
    requires 0 <= x < 0x8000_0000
    ensures Wrap32(x) == x
  {
  }

  /** No legal number overflows when doubled, and a slot is allowed exactly when its prop's number doubles. */
  lemma SlotNumbers(p: Prop)
    requires 1 <= p.Number() <= MAX_FIELD_NUMBER
    ensures ValueNumber(p) == 2 * p.Number() && FlagNumber(p) == 2 * p.Number() + 1
    ensures Allowed(ValueNumber(p)) <==> Doubles(p)
    ensures Allowed(FlagNumber(p)) <==> Doubles(p)
  {
    SmallStays(p.Number() * 2);
    SmallStays(p.Number() * 2 + 1);
  }

  lemma SlotsApart(props: seq<Prop>, s: Slot, t: Slot)
    requires forall p <- props :: 1 <= p.Number() <= MAX_FIELD_NUMBER
    requires DistinctProps(props)
    requires Wanted(props, s) && Wanted(props, t) && NumberOf(s) == NumberOf(t)
    ensures s == t
  {
    if !s.RefSlot? { SlotNumbers(s.prop); }
    if !t.RefSlot? { SlotNumbers(t.prop); }
    if !s.RefSlot? && !t.RefSlot? {
      var i :| 0 <= i < |props| && props[i] == s.prop;
      var j :| 0 <= j < |props| && props[j] == t.prop;
    }
  }

  /** The duplicate refusal never fires: a wanted slot not placed yet has a free number. */
  lemma NeverTaken(all: seq<Prop>, placed: map<int, Slot>, s: Slot)
    requires forall p <- all :: 1 <= p.Number() <= MAX_FIELD_NUMBER
    requires DistinctProps(all) && Wanted(all, s)
    requires forall n <- placed :: Wanted(all, placed[n]) && NumberOf(placed[n]) == n && placed[n] != s
    ensures NumberOf(s) !in placed
  {
    if NumberOf(s) in placed { SlotsApart(all, s, placed[NumberOf(s)]); }
  }

  lemma EarlierApart(props: seq<Prop>, i: nat)
    requires i < |props| && DistinctProps(props)
    ensures props[i] !in props[..i]
  {
  }

  ghost predicate Placed(all: seq<Prop>, i: nat, out: map<int, Slot>)
    requires i <= |all|
  {
    Bijection(all[..i], out) && forall p <- all[..i] :: Doubles(p)
  }

  lemma BijectionGrows(all: seq<Prop>, i: nat, before: map<int, Slot>, out: map<int, Slot>)
    requires i < |all| && Placed(all, i, before) && Doubles(all[i])
    requires forall n <- before :: n in out && out[n] == before[n]
    requires ValueNumber(all[i]) in out && out[ValueNumber(all[i])] == ValueSlot(all[i])
    requires FlagOf(all[i]) != NoFlag ==> FlagNumber(all[i]) in out && out[FlagNumber(all[i])] == FlagSlot(all[i])
    requires forall n <- out :: n in before || out[n] == ValueSlot(all[i]) || (out[n] == FlagSlot(all[i]) && FlagOf(all[i]) != NoFlag)
    requires forall n <- out :: NumberOf(out[n]) == n
    ensures Placed(all, i + 1, out)
  {
    assert all[..i + 1] == all[..i] + [all[i]];
    forall s | Wanted(all[..i + 1], s) ensures NumberOf(s) in out && out[NumberOf(s)] == s {
      if Wanted(all[..i], s) { assert NumberOf(s) in before && before[NumberOf(s)] == s; }
    }
    forall n | n in out ensures Wanted(all[..i + 1], out[n]) {
      if n in before { assert Wanted(all[..i], before[n]); }
    }
  }

  lemma NextIsFree(all: seq<Prop>, i: nat, out: map<int, Slot>)
    requires forall p <- all :: 1 <= p.Number() <= MAX_FIELD_NUMBER
    requires DistinctProps(all) && i < |all| && Placed(all, i, out)
    ensures ValueNumber(all[i]) !in out && ValueNumber(all[i]) != FlagNumber(all[i])
    ensures FlagOf(all[i]) != NoFlag ==> FlagNumber(all[i]) !in out
    ensures Put(out, ValueSlot(all[i])).Some? <==> Doubles(all[i])
    ensures Doubles(all[i]) ==> Allowed(FlagNumber(all[i]))
  {
    var p := all[i];
    SlotNumbers(p);
    EarlierApart(all, i);
    assert forall q <- all[..i] :: q in all;
    if FlagOf(p) != NoFlag { NeverTaken(all, out, FlagSlot(p)); }
    NeverTaken(all, out, ValueSlot(p));
  }

  /** None is the first reason the entity cannot have a request. */
  method PatchLayout(e: Entity) returns (r: Option<map<int, Slot>>)
    requires LegalNumbers(e)
    ensures r.Some? <==> forall p <- PatchProps(e.props) :: Doubles(p)
    ensures r.Some? ==> Bijection(PatchProps(e.props), r.value)
  {
    var out: map<int, Slot> := map[];
    var props := PatchProps(e.props);
    var first := Put(out, RefSlot);
    out := first.value;
    for i := 0 to |props|
      invariant Placed(props, i, out)
    {
      hide Placed, Allowed, Doubles;
      var p := props[i];
      ghost var before := out;
      NextIsFree(props, i, out);
      var value := Put(out, ValueSlot(p));
      if value.None? {
        return None;
      }
      out := value.value;
      if FlagOf(p) != NoFlag {
        var flag := Put(out, FlagSlot(p));
        if flag.None? {
          return None;
        }
        out := flag.value;
      }
      PlacedNumbers(props, i, before);
      BijectionGrows(props, i, before, out);
    }
    assert props[..|props|] == props;
    r := Some(out);
  }

  lemma PlacedNumbers(all: seq<Prop>, i: nat, out: map<int, Slot>)
    requires i <= |all| && Placed(all, i, out)
    ensures forall n <- out :: NumberOf(out[n]) == n
  {
  }
}
