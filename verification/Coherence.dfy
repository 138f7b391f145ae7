/** When some row passes a plan's tests, read off the tests. */
module Coherence {
  import opened Values
  import opened Schema
  import opened Plans
  import opened Rows
  import opened Elaboration
  import opened StepSafety

  /** Whatever is present at `outer`, something is present at `inner`. */
  predicate Within(inner: Address, outer: Address) {
    match (inner, outer)
    case (Whole, _) => true
    case (AtKey(k), AtKey(l)) => k == l
    case (AtIndex(i), AtIndex(j)) => i <= j
    case (AtIndex(i), Whole) => i == 0
    case (_, _) => false
  }

  predicate Fills(t: Test) {
    match t.want
    case Exists => true
    case Absent => false
    case IsEqual(v) => t.addr == Whole ==> Present(Some(v))
  }

  /** Two tests that no cell passes both of. */
  predicate Clash(t: Test, u: Test) {
    t.prop == u.prop &&
    ((Fills(t) && !Fills(u) && Within(u.addr, t.addr))
     || (t.addr == u.addr && t.want.IsEqual? && u.want.IsEqual? && t.want != u.want))
  }

  /** Absence asked of a column that is never empty. */
  predicate NeverEmpty(t: Test) {
    t.addr == Whole && t.want == Absent && !t.prop.IsNullable() && t.prop.Held().card == Single
  }

  // A map with bool keys has only two: something in it, and neither of them.
  ghost predicate Cornered(tests: seq<Test>, t: Test) {
    && t.addr == Whole && t.want == Exists && t.prop.IsMap()
    && Test(t.prop, AtKey(BoolKey(true)), Absent) in tests && Test(t.prop, AtKey(BoolKey(false)), Absent) in tests
  }

  /** No test contradicts another, or its column. */
  ghost predicate Coherent(tests: seq<Test>) {
    && (forall t <- tests :: !NeverEmpty(t) && !Cornered(tests, t))
    && (forall t <- tests, u <- tests :: !Clash(t, u))
  }

  ghost predicate TestsFit(env: Env, tests: seq<Test>) {
    forall t <- tests :: OnProps(env, t.prop) && TestFits(t)
  }

  /** A cell for the column that passes every test on it. */
  ghost predicate Passes(p: Prop, tests: seq<Test>, c: Cell) {
    CellFits(p, c) && forall t <- tests :: t.prop == p ==> Satisfies(c, t.addr, t.want)
  }

  // ---- Keys no test names ----

  function KeySize(k: MapKey): int {
    match k
    case BoolKey(_) => 0
    case IntKey(i) => i
    case StringKey(s) => |s|
  }

  function Above(tests: seq<Test>): (n: nat)
    ensures forall t <- tests :: t.addr.AtKey? ==> KeySize(t.addr.key) < n
  {
    if tests == [] then 0
    else
      var n, a := Above(tests[1..]), tests[0].addr;
      if a.AtKey? && n <= KeySize(a.key) then KeySize(a.key) + 1 else n
  }

  function FreshKey(kind: KeyKind, tests: seq<Test>): (k: MapKey)
    requires kind != BoolKind
    ensures KindOfKey(k) == kind && forall t <- tests :: t.addr != AtKey(k)
  {
    var n := Above(tests);
    var k := match kind case IntKind => IntKey(n) case StringKind => StringKey(seq(n, _ => 'a'));
    assert KeySize(k) == n;
    assert forall t <- tests :: t.addr.AtKey? ==> KeySize(t.addr.key) != KeySize(k);
    k
  }

  // A key of the column's kind that no test wants absent.
  lemma FreeKey(p: Prop, tests: seq<Test>) returns (k: MapKey)
    requires p.IsMap() && Test(p, Whole, Exists) in tests && !Cornered(tests, Test(p, Whole, Exists))
    ensures KindOfKey(k) == p.desc.keyKind && Test(p, AtKey(k), Absent) !in tests
  {
    if p.desc.keyKind == BoolKind {
      k := BoolKey(Test(p, AtKey(BoolKey(true)), Absent) !in tests);
    } else {
      k := FreshKey(p.desc.keyKind, tests);
    }
  }

  // ---- Coherent tests can be passed, column by column ----

  ghost function ValueAt(p: Prop, addr: Address, tests: seq<Test>): (v: Value)
    ensures Coherent(tests) ==> forall w :: Test(p, addr, IsEqual(w)) in tests ==> v == w
  {
    if v :| Test(p, addr, IsEqual(v)) in tests then
      assert Coherent(tests) ==> forall w :: Test(p, addr, IsEqual(w)) in tests ==>
        !Clash(Test(p, addr, IsEqual(v)), Test(p, addr, IsEqual(w)));
      v
    else Bytes([])
  }

  function Filled(fd: FieldDesc): (v: Value)
    ensures HasShape(fd, v) && Present(Some(v))
  {
    match fd.card
    case Single => Bytes([])
    case Repeated => List([Bytes([])])
    case Mapped =>
      var k := match fd.keyKind case BoolKind => BoolKey(true) case IntKind => IntKey(0) case StringKind => StringKey("");
      assert k in map[k := Bytes([])];
      Map(map[k := Bytes([])])
  }

  lemma PlainCell(p: Prop, tests: seq<Test>) returns (c: Cell)
    requires !p.IsList() && !p.IsMap() && Coherent(tests) && forall t <- tests :: TestFits(t)
    ensures Passes(p, tests, c)
  {
    if t :| t in tests && t.prop == p && t.want.IsEqual? {
      c := Some(t.want.value);
      forall u <- tests | u.prop == p ensures Satisfies(c, u.addr, u.want) {
        assert !Clash(t, u) && !Clash(u, t);
      }
    } else if t :| t in tests && t.prop == p && t.want == Absent {
      assert !NeverEmpty(t);
      c := if p.IsNullable() then None else Some(if p.Held().card == Mapped then Map(map[]) else List([]));
      forall u <- tests | u.prop == p ensures Satisfies(c, u.addr, u.want) {
        assert !Clash(u, t);
      }
    } else {
      c := Some(Filled(p.Held()));
    }
  }

  lemma MapCell(p: Prop, tests: seq<Test>) returns (c: Cell)
    requires p.IsMap() && Coherent(tests) && forall t <- tests :: TestFits(t)
    ensures Passes(p, tests, c)
  {
    hide Clash, Cornered, NeverEmpty;
    var named := set t | t in tests && t.prop == p && t.addr.AtKey? && t.want != Absent :: t.addr.key;
    var m := map k | k in named :: ValueAt(p, AtKey(k), tests);
    var whole := Test(p, Whole, Exists);
    if whole in tests && named == {} {
      var k := FreeKey(p, tests);
      m := map[k := Bytes([])];
      assert k in m;
    }
    c := Some(Map(m));
    assert forall k <- named :: k in m;
    forall u <- tests | u.prop == p ensures Satisfies(c, u.addr, u.want) {
      if u.addr.AtKey? && u.want == Absent {
        assert u == Test(p, AtKey(u.addr.key), Absent);
        if t :| t in tests && t.prop == p && t.addr == u.addr && t.want != Absent { KeyClash(t, u); }
      } else if u.addr == Whole && u.want == Absent {
        if k :| k in named {
          var t :| t in tests && t.prop == p && t.addr == AtKey(k) && t.want != Absent;
          KeyClash(t, u);
        }
        if whole in tests { KeyClash(whole, u); }
      } else if u.addr == Whole && named != {} {
        var k :| k in named;
        assert k in m;
      }
    }
  }

  lemma KeyClash(t: Test, u: Test)
    requires t.prop == u.prop && t.want != Absent && u.want == Absent && (t.addr == u.addr || u.addr == Whole)
    requires t.addr == Whole ==> t.want == Exists
    ensures Clash(t, u)
  {
  }

  // How long a list the tests need, and a test that needs it.
  function Reach(p: Prop, tests: seq<Test>): (n: nat)
    requires p.IsList() && forall t <- tests :: TestFits(t)
    ensures forall t <- tests :: t.prop == p && Fills(t) ==> if t.addr.AtIndex? then t.addr.index < n else n > 0
    ensures n > 0 ==> exists t <- tests :: t.prop == p && Fills(t) && Within(AtIndex(n - 1), t.addr)
  {
    if tests == [] then 0
    else
      var n, t := Reach(p, tests[1..]), tests[0];
      assert TestFits(t);
      if t.prop != p || !Fills(t) then n
      else if t.addr.AtIndex? && n <= t.addr.index then t.addr.index + 1
      else if t.addr == Whole && n == 0 then 1
      else n
  }

  lemma ListCell(p: Prop, tests: seq<Test>) returns (c: Cell)
    requires p.IsList() && Coherent(tests) && forall t <- tests :: TestFits(t)
    ensures Passes(p, tests, c)
  {
    var n := Reach(p, tests);
    var items := seq(n, i => ValueAt(p, AtIndex(i), tests));
    c := Some(List(items));
    forall u <- tests | u.prop == p ensures Satisfies(c, u.addr, u.want) {
      if n > 0 {
        var t :| t in tests && t.prop == p && Fills(t) && Within(AtIndex(n - 1), t.addr);
        assert !Clash(t, u);
      }
    }
  }

  lemma CellExists(p: Prop, tests: seq<Test>)
    requires Coherent(tests) && forall t <- tests :: TestFits(t)
    ensures exists c :: Passes(p, tests, c)
  {
    var c;
    if p.IsMap() {
      c := MapCell(p, tests);
    } else if p.IsList() {
      c := ListCell(p, tests);
    } else {
      c := PlainCell(p, tests);
    }
  }

  lemma RowExists(env: Env, tests: seq<Test>) returns (row: Row)
    requires EnvOk(env) && TestsFit(env, tests) && Coherent(tests)
    ensures RowFits(env.props, row) && TestsHold(row, tests)
  {
    hide Coherent, CellFits, Satisfies;
    forall n <- env.props ensures exists c :: Passes(env.props[n], tests, c) {
      CellExists(env.props[n], tests);
    }
    row := map n | n in env.props :: Chosen(env.props[n], tests);
    forall t <- tests ensures Holds(row, t) {
      assert Passes(t.prop, tests, row[t.prop.Number()]);
    }
  }

  ghost function Chosen(p: Prop, tests: seq<Test>): (c: Cell)
    requires exists c :: Passes(p, tests, c)
    ensures Passes(p, tests, c)
  {
    var c :| Passes(p, tests, c);
    c
  }

  lemma ClashFails(p: Prop, c: Cell, t: Test, u: Test)
    requires CellFits(p, c) && t.prop == p && u.prop == p && TestFits(t) && TestFits(u) && Clash(t, u)
    ensures !Satisfies(c, t.addr, t.want) || !Satisfies(c, u.addr, u.want)
  {
  }

  lemma CorneredFails(c: Cell, tests: seq<Test>, t: Test)
    requires t in tests && CellFits(t.prop, c) && TestFits(t) && Cornered(tests, t) && t.prop.desc.keyKind == BoolKind
    ensures !Passes(t.prop, tests, c)
  {
    assert forall k <- c.value.entries :: k == BoolKey(true) || k == BoolKey(false);
  }

  /** Tests that fit their columns are passed by some row of the entity if and only if they are coherent. */
  lemma CoherentIsSatisfiable(env: Env, tests: seq<Test>)
    requires EnvOk(env) && TestsFit(env, tests)
    ensures Coherent(tests) <==> exists row :: RowFits(env.props, row) && TestsHold(row, tests)
  {
    hide Clash, Satisfies, TestFits, CellFits;
    if Coherent(tests) {
      var row := RowExists(env, tests);
    }
    if row :| RowFits(env.props, row) && TestsHold(row, tests) {
      forall t <- tests, u <- tests ensures !Clash(t, u) {
        if Clash(t, u) {
          SameColumn(t, u);
          assert Holds(row, t) && Holds(row, u);
          ClashFails(t.prop, row[t.prop.Number()], t, u);
        }
      }
      forall t <- tests ensures !NeverEmpty(t) && !Cornered(tests, t) {
        assert Holds(row, t);
        NeverEmptyFails(row[t.prop.Number()], t);
        if Cornered(tests, t) {
          BoolKeyed(t, Test(t.prop, AtKey(BoolKey(true)), Absent));
          assert forall u <- tests :: u.prop == t.prop ==> Holds(row, u);
          CorneredFails(row[t.prop.Number()], tests, t);
        }
      }
    }
  }

  lemma SameColumn(t: Test, u: Test)
    requires Clash(t, u)
    ensures t.prop == u.prop
  {
  }

  lemma BoolKeyed(t: Test, u: Test)
    requires TestFits(u) && u.prop == t.prop && u.addr == AtKey(BoolKey(true))
    ensures t.prop.desc.keyKind == BoolKind
  {
  }

  lemma NeverEmptyFails(c: Cell, t: Test)
    requires CellFits(t.prop, c) && Satisfies(c, t.addr, t.want)
    ensures !NeverEmpty(t)
  {
  }
}
