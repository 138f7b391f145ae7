/** When, exactly, a compiled plan and the document it came from agree on every row. */
module Exactness {
  import opened Values
  import Literals
  import opened Schema
  import opened Plans
  import opened Rows
  import opened Elaboration
  import opened Bookkeeping
  import opened StepSafety
  import opened Coherence
  import opened InOrder
  import opened Agreement
  import Doc = Documents

  function TestsOf(steps: seq<Step>): seq<Test> {
    if steps == [] then []
    else (if steps[0].Put? then [] else [steps[0].test]) + TestsOf(steps[1..])
  }

  lemma {:induction false} RunTests(st: State, steps: seq<Step>)
    requires Run(st, steps).Some?
    ensures Run(st, steps).value.tests == st.tests + TestsOf(steps)
    decreases steps
  {
    if steps == [] {
    } else {
      var next := Exec(st, steps[0]).value;
      RunTests(next, steps[1..]);
      var first := if steps[0].Put? then [] else [steps[0].test];
      assert next.tests == st.tests + first;
      assert (st.tests + first) + TestsOf(steps[1..]) == st.tests + (first + TestsOf(steps[1..]));
    }
  }

  lemma {:induction false} TestsOfSteps(steps: seq<Step>)
    ensures forall t :: t in TestsOf(steps) <==> Check(t) in steps || Guard(t) in steps
  {
    if steps == [] {
    } else {
      TestsOfSteps(steps[1..]);
      assert forall s :: s in steps <==> s == steps[0] || s in steps[1..];
    }
  }

  /** The step a need comes from; reading it against the starting row asks at least as much. */
  predicate Backs(step: Step, need: Need) {
    match need
    case Author(t) => step == Check(t)
    case KeyIn(n, k) => step.Guard? && step.Prop().Number() == n && step.test.addr == AtKey(k)
    case Longer(n, m) =>
      step.Guard? && step.Prop().Number() == n && step.test.addr.AtIndex? && m <= step.test.addr.index
    case Never => step.Guard?
  }

  lemma {:induction false} NeedsAreBacked(env: Env, st: State, steps: seq<Step>, need: Need) returns (step: Step)
    requires StepsFit(env, steps) && need in Needs(st, steps)
    ensures step in steps && Backs(step, need)
    decreases steps
  {
    var next := Exec(st, steps[0]).value;
    if need in StepNeeds(st, steps[0]) {
      step := steps[0];
    } else {
      step := NeedsAreBacked(env, next, steps[1..], need);
    }
  }

  lemma {:induction false} AuthorsAreNeeds(st: State, steps: seq<Step>, t: Test)
    requires Run(st, steps).Some? && Check(t) in steps
    ensures Author(t) in Needs(st, steps)
    decreases steps
  {
    if steps[0] == Check(t) {
    } else {
      AuthorsAreNeeds(Exec(st, steps[0]).value, steps[1..], t);
    }
  }

  /** A row that meets the need passes the hoisted guard. */
  predicate Forces(need: Need, t: Test) {
    t.want == Exists &&
    match need
    case KeyIn(n, k) => t.prop.Number() == n && t.addr == AtKey(k)
    case Longer(n, m) => t.prop.Number() == n && t.addr.AtIndex? && t.addr.index <= m
    case Author(u) => u.prop == t.prop && u.want != Absent && Within(t.addr, u.addr)
    case Never => false
  }

  /** The in-order run already needs what the hoisted test asks. */
  ghost predicate Implied(needs: seq<Need>, t: Test) {
    Author(t) in needs || (exists need <- needs :: Forces(need, t)) || LastKey(needs, t)
  }

  // A map with bool keys that is not empty and has not the one has the other.
  ghost predicate LastKey(needs: seq<Need>, t: Test) {
    && t.want == Exists && t.addr.AtKey? && t.addr.key.BoolKey?
    && Author(Test(t.prop, Whole, Exists)) in needs && Author(Test(t.prop, OtherKey(t.addr), Absent)) in needs
  }

  function OtherKey(addr: Address): Address
    requires addr.AtKey? && addr.key.BoolKey?
  {
    AtKey(BoolKey(!addr.key.b))
  }

  /**
   A document is exact when hoisting its guards out of their places changes nothing:
   no guard asks for a key the document itself removed by then, and none asks for a
   key the document set, or an index its appends brought into range, unless some
   other entry needs as much of the row.
   */
  ghost predicate Exact(steps: seq<Step>) {
    var needs := Needs(START, steps);
    Never !in needs && forall t <- TestsOf(steps) :: Implied(needs, t)
  }

  lemma ForcedHolds(env: Env, row: Row, need: Need, t: Test)
    requires RowFits(env.props, row) && StepFits(env, Guard(t)) && Met(row, need) && Forces(need, t)
    requires need.Author? ==> StepFits(env, Check(need.test))
    ensures Holds(row, t)
  {
    assert CellFits(t.prop, row[t.prop.Number()]);
  }

  lemma LastKeyHolds(env: Env, row: Row, t: Test)
    requires RowFits(env.props, row) && StepFits(env, Guard(t))
    requires t.want == Exists && t.addr.AtKey? && t.addr.key.BoolKey?
    requires Holds(row, Test(t.prop, Whole, Exists)) && Holds(row, Test(t.prop, OtherKey(t.addr), Absent))
    ensures Holds(row, t)
  {
    var c := row[t.prop.Number()];
    assert CellFits(t.prop, c);
    var k :| k in c.value.entries;
    assert k == BoolKey(k.b);
  }

  lemma BackMeets(env: Env, row: Row, step: Step, need: Need)
    requires RowFits(env.props, row) && StepFits(env, step) && Backs(step, need)
    ensures !step.Put?
    ensures need != Never && Holds(row, step.test) ==> Met(row, need)
  {
  }

  lemma ImpliedHolds(env: Env, steps: seq<Step>, row: Row, t: Test)
    requires StepsFit(env, steps) && Run(START, steps).Some? && RowFits(env.props, row)
    requires Implied(Needs(START, steps), t) && AllMet(row, Needs(START, steps)) && t in TestsOf(steps)
    ensures Holds(row, t)
  {
    hide RowFits, Forces, StepFits, Needs, TestsOf;
    var needs := Needs(START, steps);
    TestsOfSteps(steps);
    if Author(t) in needs {
      assert Met(row, Author(t));
    } else {
      if Check(t) in steps { AuthorsAreNeeds(START, steps, t); }
      assert StepFits(env, Guard(t));
      if LastKey(needs, t) {
        assert Met(row, Author(Test(t.prop, Whole, Exists))) && Met(row, Author(Test(t.prop, OtherKey(t.addr), Absent)));
        LastKeyHolds(env, row, t);
      } else {
        var need :| need in needs && Forces(need, t);
        var step := NeedsAreBacked(env, START, steps, need);
        assert StepFits(env, step);
        ForcedHolds(env, row, need, t);
      }
    }
  }

  lemma TestsAreNeeds(env: Env, steps: seq<Step>, row: Row)
    requires StepsFit(env, steps) && Run(START, steps).Some? && Exact(steps) && RowFits(env.props, row)
    ensures TestsHold(row, TestsOf(steps)) <==> AllMet(row, Needs(START, steps))
  {
    hide Needs, TestsOf, Backs, StepFits, RowFits, Implied, Holds, Met;
    var needs := Needs(START, steps);
    TestsOfSteps(steps);
    if TestsHold(row, TestsOf(steps)) {
      forall need <- needs ensures Met(row, need) {
        var step := NeedsAreBacked(env, START, steps, need);
        BackMeets(env, row, step, need);
      }
    }
    if AllMet(row, needs) {
      forall t <- TestsOf(steps) ensures Holds(row, t) {
        ImpliedHolds(env, steps, row, t);
      }
    }
  }

  lemma StartConsistent()
    ensures Consistent(START) && Steady(START)
    ensures forall row :: Sim(row, START, row)
  {
  }

  /** Steps that run, on a row that fits: same outcome, and the same row, all at once or in order. */
  lemma StepsAgree(env: Env, steps: seq<Step>, row: Row)
    requires EnvOk(env) && StepsFit(env, steps) && Run(START, steps).Some? && RowFits(env.props, row)
    ensures Consistent(Run(START, steps).value)
    ensures PlaySteps(row, steps).Some? <==> AllMet(row, Needs(START, steps))
    ensures PlaySteps(row, steps).Some? ==>
              PlaySteps(row, steps).value == ApplyWrites(row, PlanOf(Run(START, steps).value).writes)
    ensures Run(START, steps).value.tests == TestsOf(steps)
  {
    StartConsistent();
    RunConsistent(START, steps);
    RunTests(START, steps);
    assert START.tests + TestsOf(steps) == TestsOf(steps);
    NeedsAreWeakest(env, row, START, row, steps);
    if PlaySteps(row, steps).Some? {
      RunSim(row, START, row, steps);
      SimIsApplied(row, Run(START, steps).value, PlaySteps(row, steps).value);
    }
  }

  // ---- Documents ----

  function StepsOf(e: Entity, types: Types, doc: Doc.Document): seq<Step>
    requires Compiled(NewEnv(e, types), doc).Some?
  {
    Elaborate(NewEnv(e, types), doc.delta, Root, 0).value
  }

  function CompiledPlan(e: Entity, types: Types, doc: Doc.Document): Plan
    requires Compiled(NewEnv(e, types), doc).Some?
  {
    var st := Compiled(NewEnv(e, types), doc).value;
    RunConsistent(START, StepsOf(e, types, doc));
    PlanOf(st)
  }

  lemma DocumentIsSteps(e: Entity, types: Types, doc: Doc.Document, row: Row)
    requires Compiled(NewEnv(e, types), doc).Some? && RowFits(NewEnv(e, types).props, row)
    ensures var env, steps := NewEnv(e, types), StepsOf(e, types, doc);
            && EnvOk(env) && StepsFit(env, steps) && Run(START, steps) == Compiled(env, doc)
            && Play(env, doc.delta, Root, row) == PlaySteps(row, steps)
  {
    NewEnvOk(e, types);
    DocumentFits(e, types, doc.delta);
    DocumentPlays(NewEnv(e, types), doc.delta, Root, 0, row);
  }

  /** Folding loses nothing: where the in-order run succeeds, the plan's writes leave the same row. */
  lemma WritesMeanTheDocument(e: Entity, types: Types, doc: Doc.Document, row: Row)
    requires Compiled(NewEnv(e, types), doc).Some? && RowFits(NewEnv(e, types).props, row)
    ensures var played := Play(NewEnv(e, types), doc.delta, Root, row);
            played.Some? ==> played.value == ApplyWrites(row, CompiledPlan(e, types, doc).writes)
  {
    DocumentIsSteps(e, types, doc, row);
    StepsAgree(NewEnv(e, types), StepsOf(e, types, doc), row);
  }

  /** The in-order run's success is decided by the starting row alone. */
  lemma OutcomeIsItsNeeds(e: Entity, types: Types, doc: Doc.Document, row: Row)
    requires Compiled(NewEnv(e, types), doc).Some? && RowFits(NewEnv(e, types).props, row)
    ensures Play(NewEnv(e, types), doc.delta, Root, row).Some? <==>
            AllMet(row, Needs(START, StepsOf(e, types, doc)))
  {
    DocumentIsSteps(e, types, doc, row);
    StepsAgree(NewEnv(e, types), StepsOf(e, types, doc), row);
  }

  /** Compilation preserves meaning: one statement applies, and to the same row, exactly when the entries do in order. */
  lemma MeaningPreserved(e: Entity, types: Types, doc: Doc.Document, row: Row)
    requires Compiled(NewEnv(e, types), doc).Some? && RowFits(NewEnv(e, types).props, row)
    requires Exact(StepsOf(e, types, doc))
    ensures Apply(row, CompiledPlan(e, types, doc)) == Play(NewEnv(e, types), doc.delta, Root, row)
  {
    DocumentIsSteps(e, types, doc, row);
    StepsAgree(NewEnv(e, types), StepsOf(e, types, doc), row);
    TestsAreNeeds(NewEnv(e, types), StepsOf(e, types, doc), row);
  }

  // ---- The condition is exact ----

  ghost predicate AgreeOn(steps: seq<Step>, row: Row) {
    TestsHold(row, TestsOf(steps)) <==> AllMet(row, Needs(START, steps))
  }

  // A key of the column's kind that no test on it names.
  ghost function SpareKey(t: Test, tests: seq<Test>): (spare: Option<MapKey>)
    requires t in tests && t.addr.AtKey?
    ensures spare.Some? ==> KindOfKey(spare.value) == KindOfKey(t.addr.key)
    ensures spare.Some? ==> forall u <- tests :: u.prop == t.prop ==> u.addr != AtKey(spare.value)
    ensures spare.None? ==> t.addr.key.BoolKey? && exists u <- tests :: u.prop == t.prop && u.addr == OtherKey(t.addr)
  {
    var k := t.addr.key;
    if !k.BoolKey? then Some(FreshKey(KindOfKey(k), tests))
    else if exists u <- tests :: u.prop == t.prop && u.addr == OtherKey(t.addr) then None
    else Some(BoolKey(!k.b))
  }

  // The column without what the guard asks for; a map with something the document never mentions, if there is such.
  ghost function Without(c: Cell, t: Test, tests: seq<Test>): Cell
    requires t in tests
  {
    match (t.addr, c)
    case (AtKey(k), Some(Map(m))) =>
      (match SpareKey(t, tests)
       case None => Some(Map(m - {k}))
       case Some(spare) => Some(Map((m - {k})[spare := Bytes([])])))
    case (AtIndex(i), Some(List(l))) => if 0 <= i <= |l| then Some(List(l[..i])) else c
    case (_, _) => c
  }

  lemma WithoutIs(p: Prop, c: Cell, t: Test, tests: seq<Test>)
    requires t in tests && CellFits(p, c) && t.prop == p && TestFits(t) && t.addr != Whole && t.want == Exists
    requires Satisfies(c, t.addr, t.want)
    ensures CellFits(p, Without(c, t, tests)) && !Satisfies(Without(c, t, tests), t.addr, t.want)
  {
  }

  /** What a row passed before, it passes without the guard's target, unless that forces the guard. */
  lemma SurvivesWithout(p: Prop, c: Cell, t: Test, u: Test, tests: seq<Test>)
    requires CellFits(p, c) && u.prop == p && t.prop == p && TestFits(t) && TestFits(u) && t in tests && u in tests
    requires t.addr != Whole && t.want == Exists && Satisfies(c, t.addr, t.want) && Satisfies(c, u.addr, u.want)
    requires t.addr.AtKey? && SpareKey(t, tests).None? && u.addr == Whole ==> Satisfies(c, OtherKey(t.addr), Exists)
    ensures Forces(Author(u), t) || Satisfies(Without(c, t, tests), u.addr, u.want)
  {
    match t.addr {
      case AtKey(k) =>
        var spare := SpareKey(t, tests);
        var other := if spare.Some? then spare.value else OtherKey(t.addr).key;
        if u.addr == Whole { assert other in Without(c, t, tests).value.entries; }
      case AtIndex(i) => assert |Without(c, t, tests).value.items| == i;
    }
  }

  lemma NeedSurvives(env: Env, steps: seq<Step>, base: Row, t: Test, need: Need)
    requires EnvOk(env) && StepsFit(env, steps) && Run(START, steps).Some?
    requires RowFits(env.props, base) && TestsHold(base, TestsOf(steps)) && Guard(t) in steps && t in TestsOf(steps)
    requires need in Needs(START, steps) && need != Never && !Implied(Needs(START, steps), t)
    ensures Met(base[t.prop.Number() := Without(base[t.prop.Number()], t, TestsOf(steps))], need)
  {
    var step := NeedsAreBacked(env, START, steps, need);
    var n, tests := t.prop.Number(), TestsOf(steps);
    TestsOfSteps(steps);
    var u := step.test;
    assert StepFits(env, step) && StepFits(env, Guard(t));
    assert Holds(base, u) && Holds(base, t);
    if u.prop.Number() == n {
      if t.addr.AtKey? && SpareKey(t, tests).None? && u.addr == Whole {
        OtherIsThere(env, steps, base, t, u);
      }
      SurvivesWithout(t.prop, base[n], t, u, tests);
    }
  }

  lemma OtherIsThere(env: Env, steps: seq<Step>, base: Row, t: Test, u: Test)
    requires EnvOk(env) && StepsFit(env, steps) && Run(START, steps).Some?
    requires RowFits(env.props, base) && TestsHold(base, TestsOf(steps)) && Guard(t) in steps && t in TestsOf(steps)
    requires !Implied(Needs(START, steps), t) && t.addr.AtKey? && SpareKey(t, TestsOf(steps)).None?
    requires Check(u) in steps && u.prop == t.prop && u.addr == Whole && Holds(base, u) && Holds(base, t)
    ensures Satisfies(base[t.prop.Number()], OtherKey(t.addr), Exists)
  {
    hide Needs, TestsOf, Run, ValueFits;
    var tests := TestsOf(steps);
    TestsOfSteps(steps);
    var w :| w in tests && w.prop == t.prop && w.addr == OtherKey(t.addr);
    assert StepFits(env, Guard(t)) && StepFits(env, Check(u)) && Holds(base, w);
    AuthorsAreNeeds(START, steps, u);
    if w.want == Absent {
      assert Guard(w) in steps ==> StepFits(env, Guard(w));
      AuthorsAreNeeds(START, steps, w);
      assert u.want == Exists ==> LastKey(Needs(START, steps), t);
    }
  }

  /** A document that is not exact disagrees with its plan on some row. */
  lemma InexactDisagrees(env: Env, steps: seq<Step>, base: Row) returns (row: Row)
    requires EnvOk(env) && StepsFit(env, steps) && Run(START, steps).Some? && !Exact(steps)
    requires RowFits(env.props, base) && TestsHold(base, TestsOf(steps))
    ensures RowFits(env.props, row) && !AgreeOn(steps, row)
  {
    var needs, tests := Needs(START, steps), TestsOf(steps);
    if Never in needs {
      row := base;
      assert !Met(row, Never);
    } else {
      var t :| t in tests && !Implied(needs, t);
      TestsOfSteps(steps);
      if Check(t) in steps { AuthorsAreNeeds(START, steps, t); }
      assert StepFits(env, Guard(t)) && Holds(base, t);
      var n := t.prop.Number();
      row := base[n := Without(base[n], t, tests)];
      WithoutIs(t.prop, base[n], t, tests);
      forall need <- needs ensures Met(row, need) {
        NeedSurvives(env, steps, base, t, need);
      }
      assert !Holds(row, t);
    }
  }

  // ---- Plans that apply to no row ----

  /** What a need asks of a row, as a test. */
  function NeedTest(props: map<Num, Prop>, need: Need): Option<Test> {
    match need
    case Author(t) => Some(t)
    case KeyIn(n, k) => if n in props then Some(Test(props[n], AtKey(k), Exists)) else None
    case Longer(n, m) => if n in props && m >= 0 then Some(Test(props[n], AtIndex(m), Exists)) else None
    case Never => None
  }

  function NeedTests(props: map<Num, Prop>, needs: seq<Need>): seq<Test> {
    if needs == [] then []
    else
      var first := NeedTest(props, needs[0]);
      (if first.Some? then [first.value] else []) + NeedTests(props, needs[1..])
  }

  /** Some step of a document asks for this, or for more. */
  ghost predicate Backed(env: Env, need: Need) {
    exists step :: StepFits(env, step) && Backs(step, need)
  }

  lemma NeedTestMeans(env: Env, need: Need, row: Row)
    requires EnvOk(env) && RowFits(env.props, row) && Backed(env, need)
    ensures var t := NeedTest(env.props, need);
            && (t.Some? ==> OnProps(env, t.value.prop) && TestFits(t.value))
            && (Met(row, need) <==> need != Never && (t.Some? ==> Holds(row, t.value)))
  {
    var step :| StepFits(env, step) && Backs(step, need);
    assert CellFits(step.Prop(), row[step.Prop().Number()]);
  }

  lemma {:induction false} NeedTestsMean(env: Env, needs: seq<Need>, row: Row)
    requires EnvOk(env) && RowFits(env.props, row) && forall need <- needs :: Backed(env, need)
    ensures TestsFit(env, NeedTests(env.props, needs))
    ensures AllMet(row, needs) <==> Never !in needs && TestsHold(row, NeedTests(env.props, needs))
  {
    hide Met, Holds, Backed, NeedTest, TestFits;
    if needs == [] {
    } else {
      var first, t, rest := needs[0], NeedTest(env.props, needs[0]), NeedTests(env.props, needs[1..]);
      NeedTestMeans(env, first, row);
      NeedTestsMean(env, needs[1..], row);
      assert forall need :: need in needs <==> need == first || need in needs[1..];
      assert forall u :: u in NeedTests(env.props, needs) <==> t == Some(u) || u in rest;
    }
  }

  /** No row of the entity meets the needs: one of them never can, or two of them contradict. */
  ghost predicate Hopeless(env: Env, needs: seq<Need>) {
    Never in needs || !Coherent(NeedTests(env.props, needs))
  }

  lemma HopelessFails(env: Env, steps: seq<Step>)
    requires EnvOk(env) && StepsFit(env, steps)
    ensures Hopeless(env, Needs(START, steps)) <==>
            forall row | RowFits(env.props, row) :: !AllMet(row, Needs(START, steps))
  {
    var needs := Needs(START, steps);
    var tests := NeedTests(env.props, needs);
    forall need <- needs ensures Backed(env, need) {
      var step := NeedsAreBacked(env, START, steps, need);
    }
    var some := RowExists(env, []);
    NeedTestsMean(env, needs, some);
    CoherentIsSatisfiable(env, tests);
    forall row | RowFits(env.props, row)
      ensures AllMet(row, needs) <==> Never !in needs && TestsHold(row, tests)
    {
      NeedTestsMean(env, needs, row);
    }
  }

  lemma TestsOfFit(env: Env, steps: seq<Step>)
    requires StepsFit(env, steps)
    ensures TestsFit(env, TestsOf(steps))
  {
    TestsOfSteps(steps);
    forall t <- TestsOf(steps) ensures OnProps(env, t.prop) && TestFits(t) {
      assert StepFits(env, Check(t)) || StepFits(env, Guard(t));
    }
  }

  /** The plan and the in-order run give the same answer and the same row, on every row of the entity. */
  ghost predicate Agrees(e: Entity, types: Types, doc: Doc.Document)
    requires Compiled(NewEnv(e, types), doc).Some?
  {
    forall row | RowFits(NewEnv(e, types).props, row) ::
      Apply(row, CompiledPlan(e, types, doc)) == Play(NewEnv(e, types), doc.delta, Root, row)
  }

  lemma AgreesIsAgreeOn(e: Entity, types: Types, doc: Doc.Document)
    requires Compiled(NewEnv(e, types), doc).Some?
    ensures Agrees(e, types, doc) <==>
            forall row | RowFits(NewEnv(e, types).props, row) :: AgreeOn(StepsOf(e, types, doc), row)
  {
    var env, steps := NewEnv(e, types), StepsOf(e, types, doc);
    forall row | RowFits(env.props, row)
      ensures AgreeOn(steps, row) <==> Apply(row, CompiledPlan(e, types, doc)) == Play(env, doc.delta, Root, row)
    {
      DocumentIsSteps(e, types, doc, row);
      StepsAgree(env, steps, row);
    }
  }

  /**
   The plan agrees with the document on every row if and only if the document is
   exact, or both refuse every row: the plan's tests contradict one another, and so
   does what the in-order run needs.
   */
  lemma ExactIsExact(e: Entity, types: Types, doc: Doc.Document)
    requires Compiled(NewEnv(e, types), doc).Some?
    ensures var env, steps := NewEnv(e, types), StepsOf(e, types, doc);
            Agrees(e, types, doc) <==>
            Exact(steps) || (!Coherent(CompiledPlan(e, types, doc).tests) && Hopeless(env, Needs(START, steps)))
  {
    hide Exact, Hopeless, Coherent, RowFits, Needs;
    var env, steps := NewEnv(e, types), StepsOf(e, types, doc);
    NewEnvOk(e, types);
    DocumentFits(e, types, doc.delta);
    RunTests(START, steps);
    assert START.tests + TestsOf(steps) == TestsOf(steps);
    AgreesIsAgreeOn(e, types, doc);
    TestsOfFit(env, steps);
    CoherentIsSatisfiable(env, TestsOf(steps));
    HopelessFails(env, steps);
    if Exact(steps) {
      forall row | RowFits(env.props, row) ensures AgreeOn(steps, row) {
        TestsAreNeeds(env, steps, row);
      }
    } else if Coherent(TestsOf(steps)) {
      var base :| RowFits(env.props, base) && TestsHold(base, TestsOf(steps));
      var row := InexactDisagrees(env, steps, base);
    }
  }

  /** A document in which the author tests nothing agrees with its plan on every row if and only if it is exact. */
  lemma UntestedIsExact(e: Entity, types: Types, doc: Doc.Document)
    requires Compiled(NewEnv(e, types), doc).Some?
    requires forall step <- StepsOf(e, types, doc) :: !step.Check?
    ensures Coherent(CompiledPlan(e, types, doc).tests)
    ensures Agrees(e, types, doc) <==> Exact(StepsOf(e, types, doc))
  {
    hide Exact, Hopeless, Needs;
    var env, steps := NewEnv(e, types), StepsOf(e, types, doc);
    DocumentFits(e, types, doc.delta);
    RunTests(START, steps);
    assert START.tests + TestsOf(steps) == TestsOf(steps);
    TestsOfSteps(steps);
    forall t <- TestsOf(steps) ensures t.want == Exists {
      assert StepFits(env, Guard(t));
      assert Check(t).Check?;
    }
    ExactIsExact(e, types, doc);
  }

  // ---- A condition read off the document ----

  /** The guard asks for something no earlier entry of the document has touched. */
  predicate StableGuard(st: State, t: Test) {
    var n := t.prop.Number();
    n in st.writes ==>
      && st.writes[n].op.EditJSON?
      && (t.addr.AtKey? ==> FateOf(st.writes[n].op.ops, t.addr.key) == Untouched)
      && (t.addr.AtIndex? ==> Growth(st.writes[n].op.ops) == 0)
  }

  predicate GuardStable(st: State, steps: seq<Step>)
    decreases steps
  {
    steps == [] ||
    match Exec(st, steps[0])
    case None => true
    case Some(next) => (steps[0].Guard? ==> StableGuard(st, steps[0].test)) && GuardStable(next, steps[1..])
  }

  lemma {:induction false} StableNeeds(env: Env, st: State, steps: seq<Step>)
    requires StepsFit(env, steps) && Run(st, steps).Some? && GuardStable(st, steps)
    ensures Never !in Needs(st, steps)
    ensures forall t <- TestsOf(steps) :: Implied(Needs(st, steps), t)
    decreases steps
  {
    if steps == [] {
    } else {
      var step, next := steps[0], Exec(st, steps[0]).value;
      assert StepFits(env, step);
      StableNeeds(env, next, steps[1..]);
      var first, rest, needs := StepNeeds(st, step), Needs(next, steps[1..]), Needs(st, steps);
      assert needs == first + rest;
      assert forall need <- rest :: need in needs;
      if !step.Put? {
        assert first[0] in needs;
        assert Implied(needs, step.test);
      }
    }
  }

  /** A document whose guards ask only for what it has not touched is exact. */
  lemma StableIsExact(e: Entity, types: Types, doc: Doc.Document)
    requires Compiled(NewEnv(e, types), doc).Some? && GuardStable(START, StepsOf(e, types, doc))
    ensures Exact(StepsOf(e, types, doc))
  {
    NewEnvOk(e, types);
    DocumentFits(e, types, doc.delta);
    StableNeeds(NewEnv(e, types), START, StepsOf(e, types, doc));
  }
}
