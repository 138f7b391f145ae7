/** Documents that compile, and whose plans do not mean what the entries mean in order. */
module Disagreements {
  import opened Values
  import Literals
  import opened Schema
  import opened Plans
  import opened Rows
  import opened Elaboration
  import opened Bookkeeping
  import opened StepSafety
  import opened Coherence
  import opened InOrder
  import opened Agreement
  import Doc = Documents
  import opened Exactness

  const LABELS := FieldDesc(7, "labels", Mapped, ScalarKind(9), StringKind, "", false, false)
  const LABELS_PROP := Field(LABELS, FieldOpts(false, None, None, None, TypeJson, false, false, false))
  const LABELED := Schema.Entity("library.User", [LABELS], [LABELS_PROP])
  const ENV_KEY := StringKey("env")
  const PROD := Scalar(9, "prod")

  // "Set env, then remove env."
  const SET_THEN_REMOVE := Doc.Document("", [LabelEntry(Doc.Assign(Literals.LScalar(9, "prod"))), LabelEntry(Doc.Remove)])
  const SET_ENV := Put(LABELS_PROP, EditJSON([SetEntry(ENV_KEY, PROD)]), false)
  const GUARD_ENV := Guard(Test(LABELS_PROP, AtKey(ENV_KEY), Exists))
  const REMOVE_ENV := Put(LABELS_PROP, EditJSON([RemoveEntry(ENV_KEY)]), false)

  function LabelEntry(op: Doc.Operation): Doc.Entry {
    Doc.Entry([Doc.FieldKey(FieldRef(Some("labels"), None))],
              Doc.Targets([Doc.ByKey(Doc.MapEntryKey(ENV_KEY))]), op, false)
  }

  lemma LabelEntryElaborates(op: Doc.Operation, steps: seq<Step>)
    requires op.Assign? || op.Remove? || op.TestThat?
    requires AtMapEntry(NewEnv(LABELED, map[]), LabelEntry(op), LABELS_PROP, Doc.ByKey(Doc.MapEntryKey(ENV_KEY))) == Some(steps)
    ensures OneEntry(NewEnv(LABELED, map[]), LabelEntry(op), Root, 0) == Some(steps)
  {
    var env, e, sels := NewEnv(LABELED, map[]), LabelEntry(op), [Doc.ByKey(Doc.MapEntryKey(ENV_KEY))];
    assert LABELED.props[..0] == [] && ByNumber([]) == map[];
    assert Walk(env, Root, e.path) == Some(InMap(LABELS_PROP)) by { assert e.path[1..] == []; }
    assert sels[1..] == [] && steps + [] == steps;
    assert Selectors(env, e, sels, InMap(LABELS_PROP), {}) == Join(Some(steps), Some([]));
    assert OneEntry(env, e, Root, 0) == OnTargets(env, e, sels, InMap(LABELS_PROP), 0);
  }

  lemma SetThenRemoveElaborates()
    ensures Elaborate(NewEnv(LABELED, map[]), SET_THEN_REMOVE.delta, Root, 0) == Some([SET_ENV, GUARD_ENV, REMOVE_ENV])
  {
    var env, es := NewEnv(LABELED, map[]), SET_THEN_REMOVE.delta;
    LabelEntryElaborates(es[0].op, [SET_ENV]);
    assert [GUARD_ENV] + [REMOVE_ENV] == [GUARD_ENV, REMOVE_ENV];
    LabelEntryElaborates(es[1].op, [GUARD_ENV, REMOVE_ENV]);
    assert es[1..] == [es[1]] && es[1..][1..] == [];
    assert [GUARD_ENV, REMOVE_ENV] + [] == [GUARD_ENV, REMOVE_ENV];
    assert Entries(env, es[1..], Root, 0) == Some([GUARD_ENV, REMOVE_ENV]);
    assert [SET_ENV] + [GUARD_ENV, REMOVE_ENV] == [SET_ENV, GUARD_ENV, REMOVE_ENV];
  }

  lemma SetThenRemoveRuns()
    ensures Run(START, [SET_ENV, GUARD_ENV, REMOVE_ENV]).Some?
    ensures Run(START, [SET_ENV, GUARD_ENV, REMOVE_ENV]).value.tests == [GUARD_ENV.test]
  {
    assert [SET_ENV, GUARD_ENV, REMOVE_ENV][1..] == [GUARD_ENV, REMOVE_ENV] && [GUARD_ENV, REMOVE_ENV][1..] == [REMOVE_ENV];
    var s1 := Exec(START, SET_ENV).value;
    var s2 := Exec(s1, GUARD_ENV).value;
    var s3 := Exec(s2, REMOVE_ENV).value;
    RunOne(s2, REMOVE_ENV);
    assert Run(s1, [GUARD_ENV, REMOVE_ENV]) == Some(s3);
  }

  /** On a row without env: in order it applies, compiled it does not. */
  lemma SetThenRemoveDisagrees()
    ensures var env, row := NewEnv(LABELED, map[]), map[7 := Some(Map(map[]))];
            && Compiled(env, SET_THEN_REMOVE).Some? && RowFits(env.props, row)
            && Play(env, SET_THEN_REMOVE.delta, Root, row) == Some(row)
            && Apply(row, CompiledPlan(LABELED, map[], SET_THEN_REMOVE)) == None
  {
    hide Elaborate, Exec, Play, PlaySteps;
    var env, row: Row := NewEnv(LABELED, map[]), map[7 := Some(Map(map[]))];
    SetThenRemoveElaborates();
    SetThenRemoveRuns();
    SetThenRemovePlays(row);
    assert RowFits(env.props, row) by {
      assert LABELED.props[..0] == [] && ByNumber([]) == map[];
    }
    DocumentIsSteps(LABELED, map[], SET_THEN_REMOVE, row);
    assert !Holds(row, GUARD_ENV.test);
  }

  lemma SetThenRemovePlays(row: Row)
    requires row == map[7 := Some(Map(map[]))]
    ensures PlaySteps(row, [SET_ENV, GUARD_ENV, REMOVE_ENV]) == Some(row)
  {
    var set1: Row := map[7 := Some(Map(map[ENV_KEY := PROD]))];
    var nothing: map<MapKey, Value> := map[];
    assert nothing[ENV_KEY := PROD] == map[ENV_KEY := PROD];
    EditMeans(row[7], SetEntry(ENV_KEY, PROD));
    assert PutCell(row, LABELS_PROP, SET_ENV.op) == set1;
    assert PlayStep(row, SET_ENV) == Some(set1);
    EditMeans(set1[7], RemoveEntry(ENV_KEY));
    assert WithoutEntry(set1[7], ENV_KEY) == row[7];
    assert PutCell(set1, LABELS_PROP, REMOVE_ENV.op) == row;
    assert PlayStep(set1, REMOVE_ENV) == Some(row);
    PlayOnly(set1, REMOVE_ENV);
    assert [SET_ENV, GUARD_ENV, REMOVE_ENV][1..] == [GUARD_ENV, REMOVE_ENV] && [GUARD_ENV, REMOVE_ENV][1..] == [REMOVE_ENV];
  }

  // "Test that env is absent, set env, remove env."
  const TEST_SET_REMOVE := Doc.Document("", [LabelEntry(Doc.TestThat(Doc.WantExists(false)))] + SET_THEN_REMOVE.delta)
  const NO_ENV := Test(LABELS_PROP, AtKey(ENV_KEY), Absent)

  lemma TestSetRemoveElaborates()
    ensures Elaborate(NewEnv(LABELED, map[]), TEST_SET_REMOVE.delta, Root, 0) ==
            Some([Check(NO_ENV)] + [SET_ENV, GUARD_ENV, REMOVE_ENV])
  {
    var env, es := NewEnv(LABELED, map[]), TEST_SET_REMOVE.delta;
    LabelEntryElaborates(es[0].op, [Check(NO_ENV)]);
    SetThenRemoveElaborates();
    assert es[1..] == SET_THEN_REMOVE.delta;
    assert Entries(env, es, Root, 0) == Join(Some([Check(NO_ENV)]), Entries(env, es[1..], Root, 0));
  }

  lemma TestSetRemoveRuns()
    ensures var st := Run(START, [Check(NO_ENV)] + [SET_ENV, GUARD_ENV, REMOVE_ENV]);
            st.Some? && st.value.tests == [NO_ENV, GUARD_ENV.test]
  {
    var steps := [Check(NO_ENV)] + [SET_ENV, GUARD_ENV, REMOVE_ENV];
    assert steps[1..] == [SET_ENV, GUARD_ENV, REMOVE_ENV];
    assert [SET_ENV, GUARD_ENV, REMOVE_ENV][1..] == [GUARD_ENV, REMOVE_ENV] && [GUARD_ENV, REMOVE_ENV][1..] == [REMOVE_ENV];
    var s0 := Exec(START, Check(NO_ENV)).value;
    var s1 := Exec(s0, SET_ENV).value;
    var s2 := Exec(s1, GUARD_ENV).value;
    RunOne(s2, REMOVE_ENV);
    assert Run(s1, [GUARD_ENV, REMOVE_ENV]) == Exec(s2, REMOVE_ENV);
  }

  /** On a row without env: in order it applies, and the plan applies to no row at all. */
  lemma TestSetRemoveAppliesNowhere()
    ensures var env, row := NewEnv(LABELED, map[]), map[7 := Some(Map(map[]))];
            && Compiled(env, TEST_SET_REMOVE).Some? && RowFits(env.props, row)
            && Play(env, TEST_SET_REMOVE.delta, Root, row) == Some(row)
    ensures forall row :: Apply(row, CompiledPlan(LABELED, map[], TEST_SET_REMOVE)) == None
    ensures !Coherent(CompiledPlan(LABELED, map[], TEST_SET_REMOVE).tests)
    ensures !Agrees(LABELED, map[], TEST_SET_REMOVE)
  {
    hide Elaborate, Exec, Play, PlaySteps, Run;
    var env, row: Row := NewEnv(LABELED, map[]), map[7 := Some(Map(map[]))];
    TestSetRemoveElaborates();
    TestSetRemoveRuns();
    TestSetRemovePlays(row);
    assert RowFits(env.props, row) by {
      assert LABELED.props[..0] == [] && ByNumber([]) == map[];
    }
    DocumentIsSteps(LABELED, map[], TEST_SET_REMOVE, row);
    var tests := CompiledPlan(LABELED, map[], TEST_SET_REMOVE).tests;
    assert tests[0] == NO_ENV && tests[1] == GUARD_ENV.test;
    assert Clash(tests[1], tests[0]);
    forall r: Row ensures !TestsHold(r, tests) {
      assert Holds(r, tests[0]) ==> !Holds(r, tests[1]);
    }
  }

  lemma TestSetRemovePlays(row: Row)
    requires row == map[7 := Some(Map(map[]))]
    ensures PlaySteps(row, [Check(NO_ENV)] + [SET_ENV, GUARD_ENV, REMOVE_ENV]) == Some(row)
  {
    hide PlaySteps;
    SetThenRemovePlays(row);
    PlayOnly(row, Check(NO_ENV));
    PlayStepsAppend(row, [Check(NO_ENV)], [SET_ENV, GUARD_ENV, REMOVE_ENV]);
  }
}
