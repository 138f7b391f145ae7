/** Positions in a list: what an index means, and after what it means nothing any more ("Positions in a list", ormpatch/doc.go). */
module Positions {
  import opened Values
  import opened Literals
  import opened Schema
  import opened Plans
  import opened Rows
  import opened Elaboration
  import opened Bookkeeping
  import opened StepSafety
  import opened InOrder
  import opened Agreement
  import opened Nesting
  import opened Routes
  import opened PlanSafety
  import opened Acceptance
  import Doc = Documents

  // ---- What entries say of a list ----

  predicate AtList(env: Env, e: Doc.Entry, p: Prop) {
    Walk(env, Root, e.path) == Some(InList(p))
  }

  predicate IsIndex(sel: Doc.Selector) {
    sel.ByKey? && sel.key.IndexKey?
  }

  /** The entry names a position of the list. */
  ghost predicate NamesPosition(env: Env, e: Doc.Entry, p: Prop) {
    AtList(env, e, p) && e.scope.Targets? && exists sel <- e.scope.selectors :: IsIndex(sel)
  }

  /** The entry appends to the list at its end, removes an element of it, or clears it, in the list or as a column. */
  ghost predicate ChangesLength(env: Env, e: Doc.Entry, p: Prop) {
    || (AtList(env, e, p) && e.scope.Targets? && e.op.Insert? && exists sel <- e.scope.selectors :: sel.Append?)
    || (AtList(env, e, p) && e.scope.Targets? && e.op.Remove? && exists sel <- e.scope.selectors :: IsIndex(sel))
    || (AtList(env, e, p) && e.scope.Container? && e.op.Remove?)
    || (Walk(env, Root, e.path) == Some(Root) && e.scope.Targets? && e.op.Remove? && p.IsList() &&
        exists sel <- e.scope.selectors :: sel.ByKey? && sel.key.FieldKey? && Resolve(env, sel.key.field) == Known(p))
  }

  /** How many elements the entry inserts into the list at container scope: as many as its literal has. */
  function Inserts(env: Env, e: Doc.Entry, p: Prop): nat {
    if AtList(env, e, p) && e.scope.Container? && e.op.Insert? && e.op.value.LList? then |e.op.value.values| else 0
  }

  function Inserted(env: Env, es: seq<Doc.Entry>, p: Prop): nat {
    if es == [] then 0 else Inserts(env, es[0], p) + Inserted(env, es[1..], p)
  }

  /** The entry assigns the position. */
  ghost predicate Assigns(env: Env, e: Doc.Entry, p: Prop, k: int) {
    NamesPosition(env, e, p) && e.op.Assign? && exists sel <- e.scope.selectors :: IsIndex(sel) && sel.key.index == k
  }

  ghost predicate Assigned(env: Env, es: seq<Doc.Entry>, p: Prop, k: int) {
    exists f <- es :: Assigns(env, f, p, k)
  }

  // ---- The steps they become ----

  lemma {:induction false} SelectorSteps(env: Env, e: Doc.Entry, sels: seq<Doc.Selector>, s: Place, seen: set<Ident>, sel: Doc.Selector)
    requires Selectors(env, e, sels, s, seen).Some? && sel in sels
    ensures One(env, e, s, sel).Some?
    ensures forall step <- One(env, e, s, sel).value :: step in Selectors(env, e, sels, s, seen).value
    decreases sels
  {
    hide One, IdentOf;
    if sels[0] == sel {
    } else {
      SelectorSteps(env, e, sels[1..], s, seen + {IdentOf(env, s, sels[0])}, sel);
    }
  }

  lemma {:induction false} StepsOfSelectors(env: Env, e: Doc.Entry, sels: seq<Doc.Selector>, s: Place, seen: set<Ident>, step: Step)
    returns (sel: Doc.Selector)
    requires Selectors(env, e, sels, s, seen).Some? && step in Selectors(env, e, sels, s, seen).value
    ensures sel in sels && One(env, e, s, sel).Some? && step in One(env, e, s, sel).value
    decreases sels
  {
    hide One, IdentOf;
    if step in One(env, e, s, sels[0]).value {
      sel := sels[0];
    } else {
      sel := StepsOfSelectors(env, e, sels[1..], s, seen + {IdentOf(env, s, sels[0])}, step);
    }
  }

  lemma TargetSteps(env: Env, e: Doc.Entry, t: Place)
    requires Walk(env, Root, e.path) == Some(t) && e.scope.Targets? && !e.op.Nest? && OneEntry(env, e, Root, 0).Some?
    ensures OneEntry(env, e, Root, 0) == Selectors(env, e, e.scope.selectors, t, {})
  {
    assert OneEntry(env, e, Root, 0) == OnTargets(env, e, e.scope.selectors, t, 0);
  }

  lemma PositionStep(env: Env, e: Doc.Entry, p: Prop) returns (step: Step)
    requires NamesPosition(env, e, p) && !e.op.Nest? && OneEntry(env, e, Root, 0).Some?
    ensures step in OneEntry(env, e, Root, 0).value && step.Prop() == p && PointsInto(step) && !step.Guard?
  {
    var sel :| sel in e.scope.selectors && IsIndex(sel);
    TargetSteps(env, e, InList(p));
    SelectorSteps(env, e, e.scope.selectors, InList(p), {}, sel);
    var steps := AtListElem(env, e, p, sel).value;
    step := steps[|steps| - 1];
    assert step in steps;
    if step.Put? { assert step.op.ops[0] in step.op.ops; }
  }

  lemma LengthStep(env: Env, e: Doc.Entry, p: Prop) returns (step: Step)
    requires ChangesLength(env, e, p) && OneEntry(env, e, Root, 0).Some?
    ensures step in OneEntry(env, e, Root, 0).value && step.Prop() == p && step.Put? && step.resizes
  {
    if AtList(env, e, p) && e.scope.Container? {
      assert OneEntry(env, e, Root, 0) == OnContainer(env, e, InList(p), 0);
      step := OneEntry(env, e, Root, 0).value[0];
    } else {
      var t := Walk(env, Root, e.path).value;
      TargetSteps(env, e, t);
      var sel :| sel in e.scope.selectors &&
        if t.Root? then sel.ByKey? && sel.key.FieldKey? && Resolve(env, sel.key.field) == Known(p)
        else if e.op.Insert? then sel.Append? else IsIndex(sel);
      SelectorSteps(env, e, e.scope.selectors, t, {}, sel);
      var steps := One(env, e, t, sel).value;
      step := steps[|steps| - 1];
      assert step in steps;
    }
  }

  lemma {:induction false} EntrySteps(env: Env, es: seq<Doc.Entry>, i: nat, step: Step) returns (k: nat)
    requires i < |es| && Entries(env, es, Root, 0).Some?
    requires OneEntry(env, es[i], Root, 0).Some? && step in OneEntry(env, es[i], Root, 0).value
    ensures k < |Entries(env, es, Root, 0).value| && Entries(env, es, Root, 0).value[k] == step
    decreases es
  {
    var first, rest := OneEntry(env, es[0], Root, 0).value, Entries(env, es[1..], Root, 0).value;
    assert Entries(env, es, Root, 0).value == first + rest;
    if i == 0 {
      k :| 0 <= k < |first| && first[k] == step;
    } else {
      var m := EntrySteps(env, es[1..], i - 1, step);
      k := |first| + m;
    }
  }

  /** Steps stand in the order of their entries. */
  lemma {:induction false} OrderKept(env: Env, es: seq<Doc.Entry>, i: nat, j: nat, a: Step, b: Step) returns (k: nat, l: nat)
    requires i < j < |es| && Entries(env, es, Root, 0).Some?
    requires OneEntry(env, es[i], Root, 0).Some? && a in OneEntry(env, es[i], Root, 0).value
    requires OneEntry(env, es[j], Root, 0).Some? && b in OneEntry(env, es[j], Root, 0).value
    ensures k < l < |Entries(env, es, Root, 0).value|
    ensures Entries(env, es, Root, 0).value[k] == a && Entries(env, es, Root, 0).value[l] == b
    decreases es
  {
    var first, rest := OneEntry(env, es[0], Root, 0).value, Entries(env, es[1..], Root, 0).value;
    assert Entries(env, es, Root, 0).value == first + rest;
    if i == 0 {
      k :| 0 <= k < |first| && first[k] == a;
      var m := EntrySteps(env, es[1..], j - 1, b);
      l := |first| + m;
    } else {
      k, l := OrderKept(env, es[1..], i - 1, j - 1, a, b);
      k, l := |first| + k, |first| + l;
    }
  }

  /**
   After an append at a list's end, a removal from it or a clear of it, in whatever
   nesting, an entry that names a position of the list keeps the document from
   compiling.
   */
  lemma MovedPositionsRefused(e: Entity, types: Types, doc: Doc.Document, i: nat, j: nat, p: Prop)
    requires Filled(doc.delta) && i < j < |Flatten(doc.delta, [])|
    requires ChangesLength(NewEnv(e, types), Flatten(doc.delta, [])[i], p)
    requires NamesPosition(NewEnv(e, types), Flatten(doc.delta, [])[j], p)
    ensures Compiled(NewEnv(e, types), doc) == None
  {
    hide ChangesLength, NamesPosition;
    var env, es := NewEnv(e, types), Flatten(doc.delta, []);
    NestingIsPrefix(env, doc);
    FlatNestsNothing(doc.delta, []);
    EntriesEach(env, es, Root, 0);
    if Entries(env, es, Root, 0).Some? {
      assert es[i] in es && es[j] in es && Compiles(env, es[i], Root, 0) && Compiles(env, es[j], Root, 0);
      NestsNoPosition(env, es[j], p);
      var a := LengthStep(env, es[i], p);
      var b := PositionStep(env, es[j], p);
      var k, l := OrderKept(env, es, i, j, a, b);
      assert !Together(FlatSteps(env, doc)[k], FlatSteps(env, doc)[l]);
    }
    RunIsCompatible(FlatSteps(env, doc));
  }

  lemma NestsNoPosition(env: Env, e: Doc.Entry, p: Prop)
    requires NamesPosition(env, e, p) && OneEntry(env, e, Root, 0).Some?
    ensures !e.op.Nest?
  {
    var sels := e.scope.selectors;
    assert OneEntry(env, e, Root, 0) == OnTargets(env, e, sels, InList(p), 0);
  }

  // ---- The list where an entry names a position ----

  /** Every write to the column so far edits it without moving a position. */
  ghost predicate Settled(steps: seq<Step>, n: Num) {
    forall a <- steps :: a.Put? && a.Prop().Number() == n ==>
      a.op.EditJSON? && !a.resizes && KeepsLength(a.op.ops) && forall o <- a.op.ops :: o.SetElem? ==> 0 <= o.index
  }

  function GrowthOn(steps: seq<Step>, n: Num): nat {
    if steps == [] then 0
    else (if steps[0].Put? && steps[0].op.EditJSON? && steps[0].Prop().Number() == n then Growth(steps[0].op.ops) else 0)
         + GrowthOn(steps[1..], n)
  }

  lemma {:induction false} GrowthAppend(a: seq<Step>, b: seq<Step>, n: Num)
    ensures GrowthOn(a + b, n) == GrowthOn(a, n) + GrowthOn(b, n)
  {
    if a == [] {
      assert a + b == b;
    } else {
      assert (a + b)[0] == a[0] && (a + b)[1..] == a[1..] + b;
      GrowthAppend(a[1..], b, n);
    }
  }

  ghost predicate PutsAt(step: Step, n: Num, k: int) {
    step.Put? && step.op.EditJSON? && step.Prop().Number() == n && exists o <- step.op.ops :: o.SetElem? && o.index == k
  }

  ghost predicate PutSomewhere(steps: seq<Step>, n: Num, k: int) {
    exists a <- steps :: PutsAt(a, n, k)
  }

  lemma {:induction false} Unreplaced(ops: seq<JSONOp>, k: int)
    requires forall o <- ops :: o.SetElem? ==> o.index != k
    ensures Replaced(ops, k) == None
  {
    if ops == [] {
    } else {
      assert ops[|ops| - 1] in ops && forall o <- ops[..|ops| - 1] :: o in ops;
      Unreplaced(ops[..|ops| - 1], k);
    }
  }

  lemma {:induction false} PlayedList(row: Row, steps: seq<Step>, n: Num)
    requires Settled(steps, n) && PlaySteps(row, steps).Some? && At(row, n).Some? && At(row, n).value.List?
    ensures var was, now := At(row, n).value, At(PlaySteps(row, steps).value, n);
            && now.Some? && now.value.List? && |now.value.items| == |was.items| + GrowthOn(steps, n)
            && forall k | 0 <= k < |was.items| && !PutSomewhere(steps, n, k) :: now.value.items[k] == was.items[k]
    decreases steps
  {
    if steps == [] {
    } else {
      var first, next, was := steps[0], PlayStep(row, steps[0]).value, At(row, n).value;
      assert forall a <- steps[1..] :: a in steps;
      if first.Put? && first.Prop().Number() == n {
        assert first in steps;
        GrowthMeans(was.items, first.op.ops);
        PositionsStay(was.items, first.op.ops);
        forall k | 0 <= k < |was.items| && !PutsAt(first, n, k)
          ensures At(next, n).value.items[k] == was.items[k]
        {
          Unreplaced(first.op.ops, k);
        }
      }
      PlayedList(next, steps[1..], n);
    }
  }

  // What the entries before leave of a list that no step of theirs moved.
  lemma {:induction false} EntriesGrowth(env: Env, es: seq<Doc.Entry>, p: Prop)
    requires EnvOk(env) && OnProps(env, p) && p.IsList()
    requires Entries(env, es, Root, 0).Some? && Settled(Entries(env, es, Root, 0).value, p.Number())
    requires forall e <- es :: !NamesContainer(e)
    ensures GrowthOn(Entries(env, es, Root, 0).value, p.Number()) == Inserted(env, es, p)
    decreases es
  {
    if es == [] {
    } else {
      var first, rest := OneEntry(env, es[0], Root, 0).value, Entries(env, es[1..], Root, 0).value;
      assert Entries(env, es, Root, 0).value == first + rest;
      assert es[0] in es && forall e <- es[1..] :: e in es;
      GrowthAppend(first, rest, p.Number());
      EntryGrowth(env, es[0], p);
      EntriesGrowth(env, es[1..], p);
    }
  }

  lemma EntryGrowth(env: Env, e: Doc.Entry, p: Prop)
    requires EnvOk(env) && OnProps(env, p) && p.IsList() && !NamesContainer(e)
    requires OneEntry(env, e, Root, 0).Some? && Settled(OneEntry(env, e, Root, 0).value, p.Number())
    ensures GrowthOn(OneEntry(env, e, Root, 0).value, p.Number()) == Inserts(env, e, p)
  {
    hide Settled, OnContainer, Selectors, PlaceOk;
    var t := Walk(env, Root, e.path).value;
    WalkedPlace(env, Root, e.path);
    match e.scope {
      case Container =>
        assert OneEntry(env, e, Root, 0) == OnContainer(env, e, t, 0);
        ContainerGrowth(env, e, p, t);
      case Targets(sels) =>
        TargetsGrowth(env, e, p, t);
      case UnsetScope =>
    }
  }

  lemma ContainerGrowth(env: Env, e: Doc.Entry, p: Prop, t: Place)
    requires OnProps(env, p) && p.IsList() && PlaceOk(env, t) && !e.op.Nest? && e.scope.Container?
    requires Walk(env, Root, e.path) == Some(t) && OnContainer(env, e, t, 0).Some?
    requires Settled(OnContainer(env, e, t, 0).value, p.Number())
    ensures GrowthOn(OnContainer(env, e, t, 0).value, p.Number()) == Inserts(env, e, p)
  {
    var step := OnContainer(env, e, t, 0).value[0];
    assert OnContainer(env, e, t, 0).value == [step];
    assert [step][1..] == [] && GrowthOn([], p.Number()) == 0;
    assert step in OnContainer(env, e, t, 0).value;
    if e.op.Insert? { InsertGrowth(env, e.op.value, t.prop); }
  }

  lemma TargetsGrowth(env: Env, e: Doc.Entry, p: Prop, t: Place)
    requires Walk(env, Root, e.path) == Some(t) && e.scope.Targets? && !NamesContainer(e)
    requires OneEntry(env, e, Root, 0).Some? && Settled(OneEntry(env, e, Root, 0).value, p.Number())
    ensures GrowthOn(OneEntry(env, e, Root, 0).value, p.Number()) == 0
  {
    hide One, Selectors, Walk;
    var steps := OneEntry(env, e, Root, 0).value;
    NestsOnlyContainers(env, e, t);
    TargetSteps(env, e, t);
    forall step <- steps | step.Put? && step.op.EditJSON? && step.Prop().Number() == p.Number()
      ensures Growth(step.op.ops) == 0
    {
      var sel := StepsOfSelectors(env, e, e.scope.selectors, t, {}, step);
      TargetStepGrowth(env, e, t, sel, step);
    }
    NoGrowth(steps, p.Number());
  }

  lemma NestsOnlyContainers(env: Env, e: Doc.Entry, t: Place)
    requires Walk(env, Root, e.path) == Some(t) && e.scope.Targets? && !NamesContainer(e) && OneEntry(env, e, Root, 0).Some?
    ensures !e.op.Nest?
  {
    assert OneEntry(env, e, Root, 0) == OnTargets(env, e, e.scope.selectors, t, 0);
  }

  /** Whatever a target appends counts as a change of length. */
  lemma TargetStepGrowth(env: Env, e: Doc.Entry, t: Place, sel: Doc.Selector, step: Step)
    requires One(env, e, t, sel).Some? && step in One(env, e, t, sel).value
    requires step.Put? && step.op.EditJSON? && !step.resizes
    ensures Growth(step.op.ops) == 0
  {
    assert |step.op.ops| == 1 && step.op.ops[..0] == [];
  }

  lemma {:induction false} NoGrowth(steps: seq<Step>, n: Num)
    requires forall step <- steps :: step.Put? && step.op.EditJSON? && step.Prop().Number() == n ==> Growth(step.op.ops) == 0
    ensures GrowthOn(steps, n) == 0
  {
    if steps == [] {
    } else {
      assert steps[0] in steps;
      NoGrowth(steps[1..], n);
    }
  }

  lemma InsertGrowth(env: Env, lit: Lit, p: Prop)
    requires p.IsList() && Denote(env.types, lit, p.desc, SiteField).Some?
    ensures lit.LList? && var v := Denote(env.types, lit, p.desc, SiteField).value;
            v.List? && |v.items| == |lit.values| && Growth(Appends(v.items)) == |lit.values|
  {
    var v := Denote(env.types, lit, p.desc, SiteField).value;
    MaterializedFaithfully(env.types, lit, p.desc, SiteField, v);
    assert Spells(env.types, lit, p.desc, SiteField, v);
    AppendsGrow(v.items);
  }

  lemma {:induction false} AppendsGrow(items: seq<Value>)
    ensures Growth(Appends(items)) == |items|
  {
    if items == [] {
    } else {
      var init := items[..|items| - 1];
      AppendsGrow(init);
      assert Appends(items)[..|Appends(items)| - 1] == Appends(init);
    }
  }

  /** A step that sets a position comes from an entry that assigns it. */
  lemma {:induction false} SetsAreAssigned(env: Env, es: seq<Doc.Entry>, p: Prop, step: Step, k: int) returns (e: Doc.Entry)
    requires EnvOk(env) && OnProps(env, p) && forall f <- es :: !NamesContainer(f)
    requires Entries(env, es, Root, 0).Some? && step in Entries(env, es, Root, 0).value && PutsAt(step, p.Number(), k)
    ensures e in es && Assigns(env, e, p, k)
    decreases es
  {
    var first, rest := OneEntry(env, es[0], Root, 0).value, Entries(env, es[1..], Root, 0).value;
    assert Entries(env, es, Root, 0).value == first + rest;
    if step in first {
      e := es[0];
      SetIsAssigned(env, e, p, step, k);
    } else {
      assert forall f <- es[1..] :: f in es;
      e := SetsAreAssigned(env, es[1..], p, step, k);
    }
  }

  lemma SetIsAssigned(env: Env, e: Doc.Entry, p: Prop, step: Step, k: int)
    requires EnvOk(env) && OnProps(env, p) && !NamesContainer(e)
    requires OneEntry(env, e, Root, 0).Some? && step in OneEntry(env, e, Root, 0).value && PutsAt(step, p.Number(), k)
    ensures Assigns(env, e, p, k)
  {
    hide One, Selectors, OnContainer;
    var t := Walk(env, Root, e.path).value;
    WalkedPlace(env, Root, e.path);
    if e.scope.Container? {
      assert OneEntry(env, e, Root, 0) == OnContainer(env, e, t, 0);
      ContainerSets(env, e, t, step);
    } else {
      NestsOnlyContainers(env, e, t);
      TargetSteps(env, e, t);
      var sel := StepsOfSelectors(env, e, e.scope.selectors, t, {}, step);
      TargetSets(env, e, t, sel, step, k);
    }
  }

  lemma ContainerSets(env: Env, e: Doc.Entry, t: Place, step: Step)
    requires !e.op.Nest? && OnContainer(env, e, t, 0).Some? && step in OnContainer(env, e, t, 0).value
    requires step.Put? && step.op.EditJSON?
    ensures forall o <- step.op.ops :: !o.SetElem?
  {
  }

  lemma TargetSets(env: Env, e: Doc.Entry, t: Place, sel: Doc.Selector, step: Step, k: int)
    requires PlaceOk(env, t) && One(env, e, t, sel).Some? && step in One(env, e, t, sel).value
    requires PutsAt(step, step.Prop().Number(), k)
    ensures t == InList(step.Prop()) && OnProps(env, step.Prop()) && e.op.Assign? && IsIndex(sel) && sel.key.index == k
  {
  }

  lemma {:induction false} EntriesBefore(env: Env, es: seq<Doc.Entry>, i: nat)
    requires i < |es| && Entries(env, es, Root, 0).Some?
    ensures Entries(env, es[..i], Root, 0).Some? && OneEntry(env, es[i], Root, 0).Some? && Entries(env, es[i + 1..], Root, 0).Some?
    ensures Entries(env, es, Root, 0).value ==
            Entries(env, es[..i], Root, 0).value + (OneEntry(env, es[i], Root, 0).value + Entries(env, es[i + 1..], Root, 0).value)
  {
    EntriesAppend(env, es[..i], es[i..]);
    assert es[..i] + es[i..] == es;
    assert es[i..][0] == es[i] && es[i..][1..] == es[i + 1..];
    assert Entries(env, es[i..], Root, 0) == Join(OneEntry(env, es[i], Root, 0), Entries(env, es[i + 1..], Root, 0));
  }

  // Everything before a step that points into a list leaves its positions alone.
  lemma BeforeIsSettled(env: Env, before: seq<Step>, b: Step, after: seq<Step>)
    requires Compatible(before + ([b] + after)) && StepsFit(env, before) && PointsInto(b) && !b.Guard?
    requires OnProps(env, b.Prop())
    ensures Settled(before, b.Prop().Number())
  {
    var all, n := before + ([b] + after), b.Prop().Number();
    assert all[|before|] == b;
    forall a <- before | a.Put? && a.Prop().Number() == n
      ensures a.op.EditJSON? && !a.resizes && KeepsLength(a.op.ops) && forall o <- a.op.ops :: o.SetElem? ==> 0 <= o.index
    {
      var k :| 0 <= k < |before| && before[k] == a;
      assert all[k] == a && Together(all[k], all[|before|]);
      assert StepFits(env, a);
    }
  }

  lemma SettledBefore(env: Env, es: seq<Doc.Entry>, i: nat, b: Step)
    requires EnvOk(env) && i < |es| && Entries(env, es, Root, 0).Some? && Compatible(Entries(env, es, Root, 0).value)
    requires OneEntry(env, es[i], Root, 0).Some? && b in OneEntry(env, es[i], Root, 0).value
    requires PointsInto(b) && !b.Guard? && OnProps(env, b.Prop())
    ensures Entries(env, es[..i], Root, 0).Some? && Settled(Entries(env, es[..i], Root, 0).value, b.Prop().Number())
  {
    hide Compatible, StepsFit, PointsInto, Settled, Entries, OneEntry;
    EntriesBefore(env, es, i);
    EntriesFit(env, es[..i], Root, 0);
    EntryFits(env, es[i], Root, 0);
    SettledPrefix(env, Entries(env, es[..i], Root, 0).value, OneEntry(env, es[i], Root, 0).value,
                  Entries(env, es[i + 1..], Root, 0).value, b);
  }

  lemma SettledPrefix(env: Env, before: seq<Step>, own: seq<Step>, rest: seq<Step>, b: Step)
    requires Compatible(before + (own + rest)) && StepsFit(env, before) && StepsFit(env, own)
    requires b in own && PointsInto(b) && !b.Guard? && OnProps(env, b.Prop())
    ensures Settled(before, b.Prop().Number())
  {
    hide Compatible, PointsInto;
    var k :| 0 <= k < |own| && own[k] == b;
    var earlier, later := before + own[..k], own[k + 1..] + rest;
    assert before + (own + rest) == earlier + ([b] + later);
    BeforeIsSettled(env, earlier, b, later);
    assert forall a <- before :: a in earlier;
  }

  lemma PositionIsInList(env: Env, e: Doc.Entry, p: Prop, row: Row)
    requires EnvOk(env) && NamesPosition(env, e, p) && RowFits(env.props, row)
    ensures OnProps(env, p) && p.IsList() && At(row, p.Number()).Some? && At(row, p.Number()).value.List?
    ensures Covers(env, row)
  {
    WalkedPlace(env, Root, e.path);
    assert CellFits(p, row[p.Number()]);
  }

  /**
   Wherever an entry of a compiled document names a position of a list, the list the
   entries before it leave has the length it started with plus as many elements as
   their container-scope inserts have, and every position it started with holds its
   element still unless one of them assigns it.
   */
  lemma PositionsMeanTheRow(e: Entity, types: Types, doc: Doc.Document, i: nat, p: Prop, row: Row)
    requires Filled(doc.delta) && i < |Flatten(doc.delta, [])| && Compiled(NewEnv(e, types), doc).Some?
    requires RowFits(NewEnv(e, types).props, row) && NamesPosition(NewEnv(e, types), Flatten(doc.delta, [])[i], p)
    ensures var env, es := NewEnv(e, types), Flatten(doc.delta, []);
            var played := Play(env, es[..i], Root, row);
            played.Some? ==>
              var was, now := At(row, p.Number()), At(played.value, p.Number());
              && was.Some? && was.value.List? && now.Some? && now.value.List?
              && |now.value.items| == |was.value.items| + Inserted(env, es[..i], p)
              && forall k | 0 <= k < |was.value.items| && !Assigned(env, es[..i], p, k) ::
                   now.value.items[k] == was.value.items[k]
  {
    hide Compatible, NamesPosition, Settled, RowFits;
    var env, es := NewEnv(e, types), Flatten(doc.delta, []);
    var steps := FlatSteps(env, doc);
    NewEnvOk(e, types);
    NestingIsPrefix(env, doc);
    FlatNestsNothing(doc.delta, []);
    RunIsCompatible(steps);
    EntriesBefore(env, es, i);
    var before := Entries(env, es[..i], Root, 0).value;
    PositionIsInList(env, es[i], p, row);
    NestsNoPosition(env, es[i], p);
    var b := PositionStep(env, es[i], p);
    SettledBefore(env, es, i, b);
    DocumentPlays(env, es[..i], Root, 0, row);
    if PlaySteps(row, before).Some? {
      PlayedList(row, before, p.Number());
      assert forall f <- es[..i] :: f in es;
      EntriesGrowth(env, es[..i], p);
      var was := At(row, p.Number()).value;
      forall k | 0 <= k < |was.items| && !Assigned(env, es[..i], p, k)
        ensures !PutSomewhere(before, p.Number(), k)
      {
        if a :| a in before && PutsAt(a, p.Number(), k) {
          var f := SetsAreAssigned(env, es[..i], p, a, k);
        }
      }
    }
  }
}
