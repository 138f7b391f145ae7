/** Which documents compile, said of their entries and of pairs of them. */
module Acceptance {
  import opened Values
  import opened Literals
  import opened Schema
  import opened Plans
  import opened Rows
  import opened Elaboration
  import opened Bookkeeping
  import opened StepSafety
  import opened Targets
  import opened Nesting
  import opened Routes
  import Doc = Documents

  // ---- One entry ----

  ghost predicate Spelled(env: Env, lit: Lit, fd: FieldDesc, site: Site) {
    exists v :: Spells(env.types, lit, fd, site, v)
  }

  lemma DenotesIfSpelled(env: Env, lit: Lit, fd: FieldDesc, site: Site)
    ensures Denote(env.types, lit, fd, site).Some? <==> Spelled(env, lit, fd, site)
    ensures forall v :: Denote(env.types, lit, fd, site) == Some(v) <==> Spells(env.types, lit, fd, site, v)
  {
    forall v ensures Denote(env.types, lit, fd, site) == Some(v) <==> Spells(env.types, lit, fd, site, v) {
      MaterializedFaithfully(env.types, lit, fd, site, v);
    }
  }

  predicate MayWrite(p: Prop) {
    if p.Edge? then p.eopts.immutable != Some(true) else p.fopts.immutable != Some(true) && !p.fopts.version
  }

  /** What an edge is compared and assigned by is its target's key. */
  function ComparedAs(p: Prop): FieldDesc {
    if p.Edge? then p.target.key else p.desc
  }

  /** A test of presence always; of a value where the literal spells one of the column's type, and never of a whole JSON document. */
  ghost predicate TestAccepted(env: Env, p: Prop, addr: Address, want: Doc.Want) {
    match want
    case WantExists(_) => true
    case WantValue(lit) =>
      && (addr == Whole ==> p.desc.card == Single || (p.Edge? && p.desc.card != Repeated))
      && (addr == Whole && p.Field? ==> p.fopts.typ != TypeJson)
      && exists v :: ValueFits(p, v) &&
                     Spells(env.types, lit, ComparedAs(p), if p.Edge? then SiteField else SiteOf(addr), v)
    case WantUnset => false
  }

  ghost predicate ColumnAccepted(env: Env, e: Doc.Entry, sel: Doc.Selector) {
    sel.ByKey? && sel.key.FieldKey? &&
    match Resolve(env, sel.key.field)
    case Refused => false
    case NoField => if e.op.TestThat? then e.op.want == Doc.WantExists(false) else e.skip
    case Known(p) =>
      match e.op
      case TestThat(want) => TestAccepted(env, p, Whole, want)
      case Assign(lit) => p.Field? && MayWrite(p) && Spelled(env, lit, p.desc, SiteField)
      case Remove => MayWrite(p) && (p.IsNullable() || (p.Field? && p.desc.card != Single))
      case _ => false
  }

  ghost predicate EdgeAccepted(env: Env, e: Doc.Entry, p: Prop, sel: Doc.Selector)
    requires p.Edge?
  {
    sel.ByKey? && sel.key.FieldKey? && NamesKey(p.target, sel.key.field) &&
    match e.op
    case TestThat(want) => TestAccepted(env, p, Whole, want)
    case Assign(lit) => MayWrite(p) && Spelled(env, lit, p.target.key, SiteField)
    case _ => false
  }

  ghost predicate MapAccepted(env: Env, e: Doc.Entry, p: Prop, sel: Doc.Selector) {
    if sel.EveryEntry? then e.op.Remove? && MayWrite(p)
    else
      sel.ByKey? && sel.key.MapEntryKey? && KindOfKey(sel.key.key) == p.desc.keyKind &&
      match e.op
      case TestThat(want) => TestAccepted(env, p, AtKey(sel.key.key), want)
      case Assign(lit) => MayWrite(p) && Spelled(env, lit, p.desc, SiteMapValue)
      case Remove => MayWrite(p)
      case _ => false
  }

  ghost predicate ListAccepted(env: Env, e: Doc.Entry, p: Prop, sel: Doc.Selector) {
    if sel.Append? then e.op.Insert? && MayWrite(p) && Spelled(env, e.op.value, p.desc, SiteElement)
    else
      sel.ByKey? && sel.key.IndexKey? && 0 <= sel.key.index < 0x8000_0000 &&
      match e.op
      case TestThat(want) => TestAccepted(env, p, AtIndex(sel.key.index), want)
      case Assign(lit) => MayWrite(p) && Spelled(env, lit, p.desc, SiteElement)
      case Remove => MayWrite(p)
      case _ => false
  }

  ghost predicate TargetAccepted(env: Env, e: Doc.Entry, s: Place, sel: Doc.Selector) {
    match s
    case Root => ColumnAccepted(env, e, sel)
    case InEdge(p) => p.Edge? && EdgeAccepted(env, e, p, sel)
    case InMap(p) => MapAccepted(env, e, p, sel)
    case InList(p) => ListAccepted(env, e, p, sel)
  }

  // At container scope nothing asks whether the column may be written.
  ghost predicate ContainerAccepted(env: Env, op: Doc.Operation, s: Place) {
    (s.InMap? || s.InList?) &&
    match op
    case Remove => true
    case Assign(lit) => Spelled(env, lit, s.prop.desc, SiteField)
    case Insert(lit) => s.InList? && Spelled(env, lit, s.prop.desc, SiteField)
    case _ => false
  }

  /** No two targets are one location; in an edge, no two are looked up as one field. */
  ghost predicate TargetsDiffer(env: Env, s: Place, sels: seq<Doc.Selector>) {
    if s.InEdge? then forall i, j | 0 <= i < j < |sels| :: FieldOf(env, sels[i]) != FieldOf(env, sels[j])
    else Apart(env, s, sels)
  }

  ghost predicate AcceptedAt(env: Env, e: Doc.Entry, t: Place) {
    match e.scope
    case Container => ContainerAccepted(env, e.op, t)
    case Targets(sels) =>
      && !e.op.Move? && !e.op.Copy? && !e.op.Nest?
      && (forall sel <- sels :: TargetAccepted(env, e, t, sel)) && TargetsDiffer(env, t, sels)
    case UnsetScope => false
  }

  /** An entry that nests nothing, with its whole route as its path. */
  ghost predicate Accepted(env: Env, e: Doc.Entry) {
    match Walk(env, Root, e.path)
    case None => false
    case Some(t) => AcceptedAt(env, e, t)
  }

  lemma TestedExactly(env: Env, p: Prop, addr: Address, want: Doc.Want)
    requires addr.AtKey? ==> p.IsMap()
    requires addr.AtIndex? ==> p.IsList()
    ensures Tested(env, p, addr, want).Some? <==> TestAccepted(env, p, addr, want)
  {
    if want.WantValue? {
      var fd, site := ComparedAs(p), if p.Edge? then SiteField else SiteOf(addr);
      DenotesIfSpelled(env, want.value, fd, site);
      var v := Denote(env.types, want.value, fd, site);
      if v.Some? { CheckIsLength(p, v.value); }
    }
  }

  lemma ColumnExactly(env: Env, e: Doc.Entry, sel: Doc.Selector)
    ensures AtColumn(env, e, sel).Some? <==> ColumnAccepted(env, e, sel)
  {
    if sel.ByKey? && sel.key.FieldKey? && Resolve(env, sel.key.field).Known? {
      hide Denote, Tested, TestAccepted, Spelled;
      var p := Resolve(env, sel.key.field).prop;
      if e.op.TestThat? { TestedExactly(env, p, Whole, e.op.want); }
      if e.op.Assign? { DenotesIfSpelled(env, e.op.value, p.desc, SiteField); }
    }
  }

  lemma EdgeExactly(env: Env, e: Doc.Entry, p: Prop, sel: Doc.Selector)
    requires p.Edge?
    ensures AtEdge(env, e, p, sel).Some? <==> EdgeAccepted(env, e, p, sel)
  {
    hide Denote, Tested, TestAccepted, Spelled;
    if e.op.TestThat? { TestedExactly(env, p, Whole, e.op.want); }
    if e.op.Assign? { DenotesIfSpelled(env, e.op.value, p.target.key, SiteField); }
  }

  lemma MapExactly(env: Env, e: Doc.Entry, p: Prop, sel: Doc.Selector)
    requires p.IsMap()
    ensures AtMapEntry(env, e, p, sel).Some? <==> MapAccepted(env, e, p, sel)
  {
    hide Denote, Tested, TestAccepted, Spelled;
    if e.op.TestThat? && sel.ByKey? && sel.key.MapEntryKey? { TestedExactly(env, p, AtKey(sel.key.key), e.op.want); }
    if e.op.Assign? { DenotesIfSpelled(env, e.op.value, p.desc, SiteMapValue); }
  }

  lemma ListExactly(env: Env, e: Doc.Entry, p: Prop, sel: Doc.Selector)
    requires p.IsList()
    ensures AtListElem(env, e, p, sel).Some? <==> ListAccepted(env, e, p, sel)
  {
    hide Denote, Tested, TestAccepted, Spelled;
    if e.op.TestThat? && sel.ByKey? && sel.key.IndexKey? { TestedExactly(env, p, AtIndex(sel.key.index), e.op.want); }
    if e.op.Assign? || e.op.Insert? { DenotesIfSpelled(env, e.op.value, p.desc, SiteElement); }
  }

  lemma TargetExactly(env: Env, e: Doc.Entry, s: Place, sel: Doc.Selector)
    requires PlaceOk(env, s)
    ensures One(env, e, s, sel).Some? <==> TargetAccepted(env, e, s, sel)
  {
    hide AtColumn, AtEdge, AtMapEntry, AtListElem, ColumnAccepted, EdgeAccepted, MapAccepted, ListAccepted;
    match s {
      case Root => ColumnExactly(env, e, sel);
      case InEdge(p) => EdgeExactly(env, e, p, sel);
      case InMap(p) => MapExactly(env, e, p, sel);
      case InList(p) => ListExactly(env, e, p, sel);
    }
  }

  lemma ContainerExactly(env: Env, e: Doc.Entry, s: Place, depth: nat)
    requires PlaceOk(env, s) && !e.op.Nest?
    ensures OnContainer(env, e, s, depth).Some? <==> ContainerAccepted(env, e.op, s)
  {
    if (e.op.Assign? || e.op.Insert?) && (s.InMap? || s.InList?) {
      DenotesIfSpelled(env, e.op.value, s.prop.desc, SiteField);
      DenotedShape(env.types, e.op.value, s.prop.desc);
    }
  }

  lemma TargetsExactly(env: Env, e: Doc.Entry, s: Place, sels: seq<Doc.Selector>)
    requires EnvOk(env) && PlaceOk(env, s)
    ensures Selectors(env, e, sels, s, {}).Some? <==>
            (forall sel <- sels :: TargetAccepted(env, e, s, sel)) && TargetsDiffer(env, s, sels)
  {
    hide One, TargetAccepted, Apart, FieldOf;
    forall sel <- sels ensures One(env, e, s, sel).Some? <==> TargetAccepted(env, e, s, sel) {
      TargetExactly(env, e, s, sel);
    }
    if s.InEdge? {
      EdgeTargets(env, e, s.prop, sels);
    } else {
      TargetsAreApart(env, e, s, sels);
    }
  }

  /** An entry without nests compiles, by itself, if and only if it is accepted. */
  lemma EntryExactly(env: Env, e: Doc.Entry)
    requires EnvOk(env) && !NamesContainer(e)
    ensures OneEntry(env, e, Root, 0).Some? <==> Accepted(env, e)
  {
    hide ContainerAccepted, TargetAccepted, TargetsDiffer, Selectors;
    WalkedPlace(env, Root, e.path);
    var r := Walk(env, Root, e.path);
    if r.Some? {
      var t := r.value;
      match e.scope {
        case Container =>
          ContainerExactly(env, e, t, 0);
          assert OneEntry(env, e, Root, 0) == OnContainer(env, e, t, 0);
        case Targets(sels) =>
          TargetsExactly(env, e, t, sels);
          assert OneEntry(env, e, Root, 0) == OnTargets(env, e, sels, t, 0);
        case UnsetScope =>
      }
    }
  }

  // ---- Entries together ----

  /** Whether two steps can stand in one statement, `a` before `b`. */
  ghost predicate Together(a: Step, b: Step) {
    a.Put? && a.Prop().Number() == b.Prop().Number() ==>
      && !b.Check?
      && (a.resizes ==> !PointsInto(b))
      && (!a.op.EditJSON? ==> !(b.Put? && b.op.EditJSON?))
  }

  ghost predicate PointsInto(b: Step) {
    if b.Put? then b.op.EditJSON? && exists o <- b.op.ops :: o.SetElem? || o.RemoveElem?
    else b.test.addr.AtIndex?
  }

  ghost predicate Compatible(steps: seq<Step>) {
    && (forall step <- steps :: step.Put? ==> OpValuesFit(step.column, step.op))
    && forall i, j | 0 <= i < j < |steps| :: Together(steps[i], steps[j])
  }

  ghost predicate Wrote(done: seq<Step>, n: Num) {
    exists a <- done :: a.Put? && a.Prop().Number() == n
  }

  ghost predicate WroteWhole(done: seq<Step>, n: Num) {
    exists a <- done :: a.Put? && !a.op.EditJSON? && a.Prop().Number() == n
  }

  ghost predicate Resized(done: seq<Step>, n: Num) {
    exists a <- done :: a.Put? && a.resizes && a.Prop().Number() == n
  }

  /** What the memory knows of the steps done. */
  ghost predicate Recalls(st: State, done: seq<Step>) {
    forall n :: RecallsAt(st, done, n)
  }

  ghost predicate RecallsAt(st: State, done: seq<Step>, n: Num) {
    && (n in st.wrote <==> n in st.writes)
    && (n in st.wrote <==> Wrote(done, n))
    && (n in st.resized <==> Resized(done, n))
    && (n in st.writes ==> (!st.writes[n].op.EditJSON? <==> WroteWhole(done, n)))
  }

  lemma ExecExactly(st: State, done: seq<Step>, step: Step)
    requires Recalls(st, done)
    ensures Exec(st, step).Some? <==>
            (step.Put? ==> OpValuesFit(step.column, step.op)) && forall a <- done :: Together(a, step)
    ensures Exec(st, step).Some? ==> Recalls(Exec(st, step).value, done + [step])
  {
    hide CheckOp, OpValuesFit, PointsInto;
    if step.Put? { CheckIsLengths(step.column, step.op); }
    PointsIsNames(step);
    assert RecallsAt(st, done, step.Prop().Number());
    if Exec(st, step).Some? { RecallsOn(st, done, step); }
  }

  lemma PointsIsNames(step: Step)
    ensures step.NamesIndex() <==> PointsInto(step)
  {
    if step.Put? && step.op.EditJSON? {
      assert forall o <- step.op.ops :: NamesElem(o) <==> o.SetElem? || o.RemoveElem?;
    }
  }

  lemma HistoryGrows(done: seq<Step>, step: Step, n: Num)
    ensures Wrote(done + [step], n) <==> Wrote(done, n) || (step.Put? && step.Prop().Number() == n)
    ensures WroteWhole(done + [step], n) <==> WroteWhole(done, n) || (step.Put? && !step.op.EditJSON? && step.Prop().Number() == n)
    ensures Resized(done + [step], n) <==> Resized(done, n) || (step.Put? && step.resizes && step.Prop().Number() == n)
  {
    assert forall a :: a in done + [step] <==> a in done || a == step;
  }

  lemma RecallsOn(st: State, done: seq<Step>, step: Step)
    requires Recalls(st, done) && Exec(st, step).Some?
    ensures Recalls(Exec(st, step).value, done + [step])
  {
    forall n ensures RecallsAt(Exec(st, step).value, done + [step], n) {
      hide Wrote, WroteWhole, Resized, CheckOp;
      assert RecallsAt(st, done, n);
      HistoryGrows(done, step, n);
      WholeIsWritten(done, n);
    }
  }

  lemma WholeIsWritten(done: seq<Step>, n: Num)
    ensures WroteWhole(done, n) ==> Wrote(done, n)
  {
  }

  ghost predicate JoinsAll(done: seq<Step>, steps: seq<Step>) {
    && Compatible(steps)
    && forall a, b | a in done && b in steps :: Together(a, b)
  }

  lemma {:induction false} RunExactly(st: State, done: seq<Step>, steps: seq<Step>)
    requires Recalls(st, done)
    ensures Run(st, steps).Some? <==> JoinsAll(done, steps)
    decreases steps
  {
    hide Together, Recalls, OpValuesFit;
    if steps == [] {
    } else {
      ExecExactly(st, done, steps[0]);
      if Exec(st, steps[0]).Some? {
        RunExactly(Exec(st, steps[0]).value, done + [steps[0]], steps[1..]);
      }
      JoinsOneByOne(done, steps);
    }
  }

  lemma JoinsOneByOne(done: seq<Step>, steps: seq<Step>)
    requires steps != []
    ensures JoinsAll(done, steps) <==>
            && (steps[0].Put? ==> OpValuesFit(steps[0].column, steps[0].op))
            && (forall a <- done :: Together(a, steps[0])) && JoinsAll(done + [steps[0]], steps[1..])
  {
    hide Together, OpValuesFit;
    var first, rest := steps[0], steps[1..];
    assert forall step :: step in steps <==> step == first || step in rest;
    assert forall a :: a in done + [first] <==> a in done || a == first;
    if JoinsAll(done, steps) {
      forall b <- rest ensures Together(first, b) {
        var j :| 0 <= j < |rest| && rest[j] == b;
        assert steps[j + 1] == b && steps[0] == first;
      }
      forall i, j | 0 <= i < j < |rest| ensures Together(rest[i], rest[j]) {
        assert rest[i] == steps[i + 1] && rest[j] == steps[j + 1];
      }
    }
    if JoinsAll(done + [first], rest) {
      forall i, j | 0 <= i < j < |steps| ensures Together(steps[i], steps[j]) {
        assert steps[j] == rest[j - 1];
        if i == 0 {
          assert first in done + [first] && rest[j - 1] in rest;
        } else {
          assert steps[i] == rest[i - 1];
        }
      }
    }
  }

  /** Steps can all be done if and only if their values fit and every two of them can stand in one statement. */
  lemma RunIsCompatible(steps: seq<Step>)
    ensures Run(START, steps).Some? <==> Compatible(steps)
  {
    RunExactly(START, [], steps);
  }

  // ---- Documents ----

  lemma {:induction false} FlatNestsNothing(es: seq<Doc.Entry>, prefix: seq<Doc.Key>)
    ensures forall e <- Flatten(es, prefix) :: !NamesContainer(e)
    decreases es, 1
  {
    if es == [] {
    } else {
      FlatEntryNestsNothing(es[0], prefix);
      FlatNestsNothing(es[1..], prefix);
    }
  }

  lemma {:induction false} FlatEntryNestsNothing(e: Doc.Entry, prefix: seq<Doc.Key>)
    ensures forall f <- FlattenEntry(e, prefix) :: !NamesContainer(f)
    decreases e, 0
  {
    if !NamesContainer(e) {
    } else if e.scope.Container? {
      FlatNestsNothing(e.op.delta, prefix + e.path);
    } else {
      FlatNestsNothing(e.op.delta, prefix + e.path + [e.scope.selectors[0].key]);
    }
  }

  function FlatSteps(env: Env, doc: Doc.Document): seq<Step> {
    match Entries(env, Flatten(doc.delta, []), Root, 0)
    case None => []
    case Some(steps) => steps
  }

  /**
   A document compiles if and only if it is for this entity, its nests are plain, each
   entry with its whole route as its path is accepted, and all their steps can stand
   in one statement.
   */
  lemma CompilesExactly(e: Entity, types: Types, doc: Doc.Document)
    requires Filled(doc.delta)
    ensures var env := NewEnv(e, types);
            Compiled(env, doc).Some? <==>
            && (doc.messageType == "" || doc.messageType == e.fullName)
            && Plain(env, doc.delta, Root, 0)
            && (forall f <- Flatten(doc.delta, []) :: Accepted(env, f))
            && Compatible(FlatSteps(env, doc))
  {
    hide Accepted, Compatible, Plain;
    var env, flat := NewEnv(e, types), Flatten(doc.delta, []);
    NewEnvOk(e, types);
    NestingIsPrefix(env, doc);
    FlatNestsNothing(doc.delta, []);
    EntriesEach(env, flat, Root, 0);
    forall f <- flat ensures Compiles(env, f, Root, 0) <==> Accepted(env, f) {
      EntryExactly(env, f);
    }
    RunIsCompatible(FlatSteps(env, doc));
    assert Elaborate(env, flat, Root, 0) == Entries(env, flat, Root, 0);
  }

  /** A document for another entity never compiles. */
  lemma ForeignDocumentRefused(e: Entity, types: Types, doc: Doc.Document)
    requires doc.messageType != "" && doc.messageType != e.fullName
    ensures Compiled(NewEnv(e, types), doc) == None
  {
  }
}
