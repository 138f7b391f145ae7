/** Optimistic locking as a step system (README.md, "Version fields"). */
module Locking {
  import opened Values
  import opened Schema
  import opened Layout
  import opened Plans
  import opened Rows
  import opened Elaboration
  import opened Bookkeeping
  import opened Exactness
  import opened PlanSafety
  import opened Requests
  import Doc = Documents

  /** The row, every version ever stamped on it, and every row any client has read. */
  datatype Server = Server(row: Row, used: set<Cell>, seen: set<Row>)

  // Documents arrive from Patch requests, forced or not, and from Apply alike; the stamp is the server's clock.
  datatype Event = Read | Submit(doc: Doc.Document, stamp: Value)

  datatype Table = Table(e: Entity, types: Types, version: Prop)

  /** The server stamps a column of its own unless the plan already writes it. */
  ghost function Serve(s: Table, sv: Server, ev: Event): Server {
    match ev
    case Read => sv.(seen := sv.seen + {sv.row})
    case Submit(doc, stamp) =>
      if Compiled(NewEnv(s.e, s.types), doc).None? then sv else
      var plan, n := CompiledPlan(s.e, s.types, doc), s.version.Number();
      match Apply(sv.row, plan)
      case None => sv
      case Some(row) =>
        if plan.Writes(n) then sv.(row := row)
        else sv.(row := row[n := Some(stamp)], used := sv.used + {Some(stamp)})
  }

  ghost function ServeAll(s: Table, sv: Server, evs: seq<Event>): Server
    decreases evs
  {
    if evs == [] then sv else ServeAll(s, Serve(s, sv, evs[0]), evs[1..])
  }

  /** The assumption on clocks: no stamp repeats. */
  ghost predicate FreshStamps(s: Table, sv: Server, evs: seq<Event>)
    decreases evs
  {
    evs != [] ==>
      && (evs[0].Submit? ==> Some(evs[0].stamp) !in sv.used)
      && FreshStamps(s, Serve(s, sv, evs[0]), evs[1..])
  }

  ghost predicate IsVersionOf(s: Table) {
    OnProps(NewEnv(s.e, s.types), s.version) && s.version.IsVersion() && !s.version.IsCollection()
  }

  /** Versions identify rows: of the rows read and the row as it is, no two carry one version. */
  ghost predicate Identifies(s: Table, sv: Server) {
    var n := s.version.Number();
    && At(sv.row, n) in sv.used
    && (forall r <- sv.seen :: At(r, n) in sv.used)
    && (forall r <- sv.seen :: At(r, n) == At(sv.row, n) ==> r == sv.row)
    && (forall r <- sv.seen, q <- sv.seen :: At(r, n) == At(q, n) ==> r == q)
  }

  lemma ServeIdentifies(s: Table, sv: Server, ev: Event)
    requires IsVersionOf(s) && Identifies(s, sv)
    requires ev.Submit? ==> Some(ev.stamp) !in sv.used
    ensures Identifies(s, Serve(s, sv, ev))
  {
    if ev.Submit? && Compiled(NewEnv(s.e, s.types), ev.doc).Some? {
      NoForbiddenWrite(s.e, s.types, ev.doc, s.version);
    }
  }

  lemma {:induction false} RunIdentifies(s: Table, sv: Server, evs: seq<Event>)
    requires IsVersionOf(s) && Identifies(s, sv) && FreshStamps(s, sv, evs)
    ensures Identifies(s, ServeAll(s, sv, evs))
    decreases evs
  {
    if evs == [] {
    } else {
      ServeIdentifies(s, sv, evs[0]);
      RunIdentifies(s, Serve(s, sv, evs[0]), evs[1..]);
    }
  }

  /** An unforced request that carries the version of `read` asserts it. */
  ghost predicate Asserts(c: Context, version: Prop, read: Row) {
    && version in PatchProps(c.e.props) && Convertible(c, PatchProps(c.e.props))
    && IntentOf(c, version).Assert?
    && At(read, version.Number()) == Some(IntentOf(c, version).value)
  }

  /**
   No lost update: whatever readers, locked writers and forced writers did before,
   if an unforced request applies then the row it applies to is the row its client read.
   */
  lemma NoLostUpdate(s: Table, start: Row, evs: seq<Event>, c: Context, read: Row)
    requires IsVersionOf(s) && c.e == s.e
    requires FreshStamps(s, Server(start, {At(start, s.version.Number())}, {}), evs)
    requires SchemaOk(c.e) && DecodeUndoesEncode(s.types, c.encode) && Asserts(c, s.version, read)
    requires Compiled(NewEnv(s.e, s.types), RequestDoc(c)).Some?
    ensures var now := ServeAll(s, Server(start, {At(start, s.version.Number())}, {}), evs);
            read in now.seen && Apply(now.row, CompiledPlan(s.e, s.types, RequestDoc(c))).Some? ==> now.row == read
  {
    var begin := Server(start, {At(start, s.version.Number())}, {});
    RunIdentifies(s, begin, evs);
    RequestCompiles(c, s.types);
    RequestApplies(c, ServeAll(s, begin, evs).row);
  }

  /** An accepted request never writes the version, forced or not. */
  lemma VersionUnwritten(c: Context, version: Prop)
    requires WellFormed(c.e) && Convertible(c, PatchProps(c.e.props))
    requires version in c.e.props && version.IsVersion()
    ensures !RequestPlan(c).Writes(version.Number())
  {
    AsksOf(c, PatchProps(c.e.props));
    AskedOf(Asks(c, PatchProps(c.e.props)));
    forall w <- RequestPlan(c).writes ensures w.prop.Number() != version.Number() {
      assert w.prop in c.e.props && w.prop != version;
    }
  }

  lemma OnlyVersionsAreAsserted(c: Context, p: Prop)
    requires EntriesOf(c, p).Some?
    ensures IntentOf(c, p).Assert? <==> p.IsVersion() && FlagNumber(p) !in c.req.flags
    ensures IntentOf(c, p).Assert? ==>
              ValueNumber(p) in c.req.values && IntentOf(c, p) == Assert(c.req.values[ValueNumber(p)])
  {
  }

  /** The lock stays in the request: unless forced, its plan carries exactly one test, on the version. */
  lemma LockIsCarried(c: Context, version: Prop)
    requires WellFormed(c.e) && Convertible(c, PatchProps(c.e.props))
    requires version in c.e.props && version.IsVersion() && !version.IsImmutable() && !version.IsErased()
    requires forall p <- c.e.props :: p.IsVersion() ==> p == version
    ensures RequestPlan(c).tests == if FlagNumber(version) in c.req.flags then []
                                    else [Test(version, Whole, IsEqual(c.req.values[ValueNumber(version)]))]
  {
    hide EntriesOf, IntentOf;
    var props := PatchProps(c.e.props);
    var k :| 0 <= k < |props| && props[k] == version;
    var asks := Asks(c, props);
    var forced := FlagNumber(version) in c.req.flags;
    forall i | 0 <= i < |asks| ensures asks[i].intent.Assert? <==> i == k && !forced {
      assert props[i] in c.e.props;
      OnlyVersionsAreAsserted(c, props[i]);
    }
    OnlyVersionsAreAsserted(c, version);
    OnlyOneTest(asks, if forced then -1 else k);
  }

  lemma {:induction false} OnlyOneTest(asks: seq<Ask>, k: int)
    requires k < |asks|
    requires forall i | 0 <= i < |asks| :: asks[i].intent.Assert? <==> i == k
    ensures AskedTests(asks) == if k < 0 then [] else [Test(asks[k].prop, Whole, IsEqual(asks[k].intent.value))]
    decreases asks
  {
    if asks == [] {
    } else {
      OnlyOneTest(asks[1..], k - 1);
    }
  }
}
