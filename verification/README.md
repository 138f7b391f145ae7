# protobuf-orm, modelled and proved

This project models the two halves of protobuf-orm that decide what a write means, and proves
what they promise.

**The row compiler** (`ormpatch`). A patch document is a list of entries, each of which sees
the effects of the ones before it. `Compile` turns it into a plan: tests that read the row as it
was, and at most one folded write per column, so that a backend can carry it out in one
statement. Two interpreters stand beside it. `InOrder.Play` runs a document entry after entry
on the row and knows nothing of folding, of what was written or of what was resized.
`Rows.Apply` is the backend: all tests, then all writes. `Exactness.MeaningPreserved` says that
the two give the same answer and the same row, and `Exactness.ExactIsExact` says when.

**The schema parser** (`graph`). Entities are registered before their fields are parsed, so that
cyclic schemas resolve; a failure takes its own registration back; a file is staged in a clone.

| module | what it holds |
|---|---|
| `Values`, `Schema`, `Documents`, `Plans`, `Rows` | data: values and descriptors, props and their options, patch documents, plans, rows and what a plan does to one |
| `Literals` | document literals to column values, and what a literal spells |
| `Elaboration` | what each entry asks of the compiler's memory, as a list of steps: author's test, existence guard, write |
| `Bookkeeping` | the memory (`tests`, `order`, `writes`, `wrote`, `resized`) and what a step does to it |
| `Compiler` | the compiler object and its methods, each shown to do exactly the steps of `Elaboration` on the memory of `Bookkeeping`, and `Compile` itself |
| `InOrder` | the in-order interpreter |
| `StepSafety`, `Agreement`, `Coherence`, `Exactness`, `PlanSafety` | the compiler's theorems |
| `Disagreements` | documents whose plans mean something else |
| `Routes`, `Targets`, `Acceptance`, `Positions` | where paths lead; the targets of one entry; exactly which documents compile; what an index means |
| `Nesting`, `Commuting` | nesting is a shared prefix; independent plans commute |
| `Layout`, `Requests`, `Locking` | the numbering of a PatchRequest, its conversion, and the version lock as a step system |
| `FieldRules`, `MessageChecks`, `GraphParser`, `ParsedSchemas` | option rules, what a message must be to parse, the parser over its heap of entities, and the bridge from a parsed entity to what the compiler needs |
| `BackReferences` | a schema with a back reference that parses |

## Reading the results

*Meaning.* A compiled document's writes, applied together, leave the row its in-order run
leaves, with no side condition (`WritesMeanTheDocument`). Whether the in-order run succeeds is
decided by the starting row alone, through a list of needs computed at compile time
(`OutcomeIsItsNeeds`). The plan and the document agree on every row when the document is
*exact*: no guard is hoisted out of reach of an edit that decides it (`MeaningPreserved`). A
document whose guards ask only for what it has not touched is exact (`StableIsExact`).

*Where the code falls short of `ormpatch/doc.go`.* It says that Compile detects an entry that
reads a column an earlier one wrote and refuses it. The existence guard of a map-entry remove is
added without looking at `wrote`, and a container-scope insert into a list does not count as a
resize, so some documents compile to a plan with another meaning. Two are given: "set k, remove
k" differs on a row without k, and "test that k is absent, set k, remove k" compiles to a plan
that applies to no row. `ExactIsExact` gives the condition for all documents, both ways: plan and
document agree on every row if and only if the document is exact, or the plan's tests contradict
one another and so do the in-order run's needs. `CoherentIsSatisfiable` shows that contradiction
can be read off the tests. A document in which the author tests nothing needs only to be exact
(`UntestedIsExact`).

*What compiles.* `CompilesExactly` says which documents compile, without the compiler's memory:
the document is for this entity, its nests are plain, each entry with its whole route as its path
is accepted (`Accepted`, a table of place and operation), and every two steps can stand in one
statement (`Together`). In particular nothing follows a route of two segments, a declared field
without a column is refused and not skipped, and after an append at a list's end, a removal or a
clear no entry may name a position of the list (`MovedPositionsRefused`).

*Targets of one entry.* The compiler refuses a location named twice by comparing identities. At
the root, in a map and in a list an identity is a location (`TargetsAreApart`). In an edge it
looks names up in the wrong entity, so that the target's key can be named twice
(`KeyNamedTwice`); `EdgeTargets` says exactly when.

*Version fields.* A comment in `graph/patchreq.go` says that a version field is never nullable.
The rules check the option and not the optional keyword, so `optional google.protobuf.Timestamp`
passes and is nullable (`OptionalVersionIsNullable`); `AcceptedNullability` gives the condition.

*The write ban.* A container-scope entry never asks whether its column may be
written. `BanIsExact` says that exactly the columns that are not collections are protected.

*Nesting.* A container-scope nest is refused in an edge and at the root, and chains of nests
are limited in depth; `Plain` says so, and with it nesting is only a shared prefix.

*The lock.* `NoLostUpdate` is about every run of readers, locked writers and forced writers.
It assumes that the server never stamps a version twice. The model covers updates; the
lock does not cover deletes.

*Parsing.* Whether a back reference resolves depends on which entity is parsed first, because
the target may be half filled. `Finish` states the outcome exactly in terms of the target as it
stands. Without back references a file parses if and only if every message reachable from it by
edges is registered already or meets its own checks (`Parse`). With them, a parse that fails names
its reason (`Justified`): a message that fails its own checks, an edge to a message that is no
entity or fails in turn, or a back reference that matches nothing among the target's props exactly
as they stood, or matches an edge that is unique when it may not be. `BackReferences` shows a
schema that has no such reason, and parses it. An edge is unique exactly when it
was declared so or was marked as one end of a singular back-referenced pair; every contract of
the parser keeps this (`Marked`), and says which pairs are new. A message not yet registered is
removed from the measure when it is declared, which is why parsing a cyclic schema terminates.

## Model

| member | source | states |
|---|---|---|
| Compiler.Compile | ormpatch/compile.go:25-73 | a document compiles exactly when its entries' steps all run, and the plan is the memory they leave: the tests in order and one write per column in order of first write |
| Compiler.Compiler.Delta | ormpatch/compile.go:115-125 | the entries are done in order from one place, and none at all beyond the depth limit; refusal of any is refusal of all |
| Compiler.Compiler.Entry | ormpatch/compile.go:127-147 | an entry is its container or target form, at the place its path leads to |
| Compiler.Compiler.WalkPath | ormpatch/compile.go:149-191 | a path leads to a place exactly when each of its segments can be followed from the root into a map, a list or an edge |
| Routes.WalkMeans | ormpatch/compile.go:149-191 | a path leads nowhere new, or from the root by exactly one field key into the map, the list or the edge that the field's column is |
| Routes.LongRoutesRefused | ormpatch/compile.go:304-307 | however a document nests it, an entry whose nest targets and path together have two segments or more keeps the document from compiling |
| Compiler.Compiler.OnContainer | ormpatch/compile.go:194-253 | the five container-scope operations and their refusals; an insert appends each element and does not count as a resize |
| Compiler.Compiler.OnTargets | ormpatch/compile.go:256-300 | each target in turn, a nest on exactly one, move and copy refused, and no identity seen twice |
| Compiler.Compiler.AtColumn | ormpatch/compile.go:390-478 | what an entry on a column does: vacant fields under SKIP and under a test, clearing by kind of column, and the write ban |
| Compiler.Compiler.AtEdge | ormpatch/compile.go:480-523 | through an edge only the target's key is reached, to test it or assign it |
| Compiler.Compiler.AtMapEntry | ormpatch/compile.go:527-597 | the operations on map entries; a remove is guarded unless skipped, whatever was written before |
| Compiler.Compiler.AtListElem | ormpatch/compile.go:600-675 | the operations on list elements; an index is refused once the list was resized or when it is out of the addressable range |
| Compiler.Compiler.RecordTest | ormpatch/compile.go:678-743 | a test is recorded only on a column not written so far, never comparing a JSON document whole, and with a value of the column's type |
| Compiler.Compiler.Write | ormpatch/compile.go:771-811 | folding: edits concatenate, a whole write replaces, an edit after a whole write is refused, and nothing else of the memory changes |
| Compiler.Compiler.Addressable | ormpatch/compile.go:869-891 | an index is honoured exactly when the list was not resized and the index is in 0 to 2^31-1 |
| Compiler.IndexProps | ormpatch/props.go:20-31 | every prop is filed under its number, the last of equals winning |
| Elaboration.ByNumberFiles | ormpatch/props.go:20-31 | the index holds props of the entity only, each under its own number, and all of them |
| Elaboration.PinnedPropResolves | ormpatch/props.go:40-57 | a reference by both name and number finds the prop itself |
| Routes.ResolveMeans | ormpatch/props.go:40-57 | a reference is a column's if and only if it resolves to the field of one of the entity's props; it is vacant exactly when no declared field answers; a conflict and a declared field without a column are refused |
| Routes.ColumnlessRefused | ormpatch/props.go:49-54 | an entry that names a declared field without a column never compiles, skipped or tested absent as it may be |
| Targets.TargetsAreApart | ormpatch/compile.go:256-300 | at the root, in a map and in a list, an entry's targets compile if and only if each one does and no two name the same part of the same column; vacant fields count as one location |
| Targets.EdgeTargets | ormpatch/compile.go:335-350 | in an edge every target that compiles names the one location there is; two of them compile together if and only if their references name different fields of the entity the edge starts from |
| Targets.KeyNamedTwice | ormpatch/compile.go:335-350 | an entry that names its edge's key once by name and once by number, and compiles to the same write twice |
| Targets.TargetTouches | ormpatch/compile.go:375-387 | every step of a target reads or writes the location its selector names, and no other |
| StepSafety.DocumentFits | ormpatch/compile.go:194-743 | every step of every document, however nested, is on a prop of the entity and within what its kind, its mutability and its nullability allow |
| Acceptance.EntryExactly | ormpatch/compile.go:194-743 | an entry compiles by itself if and only if its place, its operation, its literal and its column's options are a combination the engine takes, and its targets differ |
| Acceptance.RunIsCompatible | ormpatch/compile.go:600-811 | steps can all be done if and only if their values have the right length and no test follows a write of its column, no index a resize, and no partial edit a whole write |
| Acceptance.CompilesExactly | ormpatch/compile.go:25-73 | a document compiles if and only if it is for this entity, its nests are plain, each of its flattened entries is accepted, and all their steps can stand in one statement |
| Acceptance.ForeignDocumentRefused | ormpatch/compile.go:49-54 | a document that names another message type never compiles |
| InOrder.DocumentPlays | ormpatch/doc.go:56-66 | the in-order interpreter of documents and the play of their steps are the same run, nests and skips included |
| InOrder.GuardedPlays | ormpatch/compile.go:572-588 | guard and edit together are the in-order remove or assign: a miss aborts, or under SKIP leaves the row alone |
| Bookkeeping.RunConsistent | ormpatch/compile.go:93-108 | after every step `order` has no repeats, its elements are the keys of `writes` and of `wrote`, and `resized` is part of `wrote` |
| Bookkeeping.PlanColumns | ormpatch/compile.go:66-69 | the plan holds one write per column, and writes column n if and only if some entry wrote it |
| Agreement.FoldMeans | ormpatch/compile.go:783-810 | a folded operation does to any cell what its two parts do one after the other |
| Agreement.RunSim | ormpatch/doc.go:56-66 | at every point of the in-order run each column is its pending write applied to the starting row |
| Agreement.FateMeans | ormpatch/compile.go:572-588 | whether a key is in a map after any list of edits depends on the last edit that names it or on a clear, and otherwise on whether it was there |
| Agreement.GrowthMeans | ormpatch/compile.go:221-237 | edits that only append and replace leave a list longer by exactly its appends |
| Agreement.GuardMeans | ormpatch/compile.go:572-588 | a guard holds on the row as it stands if and only if the starting row meets the needs computed from the pending writes |
| Agreement.NeedsAreWeakest | ormpatch/doc.go:56-66 | from any reachable memory, the rest of the in-order run succeeds if and only if the starting row meets every need |
| Exactness.WritesMeanTheDocument | ormpatch/compile.go:771-811 | for every compiled document and row, if the in-order run succeeds the plan's writes leave the same row |
| Exactness.OutcomeIsItsNeeds | ormpatch/doc.go:56-66 | for every compiled document and row, the in-order run succeeds if and only if the row meets the document's needs |
| Exactness.MeaningPreserved | ormpatch/doc.go:56-66 | for every exact document and row, the plan applies if and only if the in-order run succeeds, and leaves the same row |
| Exactness.ExactIsExact | ormpatch/doc.go:56-66 | for every compiled document: plan and in-order run agree on every row of the entity if and only if the document is exact, or the plan's tests contradict one another and what the in-order run needs does too |
| Exactness.UntestedIsExact | ormpatch/compile.go:572-588 | where the author tests nothing the guards never contradict, and plan and in-order run agree on every row if and only if the document is exact |
| Exactness.HopelessFails | ormpatch/doc.go:56-66 | the in-order run refuses every row of the entity if and only if one of its needs can never be met or two of them contradict |
| Coherence.CoherentIsSatisfiable | ormpatch/compile.go:678-743 | tests on columns of the entity are passed by some row if and only if no two contradict, none asks a column that is never empty to be empty, and no map of bool keys is to be filled with neither key |
| Exactness.InexactDisagrees | ormpatch/compile.go:572-588 | from any row the plan applies to, and a document that is not exact, a row on which plan and in-order run differ |
| Exactness.StableIsExact | ormpatch/compile.go:572-588 | a document whose guards ask only for keys and lengths it has not touched is exact |
| Disagreements.SetThenRemoveDisagrees | ormpatch/compile.go:572-588 | "set k, remove k" compiles, applies in order on a row without k, and its plan does not apply |
| Disagreements.TestSetRemoveAppliesNowhere | ormpatch/compile.go:572-588 | "test that k is absent, set k, remove k" compiles, applies in order on a row without k, and its plan applies to no row at all |
| PlanSafety.PlanFits | ormpatch/compile.go:834-851 | in every compiled plan, through any folding, every byte string for a UUID column has length 16, in tests, whole values and their elements and map values, edge keys and partial edits; indices are addressable, and operations match their columns |
| Plans.CheckIsLengths | ormpatch/compile.go:834-851 | an operation passes the check if and only if every value it carries into a UUID column has length 16 |
| PlanSafety.NoForbiddenWrite | ormpatch/compile.go:760-768 | no plan writes an immutable or version column that is not a collection: no row is re-keyed, no version is chosen |
| PlanSafety.BanIsExact | ormpatch/compile.go:194-253 | no document at all compiles to a write of a forbidden column if and only if that column is not a collection |
| PlanSafety.ClearsAreNullable | ormpatch/plan.go:105-117 | ClearColumn and ClearEdge appear on nullable props only, and edge operations on edges only |
| PlanSafety.AppliedRowFits | ormpatch/plan.go:105-126 | a plan takes rows of the entity to rows of the entity: collections stay collections, NULL only where it may be |
| PlanSafety.TestsReadUntouched | ormpatch/compile.go:678-685 | wherever an author's test stands in the in-order run, its column is as in the starting row |
| PlanSafety.IndexStable | ormpatch/compile.go:600-665 | wherever a step names an index, the list has its starting length plus the appends pending, and every starting position holds its starting element or the one a step before last put there |
| Positions.MovedPositionsRefused | ormpatch/doc.go:70-92 | in whatever nesting, an entry that names a position of a list after an append at its end, a removal from it or a clear of it keeps the document from compiling |
| Positions.PositionsMeanTheRow | ormpatch/doc.go:70-92 | wherever an entry of a compiled document names a position, the list has its starting length plus the elements of the container-scope inserts before, and every starting position not assigned before holds its starting element |
| Nesting.NestingIsPrefix | ormpatch/compile.go:239-240 | a document compiles if and only if its nests are plain and its flattened form compiles, and then to the same plan |
| Nesting.OpenedIsWalk | ormpatch/compile.go:304-331 | entering a nest's target is walking one segment further |
| Commuting.PlansCommute | ormpatch/plan.go:119-126 | plans that write different columns or different entries of a map, and test nothing of each other's, leave the same row and get the same answers in either order |
| Commuting.KeyAfterEdits | ormpatch/plan.go:119-126 | edits leave an entry they do not name alone, and decide one they name whatever it held |
| Plans.WriteTo | ormpatch/plan.go:60-70 | finds the write to a column if there is one, and the only one when columns are not repeated |
| Plans.WritesTo | ormpatch/plan.go:51-54 | whether the plan writes the column |
| Literals.Materialize | ormpatch/value.go:24-66 | a literal becomes the value it denotes or is refused, at any depth |
| Literals.FillMessage | ormpatch/value.go:125-165 | the named fields in order, refused on an unknown field, a repeated one, or two members of one real oneof |
| Literals.FillList | ormpatch/value.go:167-194 | elements in order |
| Literals.FillMap | ormpatch/value.go:196-236 | entries by key, refused on a repeated key |
| Literals.MaterializedFaithfully | ormpatch/value.go:24-66 | a literal denotes a value if and only if it spells it: same length and order, one map entry per literal entry, exactly the named fields, no duplicates or rival oneof members, at every depth |
| Layout.PatchProps | graph/patchreq.go:64-78 | the props of a request are those neither immutable nor erased, and stay distinct |
| Layout.SlotNumbers | graph/patchreq.go:80-91 | for a legal field number doubling does not overflow int32, and the slot is allowed if and only if the number is outside 9500-9999 and at most 268435455 |
| Layout.NeverTaken | graph/patchreq.go:167-220 | the duplicate-number refusal is unreachable |
| Layout.PatchLayout | graph/patchreq.go:167-220 | succeeds if and only if every patchable prop's number doubles, and is then a bijection between numbers and the ref, value and companion slots |
| Requests.FromPatchRequest | ormpatch/frompatchreq.go:75-190 | the document is the entries of each patchable prop in order; one refusal refuses the request, and asking for nothing gives no document |
| Requests.FromProp | ormpatch/frompatchreq.go:86-190 | what one prop's fields say: version tested, forced or refused; null companion before value; edges through the resolver; plain values assigned |
| Requests.ConvertsExactly | ormpatch/frompatchreq.go:86-190 | a request converts if and only if its message has the slots, each version is given or forced and not both, each set edge is singular and resolves, and what is to be tested or written can be encoded |
| Requests.NothingAskedExactly | ormpatch/frompatchreq.go:186-190 | a request gives no document if and only if it sets nothing that has no null beside it, nulls nothing, and forces its version |
| Requests.SpellingsRoundTrip | ormpatch/frompatchreq.go:225-245 | the contract asked of the library's encoding can be met: an encoding of every value that some literal spells, at any depth, whose decoding undoes it |
| Requests.TimestampIsEncoded | ormpatch/frompatchreq.go:106-134 | such an encoding covers the Timestamp messages that version fields hold |
| Requests.EntryMeansIntent | ormpatch/frompatchreq.go:86-190 | each prop's entry elaborates to the one step the request means for that prop |
| Requests.RequestCompiles | ormpatch/frompatchreq.go:75-190 | a request that converts compiles if and only if every value fits its column's type, and then to the plan read directly off the request |
| Requests.RequestWrites | ormpatch/frompatchreq.go:86-190 | the plan writes a prop if and only if the request sets it, nulls it or repoints it, and with that operation |
| Requests.RequestApplies | ormpatch/frompatchreq.go:106-134 | that plan applies if and only if the row holds the version the request asserts |
| Requests.RequestLeaves | ormpatch/frompatchreq.go:86-190 | and then a non-empty map or list or a present singular value is stored exactly, a null prop is NULL even if a value came too, a set edge holds the key it resolved to, and a version and every other column are as they were |
| Locking.RunIdentifies | README.md:302-308 | over every run of readers and writers, any two rows that were read, and any of them and the row as it is, are the same row if they have the same version |
| Locking.NoLostUpdate | README.md:302-317 | over every run, if an unforced request's compiled plan applies, the row it applies to is the row its client read |
| Locking.VersionUnwritten | README.md:302-308 | an accepted request, forced or not, never writes the version |
| Locking.LockIsCarried | ormpatch/frompatchreq.go:106-134 | an unforced request's plan carries exactly one test, equality on the version; a forced one carries none |
| FieldRules.AcceptedNullability | graph/prop.go:79-129 | an accepted version field is mutable, a time, carries the force flag, and is nullable if and only if it is singular with the optional keyword; an accepted erased field is a mutable time, nullable if and only if it is singular; any other is nullable if and only if it is singular and marked so, optional, or with presence and not a time |
| FieldRules.RuledExactly | graph/prop.go:51-149 | what becomes of a declared field by the options written on it: both kinds refused, disabled, an edge, a field of the given or deduced type, or refused for what it says |
| MessageChecks.UnannotatedIsKept | graph/prop.go:70-78 | a field with no options is kept as a field of its deduced type |
| FieldRules.OptionalVersionIsNullable | graph/patchreq.go:93-122 | a version field declared optional is accepted and nullable |
| FieldRules.VersionIsPatchable | graph/patchreq.go:64-122 | a version field accepted by the rules is always part of the request, under the force flag |
| GraphParser.Graph.FindKey | graph/entity.go:126-156 | accepted if and only if exactly one field is marked key and none of its options contradicts that; the key is that field |
| GraphParser.Graph.CheckSingles | graph/entity.go:158-199 | accepted if and only if there is at most one version field and at most one erased field |
| GraphParser.Graph.ParseIndex | graph/index.go:46-94 | an index is accepted if and only if it has references, each finds a prop by number and by name, and it says of erased rows only what means something |
| GraphParser.Graph.ParseIndexes | graph/entity.go:201-213 | accepted if and only if every index resolves and says something of erased rows only where that means something; the indexes are those declared |
| GraphParser.Graph.FindInverse | graph/entity.go:222-243 | an inverse is found if and only if the target, as it stands, has an edge of that number and name that this edge may be the inverse of, and is that edge |
| GraphParser.Graph.ResolveInverses | graph/entity.go:215-259 | succeeds if and only if every back reference resolves against the target as it stands; exactly the singular pairs of the entity's own edges with their inverses are staged, and nothing is marked |
| GraphParser.Graph.ApplyStaged | graph/entity.go:263-266 | both ends of every staged pair become unique, and an edge is unique exactly when it was declared so or is an end of a pair, staged here or marked before |
| GraphParser.Graph.Settle | graph/entity.go:263-266 | the commits: the key becomes unique and immutable, every staged pair unique at both ends, and no edge is marked but for a pair of this entity |
| GraphParser.Graph.Finish | graph/entity.go:126-270 | validation succeeds if and only if the message's own checks and all back references hold; then the entity is finished, no other entity's fields or inverses changed, and edges became unique only as ends of this entity's pairs |
| GraphParser.Graph.ParseEdge | graph/prop.go:150-180 | an edge leads to the very entity registered under its message's name, parsed now if it was not there |
| GraphParser.Graph.ParseProp | graph/prop.go:51-181 | a prop has the options the rules give it; nothing registered is lost or changed; it fails only if the rules refuse it or it is an edge whose message is not registered and is no entity or fails in turn |
| GraphParser.Graph.ParseEntity | graph/entity.go:64-270 | terminates on every schema; failure leaves the name unregistered and every earlier registration in place, and has a reason; success keeps the graph closed around the entities under way; older edges become unique only in a pair that a new one names |
| GraphParser.Graph.NotInvertible | graph/entity.go:222-259 | a back reference that finds no inverse is a reason, with the target's props exactly as they stand: all of them, or those parsed so far if it is under way |
| GraphParser.AcceptableIsNotJustified | graph/entity.go:64-270 | a message of a set that is closed under edges, without back references, and fit, has no reason to fail |
| BackReferences.NodeHasNoFault | examples/graphtest/edge_o2o.proto:11-20 | the doubly linked node, whose one back reference names its own edge, has no reason to fail |
| BackReferences.ParseNode | examples/graphtest/edge_o2o.proto:11-20 | it parses, and both ends of its pair are unique |
| GraphParser.Graph.Parse | graph/graph.go:47-74 | a failed file leaves the entity map as it was, and one of its entities has a reason to fail; a parsed one registers each of its entities, from its own descriptors; the graph stays closed either way: every edge leads to the entity registered under its message's name, and every entity met all its checks; without back references a file parses if and only if every message reachable from it by edges is registered or meets its checks |
| GraphParser.Graph.NeededAreFit | graph/graph.go:47-74 | whatever a parsed file can reach by edges is registered and met its checks |
| MessageChecks.ReachedIsAcceptable | graph/prop.go:150-170 | the messages reachable from a file are a set that parsing accepts, if each of them is registered or fit |
| GraphParser.Graph.UniqueIsDeclaredOrPaired | graph/entity.go:245-250 | when no file has failed, an edge is unique if and only if it was declared unique or is one end of a singular pair that a registered entity's back reference names |
| GraphParser.Graph.Clone | graph/graph.go:29-33 | the map is copied, the entities are shared |
| GraphParser.Graph.InPlaceMerge | graph/graph.go:35-39 | the other graph's entities join this one's and replace those of the same name |
| ParsedSchemas.FieldAt | graph/entity.go:126-156 | a parsed field has the options the rules gave it, and on the key unique and immutable set |
| ParsedSchemas.KeyIsFixed | graph/entity.go:126-156 | every parsed entity has a key, and it is immutable and not the version |
| ParsedSchemas.VersionIsOne | graph/entity.go:158-176 | every version field of a parsed entity is patchable under the force flag, a time, and nullable if and only if it is singular and declared optional; and there is at most one |
| ParsedSchemas.ParsedIsUsable | graph/graph.go:41-46 | an entity of a closed graph is well formed, its edges' targets have keys among their fields, its key is fixed, and its version is one, patchable, and nullable exactly when declared optional |
| ParsedSchemas.ParsedSchemaOk | graph/prop.go:79-96 | such an entity meets everything the end-to-end request theorems ask of a schema if and only if its version field is singular |

## Left out

- Exactness.ExactIsExact: a row of the entity is a row by shape: lists, maps with keys of their kind, neither in a singular column, NULL only where nullable; the types of the values inside are not part of it.
- Acceptance.CompilesExactly: a nest of no entries is left out, here and in the theorems on flattened documents; it leaves no entry to flatten, and what the compiler says of its target is only in `Compiler.Compile`.
- PlanSafety.IndexStable: allows for elements that container-scope inserts appended, because the code does not count those inserts as resizes.
- GraphParser.Graph.Parse: a failed parse may have marked an edge of an entity that was already registered as unique, as in the code, where entities are shared with the clone; only the entity map is rolled back.
- GraphParser.Graph.Parse: with back references success depends on the order of parsing; a failed parse then has a reason that says what the target looked like, and no condition on the file alone is stated.
- GraphParser.Graph.UniqueIsDeclaredOrPaired: after a failed file an edge may also be unique for a pair with an edge of that file; `Sound` covers that case too.
- Requests.RequestCompiles: encoding and edge resolution are parameters, with "decode undoes encode" as their contract; the version field is taken to be a singular time; the option rules enforce the time, not that it is singular (`ParsedSchemaOk`).
- Normalization, validation, limits and size budgets of documents belong to the patch library; the model starts at the normalized document.
- The field resolution, arm-against-kind table and map-key conversion of that library appear as small total functions; JSON names and extensions do not.
- Two selectors that name vacant fields have the same identity, as in the code, and are therefore refused as duplicates even under SKIP.
- A path into a repeated edge is read as a list, as in the code; the converter never writes one.
- An unguarded list edit at an index outside the list is taken to do nothing, in both interpreters.
- Error kinds, their wording and positions in documents: only success and refusal are modelled.
- Backends: SQL, transactions and clocks are replaced by the plan interpreter and by the assumption that stamps do not repeat.
- Nil plans, nil entities and the difference between nil and empty byte strings.
- RPC parsing, names of companions, descriptions, and the deduction of scalar types, of which the model keeps one type per proto kind.
- Options of an edge other than unique never change during parsing and are constants in the model.
