/** Lifecycle transitions the topology shows to be missing (topology/bridge_gaps.py). */
module BridgeGaps {
  import opened Wrappers
  import opened Ordering
  import opened Texts
  import opened CanonicalHash
  import opened Identities
  import opened Domain

  datatype GapType = BuiltUnreachable | ExposedUnconsumed | OrphanOutput
  datatype Lifecycle = Implemented | Validated | Exposed | Produced | Consumed
  datatype Intent = Required | Optional | Deferred | Prohibited | UnknownIntent
  datatype Disposition = ActionRequired | IntentionalDormancy | CorrectlyDisconnected | DecisionRequired

  /** A gap; the source's `consumer_ids` is always empty and its texts follow from the other fields. */
  datatype Gap = Gap(
    gapId: string, subject: string, ofCapability: bool, gapType: GapType, observed: Lifecycle, expected: Lifecycle, intent: Intent,
    disposition: Disposition, producers: seq<string>, evidenceRefs: seq<string>, confidence: Confidence)

  /** A graph record, with its `activation_intent` property where that is a text. */
  datatype GraphRecord = GraphRecord(isNode: bool, entityId: string, intent: Option<string>)

  datatype Topology = Topology(capabilities: seq<Capability>, edges: seq<Edge>, graph: seq<GraphRecord>)

  datatype Projection = Projection(gaps: seq<Gap>, byType: map<string, nat>, byDisposition: map<string, nat>, unknownIntents: nat)

  function GapTypeName(t: GapType): string {
    match t case BuiltUnreachable => "BUILT_UNREACHABLE" case ExposedUnconsumed => "EXPOSED_UNCONSUMED" case OrphanOutput => "ORPHAN_OUTPUT"
  }

  function DispositionName(d: Disposition): string {
    match d
    case ActionRequired => "ACTION_REQUIRED"
    case IntentionalDormancy => "INTENTIONAL_DORMANCY"
    case CorrectlyDisconnected => "CORRECTLY_DISCONNECTED"
    case DecisionRequired => "DECISION_REQUIRED"
  }

  /** `_disposition`. */
  function DispositionOf(intent: Intent): Disposition {
    match intent
    case Required => ActionRequired
    case Optional => IntentionalDormancy
    case Deferred => IntentionalDormancy
    case Prohibited => CorrectlyDisconnected
    case UnknownIntent => DecisionRequired
  }

  // ---- Declared intents ----

  function IntentNamed(name: string): Option<Intent> {
    if name == "REQUIRED" then Some(Required)
    else if name == "OPTIONAL" then Some(Optional)
    else if name == "DEFERRED" then Some(Deferred)
    else if name == "PROHIBITED" then Some(Prohibited)
    else if name == "UNKNOWN" then Some(UnknownIntent)
    else None
  }

  /** The intent a record declares for its entity, if it is a node and names one that exists. */
  function Declares(r: GraphRecord): Option<Intent> {
    if r.isNode && r.intent.Some? then IntentNamed(Upper(r.intent.value)) else None
  }

  function Declared(graph: seq<GraphRecord>): map<string, Intent> {
    if graph == [] then map[]
    else
      var r := graph[|graph| - 1];
      var earlier := Declared(graph[..|graph| - 1]);
      if Declares(r).Some? then earlier[r.entityId := Declares(r).value] else earlier
  }

  method DeclaredIntents(graph: seq<GraphRecord>) returns (intents: map<string, Intent>)
    ensures intents == Declared(graph)
  {
    hide Upper, IntentNamed;
    intents := map[];
    for i := 0 to |graph|
      invariant intents == Declared(graph[..i])
    {
      assert graph[..i + 1][..i] == graph[..i];
      if Declares(graph[i]).Some? { intents := intents[graph[i].entityId := Declares(graph[i]).value]; }
    }
    assert graph[..|graph|] == graph;
  }

  /** The last node to declare an intent the policy knows decides; anything else declares nothing. */
  lemma {:induction false} LastDeclarationDecides(graph: seq<GraphRecord>, i: nat)
    requires i < |graph| && Declares(graph[i]).Some?
    requires forall k :: i < k < |graph| && graph[k].entityId == graph[i].entityId ==> Declares(graph[k]).None?
    ensures graph[i].entityId in Declared(graph) && Declared(graph)[graph[i].entityId] == Declares(graph[i]).value
    decreases |graph|
  {
    hide Declares;
    if i < |graph| - 1 { LastDeclarationDecides(graph[..|graph| - 1], i); }
  }

  function IntentFor(intents: map<string, Intent>, subject: string): Intent {
    if subject in intents then intents[subject] else UnknownIntent
  }

  // ---- Edges around a subject ----

  function HasTarget(id: string): Edge -> bool { (e: Edge) => e.target == id }
  function HasSource(id: string): Edge -> bool { (e: Edge) => e.source == id }
  function HasType(types: set<EdgeType>): Edge -> bool { (e: Edge) => e.edgeType in types }

  function Into(edges: seq<Edge>, id: string): seq<Edge> { SortBy(Filter(edges, HasTarget(id)), EdgeKey) }
  function OutOf(edges: seq<Edge>, id: string): seq<Edge> { SortBy(Filter(edges, HasSource(id)), EdgeKey) }

  /** `_of_type`. */
  function OfTypes(edges: seq<Edge>, types: set<EdgeType>): seq<Edge> { Filter(edges, HasType(types)) }

  function TargetsOf(edges: seq<Edge>): set<string> { set e | e in edges :: e.target }
  function SourcesOf(edges: seq<Edge>): set<string> { set e | e in edges :: e.source }

  function RefsOf(edges: seq<Edge>): set<string> { set e, r | e in edges && r in e.evidenceRefs :: r }

  /** The edges around a capability that its gap depends on. */
  datatype Around = Around(
    implementing: seq<Edge>, validatingIn: seq<Edge>, validatingOut: seq<Edge>, exposing: seq<Edge>, routed: seq<Edge>, consuming: seq<Edge>)

  function AroundOf(incoming: seq<Edge>, outgoing: seq<Edge>): Around {
    Around(
      OfTypes(incoming, {Implements}), OfTypes(incoming, {ValidatedBy}), OfTypes(outgoing, {ValidatedBy}),
      OfTypes(incoming, {Exposes, RoutesTo}), OfTypes(outgoing, {RoutesTo}), OfTypes(incoming, {Consumes}))
  }

  // ---- Gaps ----

  const GAP_KEYS: seq<string> := ["policy_id", "policy_version", "subject_id", "gap_type"]

  lemma {:induction false} GapKeysAreGood()
    ensures GoodKeys(GAP_KEYS)
  {
    assert |"policy_id"| == 9 && |"policy_version"| == 14 && |"subject_id"| == 10 && |"gap_type"| == 8;
  }

  function GapIdentity(subject: string, gapType: GapType): seq<Part> {
    [Text("l9.bridge-gap-policy"), Text("1.0.0"), Text(subject), Text(GapTypeName(gapType))]
  }

  function GapId(codec: Codec, subject: string, gapType: GapType): string {
    GapKeysAreGood();
    IdOf(codec, "bridge-gap", GAP_KEYS, GapIdentity(subject, gapType))
  }

  /** Two gaps have one identity only when they are of one type on one subject. */
  lemma {:induction false} GapIdIdentifies(codec: Codec, s: string, a: GapType, t: string, b: GapType)
    requires codec.Faithful() && GapId(codec, s, a) == GapId(codec, t, b)
    ensures s == t && a == b
  {
    GapKeysAreGood();
    var x, y := GapIdentity(s, a), GapIdentity(t, b);
    IdTellsApart(codec, "bridge-gap", GAP_KEYS, x, y);
    assert x[2] == y[2] && x[3] == y[3];
    assert GapTypeName(a)[0] == GapTypeName(b)[0];
  }

  /** `_confidence`: higher when more than one relation or evidence record supports the gap. */
  function Assessed(relations: nat, refs: seq<string>): Confidence {
    if relations > 1 || |refs| > 1 then Confidence(High, Corroborated, Deterministic, ValidatedMachine, Sufficient, NoConflict)
    else Confidence(Medium, Direct, Deterministic, ValidatedMachine, Sufficient, NoConflict)
  }

  /** `_record`. */
  function Record(
      codec: Codec, subject: string, ofCapability: bool, gapType: GapType, observed: Lifecycle, expected: Lifecycle, intent: Intent,
      producers: seq<string>, refs: seq<string>, relations: nat): Gap {
    Gap(GapId(codec, subject, gapType), subject, ofCapability, gapType, observed, expected, intent, DispositionOf(intent),
        SortedIds(Distinct(producers)), refs, Assessed(relations, refs))
  }

  function Implementers(c: Capability, a: Around): seq<string> { SortedIds(Distinct(c.implementedBy) + SourcesOf(a.implementing)) }

  function Validators(c: Capability, a: Around): seq<string> {
    SortedIds(Distinct(c.validatedBy) + SourcesOf(a.validatingIn) + TargetsOf(a.validatingOut))
  }

  function Exposers(c: Capability, a: Around): seq<string> {
    SortedIds(Distinct(c.exposedBy) + SourcesOf(a.exposing) + TargetsOf(a.routed))
  }

  /** The gap of a capability that is built and not exposed. */
  function UnreachableGap(codec: Codec, c: Capability, a: Around, intents: map<string, Intent>): Gap {
    Record(codec, c.capabilityId, true, BuiltUnreachable, if Validators(c, a) != [] then Validated else Implemented, Exposed,
           IntentFor(intents, c.capabilityId), Implementers(c, a),
           SortedIds(Distinct(c.evidenceRefs) + RefsOf(a.implementing) + RefsOf(a.validatingIn + a.validatingOut)),
           |a.implementing| + |a.validatingIn + a.validatingOut|)
  }

  /** The gap of a capability that is exposed. */
  function UnconsumedGap(codec: Codec, c: Capability, a: Around, intents: map<string, Intent>): Gap {
    Record(codec, c.capabilityId, true, ExposedUnconsumed, Exposed, Consumed, IntentFor(intents, c.capabilityId),
           if Implementers(c, a) != [] then Implementers(c, a) else Exposers(c, a),
           SortedIds(Distinct(c.evidenceRefs) + RefsOf(a.exposing) + RefsOf(a.routed)), |a.exposing| + |a.routed|)
  }

  /** `_capability_gap`. */
  function CapabilityGap(codec: Codec, c: Capability, a: Around, intents: map<string, Intent>): Option<Gap> {
    var implementers, exposers := Implementers(c, a), Exposers(c, a);
    if a.consuming != [] then None
    else if implementers != [] && exposers == [] then Some(UnreachableGap(codec, c, a, intents))
    else if exposers != [] then Some(UnconsumedGap(codec, c, a, intents))
    else None
  }

  /** The gap of an output with these incoming edges. */
  function OutputGap(codec: Codec, id: string, incoming: seq<Edge>, intents: map<string, Intent>): Option<Gap> {
    var producing := OfTypes(incoming, {Produces});
    if producing == [] || OfTypes(incoming, {Consumes}) != [] then None
    else
      Some(Record(codec, id, false, OrphanOutput, Produced, Consumed, IntentFor(intents, id),
                  SortedIds(SourcesOf(producing)), SortedIds(RefsOf(producing)), |producing|))
  }

  function AsList(g: Option<Gap>): seq<Gap> { if g.Some? then [g.value] else [] }

  function CapabilityGapIn(codec: Codec, c: Capability, edges: seq<Edge>, intents: map<string, Intent>): Option<Gap> {
    CapabilityGap(codec, c, AroundOf(Into(edges, c.capabilityId), OutOf(edges, c.capabilityId)), intents)
  }

  function CapabilityGaps(codec: Codec, capabilities: seq<Capability>, edges: seq<Edge>, intents: map<string, Intent>): seq<Gap> {
    if capabilities == [] then []
    else
      var n := |capabilities| - 1;
      CapabilityGaps(codec, capabilities[..n], edges, intents) + AsList(CapabilityGapIn(codec, capabilities[n], edges, intents))
  }

  /** The gap of a subject that is not passed over. */
  function OutputGapIn(codec: Codec, id: string, passed: set<string>, edges: seq<Edge>, intents: map<string, Intent>): Option<Gap> {
    if id in passed then None else OutputGap(codec, id, Into(edges, id), intents)
  }

  function OutputGapsOver(codec: Codec, ids: seq<string>, passed: set<string>, edges: seq<Edge>, intents: map<string, Intent>): seq<Gap> {
    if ids == [] then []
    else
      var n := |ids| - 1;
      OutputGapsOver(codec, ids[..n], passed, edges, intents) + AsList(OutputGapIn(codec, ids[n], passed, edges, intents))
  }

  function CapabilityIds(capabilities: seq<Capability>): set<string> { set c | c in capabilities :: c.capabilityId }

  /** Orders gaps by type, then subject: the three type names differ in their first letter. */
  function GapKey(g: Gap): string { [GapTypeName(g.gapType)[0]] + g.subject }

  lemma {:induction false} GapKeyOrders(a: Gap, b: Gap)
    ensures Leq(GapKey(a), GapKey(b)) <==> PairLeq((GapTypeName(a.gapType), a.subject), (GapTypeName(b.gapType), b.subject))
  {
    assert GapKey(a)[1..] == a.subject && GapKey(b)[1..] == b.subject;
    assert GapTypeName(BuiltUnreachable)[0] == 'B' && GapTypeName(ExposedUnconsumed)[0] == 'E' && GapTypeName(OrphanOutput)[0] == 'O';
  }

  function Intents(t: Topology, given: Option<map<string, Intent>>): map<string, Intent> {
    if given.Some? then Declared(t.graph) + given.value else Declared(t.graph)
  }

  function FoundGaps(codec: Codec, t: Topology, edges: seq<Edge>, intents: map<string, Intent>): seq<Gap> {
    CapabilityGaps(codec, SortBy(t.capabilities, CapabilityKey), edges, intents)
    + OutputGapsOver(codec, SortedIds(TargetsOf(edges)), CapabilityIds(t.capabilities), edges, intents)
  }

  function GapsOf(codec: Codec, t: Topology, given: Option<map<string, Intent>>): seq<Gap> {
    SortBy(FoundGaps(codec, t, t.edges, Intents(t, given)), GapKey)
  }

  function TypeCounts(gaps: seq<Gap>): map<string, nat> {
    if gaps == [] then map[] else Increment(TypeCounts(gaps[..|gaps| - 1]), GapTypeName(gaps[|gaps| - 1].gapType))
  }

  function DispositionCounts(gaps: seq<Gap>): map<string, nat> {
    if gaps == [] then map[] else Increment(DispositionCounts(gaps[..|gaps| - 1]), DispositionName(gaps[|gaps| - 1].disposition))
  }

  function UnknownIntents(gaps: seq<Gap>): nat {
    if gaps == [] then 0 else UnknownIntents(gaps[..|gaps| - 1]) + if gaps[|gaps| - 1].intent == UnknownIntent then 1 else 0
  }

  function Projected(codec: Codec, t: Topology, given: Option<map<string, Intent>>): Projection {
    var gaps := GapsOf(codec, t, given);
    Projection(gaps, TypeCounts(gaps), DispositionCounts(gaps), UnknownIntents(gaps))
  }

  // ---- The projector ----

  ghost predicate GroupedByTarget(groups: map<string, seq<Edge>>, edges: seq<Edge>) {
    groups.Keys == TargetsOf(edges) && forall k :: k in groups ==> groups[k] == Filter(edges, HasTarget(k))
  }

  ghost predicate GroupedBySource(groups: map<string, seq<Edge>>, edges: seq<Edge>) {
    groups.Keys == SourcesOf(edges) && forall k :: k in groups ==> groups[k] == Filter(edges, HasSource(k))
  }

  function Appended(groups: map<string, seq<Edge>>, key: string, e: Edge): map<string, seq<Edge>> {
    groups[key := (if key in groups then groups[key] else []) + [e]]
  }

  lemma {:induction false} OneMoreByTarget(groups: map<string, seq<Edge>>, edges: seq<Edge>, e: Edge)
    requires GroupedByTarget(groups, edges)
    ensures GroupedByTarget(Appended(groups, e.target, e), edges + [e])
  {
    var after := Appended(groups, e.target, e);
    forall k | k in after ensures after[k] == Filter(edges + [e], HasTarget(k)) {
      FilterSnoc(edges, e, HasTarget(k));
      if k !in groups { NoneSuch(edges, HasTarget(k)); }
    }
  }

  lemma {:induction false} OneMoreBySource(groups: map<string, seq<Edge>>, edges: seq<Edge>, e: Edge)
    requires GroupedBySource(groups, edges)
    ensures GroupedBySource(Appended(groups, e.source, e), edges + [e])
  {
    var after := Appended(groups, e.source, e);
    forall k | k in after ensures after[k] == Filter(edges + [e], HasSource(k)) {
      FilterSnoc(edges, e, HasSource(k));
      if k !in groups { NoneSuch(edges, HasSource(k)); }
    }
  }

  lemma {:induction false} NoneSuch(edges: seq<Edge>, p: Edge -> bool)
    requires forall e :: e in edges ==> !p(e)
    ensures Filter(edges, p) == []
  {
    if edges != [] {
      assert edges[0] in edges;
      NoneSuch(edges[1..], p);
    }
  }

  ghost predicate IndexedInto(incoming: map<string, seq<Edge>>, edges: seq<Edge>) {
    incoming.Keys == TargetsOf(edges) && forall k :: k in incoming ==> incoming[k] == Into(edges, k)
  }

  ghost predicate IndexedOutOf(outgoing: map<string, seq<Edge>>, edges: seq<Edge>) {
    outgoing.Keys == SourcesOf(edges) && forall k :: k in outgoing ==> outgoing[k] == OutOf(edges, k)
  }

  lemma {:induction false} NothingGrouped()
    ensures GroupedByTarget(map[], []) && GroupedBySource(map[], [])
  {
  }

  /** `_edges_by_endpoint`. */
  method EdgesByEndpoint(edges: seq<Edge>) returns (incoming: map<string, seq<Edge>>, outgoing: map<string, seq<Edge>>)
    ensures IndexedInto(incoming, edges) && IndexedOutOf(outgoing, edges)
  {
    var into: map<string, seq<Edge>>, out: map<string, seq<Edge>> := map[], map[];
    NothingGrouped();
    hide *;
    for i := 0 to |edges|
      invariant GroupedByTarget(into, edges[..i]) && GroupedBySource(out, edges[..i])
    {
      assert edges[..i + 1] == edges[..i] + [edges[i]];
      OneMoreByTarget(into, edges[..i], edges[i]);
      OneMoreBySource(out, edges[..i], edges[i]);
      into := Appended(into, edges[i].target, edges[i]);
      out := Appended(out, edges[i].source, edges[i]);
    }
    assert edges[..|edges|] == edges;
    GroupsSorted(into, out, edges);
    incoming, outgoing := SortedGroups(into), SortedGroups(out);
  }

  function SortedGroups(groups: map<string, seq<Edge>>): map<string, seq<Edge>> { map k | k in groups :: SortBy(groups[k], EdgeKey) }

  lemma {:induction false} GroupsSorted(into: map<string, seq<Edge>>, out: map<string, seq<Edge>>, edges: seq<Edge>)
    requires GroupedByTarget(into, edges) && GroupedBySource(out, edges)
    ensures IndexedInto(SortedGroups(into), edges) && IndexedOutOf(SortedGroups(out), edges)
  {
    hide SortBy, Filter;
  }

  function At(index: map<string, seq<Edge>>, id: string): seq<Edge> { if id in index then index[id] else [] }

  lemma {:induction false} AtEndpoint(incoming: map<string, seq<Edge>>, outgoing: map<string, seq<Edge>>, edges: seq<Edge>, id: string)
    requires IndexedInto(incoming, edges) && IndexedOutOf(outgoing, edges)
    ensures At(incoming, id) == Into(edges, id) && At(outgoing, id) == OutOf(edges, id)
  {
    hide SortBy, Filter;
    if id !in incoming {
      NoneSuch(edges, HasTarget(id));
      assert |Into(edges, id)| == 0;
    }
    if id !in outgoing {
      NoneSuch(edges, HasSource(id));
      assert |OutOf(edges, id)| == 0;
    }
  }

  lemma {:induction false} MoreCapabilityGaps(codec: Codec, capabilities: seq<Capability>, edges: seq<Edge>, intents: map<string, Intent>, i: nat)
    ensures CapabilityGaps(codec, [], edges, intents) == []
    ensures i < |capabilities| ==>
      CapabilityGaps(codec, capabilities[..i + 1], edges, intents) ==
        CapabilityGaps(codec, capabilities[..i], edges, intents)
        + AsList(CapabilityGap(codec, capabilities[i],
                               AroundOf(Into(edges, capabilities[i].capabilityId), OutOf(edges, capabilities[i].capabilityId)), intents))
  {
    hide CapabilityGap, AroundOf, Into, OutOf, AsList;
    if i < |capabilities| { assert capabilities[..i + 1][..i] == capabilities[..i]; }
  }

  lemma {:induction false} MoreOutputGaps(
      codec: Codec, ids: seq<string>, passed: set<string>, edges: seq<Edge>, intents: map<string, Intent>, i: nat)
    ensures OutputGapsOver(codec, [], passed, edges, intents) == []
    ensures i < |ids| ==>
      OutputGapsOver(codec, ids[..i + 1], passed, edges, intents) ==
        OutputGapsOver(codec, ids[..i], passed, edges, intents) + AsList(OutputGapIn(codec, ids[i], passed, edges, intents))
  {
    hide OutputGapIn, AsList;
    if i < |ids| { assert ids[..i + 1][..i] == ids[..i]; }
  }

  method AllCapabilityGaps(
      codec: Codec, capabilities: seq<Capability>, incoming: map<string, seq<Edge>>, outgoing: map<string, seq<Edge>>,
      ghost edges: seq<Edge>, intents: map<string, Intent>) returns (gaps: seq<Gap>, subjects: set<string>)
    requires IndexedInto(incoming, edges) && IndexedOutOf(outgoing, edges)
    ensures gaps == CapabilityGaps(codec, capabilities, edges, intents)
    ensures subjects <= CapabilityIds(capabilities)
  {
    hide *;
    gaps, subjects := [], {};
    MoreCapabilityGaps(codec, capabilities, edges, intents, 0);
    for i := 0 to |capabilities|
      invariant gaps == CapabilityGaps(codec, capabilities[..i], edges, intents)
      invariant subjects <= CapabilityIds(capabilities)
    {
      var c := capabilities[i];
      MoreCapabilityGaps(codec, capabilities, edges, intents, i);
      AtEndpoint(incoming, outgoing, edges, c.capabilityId);
      var gap := CapabilityGap(codec, c, AroundOf(At(incoming, c.capabilityId), At(outgoing, c.capabilityId)), intents);
      ListOf(gap);
      if gap.Some? {
        CapabilityGapSubject(codec, c, AroundOf(At(incoming, c.capabilityId), At(outgoing, c.capabilityId)), intents);
        KnownCapability(capabilities, i);
        gaps := gaps + [gap.value];
        subjects := subjects + {gap.value.subject};
      }
    }
    assert capabilities[..|capabilities|] == capabilities;
  }

  lemma {:induction false} ListOf(g: Option<Gap>)
    ensures AsList(g) == if g.Some? then [g.value] else []
  {
  }

  lemma {:induction false} KnownCapability(capabilities: seq<Capability>, i: nat)
    requires i < |capabilities|
    ensures capabilities[i].capabilityId in CapabilityIds(capabilities)
  {
    assert capabilities[i] in capabilities;
  }

  lemma {:induction false} CapabilityGapSubject(codec: Codec, c: Capability, a: Around, intents: map<string, Intent>)
    requires CapabilityGap(codec, c, a, intents).Some?
    ensures CapabilityGap(codec, c, a, intents).value.subject == c.capabilityId
    ensures CapabilityGap(codec, c, a, intents).value.ofCapability
  {
    hide Implementers, Exposers, Validators, RefsOf, GapId, SortedIds, Assessed, Distinct;
  }

  /** `_output_gaps`. */
  method OutputGaps(
      codec: Codec, capabilities: seq<Capability>, incoming: map<string, seq<Edge>>, ghost edges: seq<Edge>, intents: map<string, Intent>,
      excluded: set<string>) returns (gaps: seq<Gap>)
    requires IndexedInto(incoming, edges)
    ensures gaps == OutputGapsOver(codec, SortedIds(TargetsOf(edges)), CapabilityIds(capabilities) + excluded, edges, intents)
  {
    var ids := SortedIds(incoming.Keys);
    var known := CapabilityIds(capabilities);
    gaps := [];
    hide *;
    MoreOutputGaps(codec, ids, known + excluded, edges, intents, 0);
    for i := 0 to |ids|
      invariant gaps == OutputGapsOver(codec, ids[..i], known + excluded, edges, intents)
    {
      assert ids[i] in ids;
      MoreOutputGaps(codec, ids, known + excluded, edges, intents, i);
      IntoKnown(codec, incoming, edges, ids[i], known + excluded, intents);
      if ids[i] in known || ids[i] in excluded { continue; }
      var gap := OutputGap(codec, ids[i], incoming[ids[i]], intents);
      ListOf(gap);
      if gap.Some? { gaps := gaps + [gap.value]; }
    }
    assert ids[..|ids|] == ids;
    IntoKeys(incoming, edges);
  }

  lemma {:induction false} IntoKeys(incoming: map<string, seq<Edge>>, edges: seq<Edge>)
    requires IndexedInto(incoming, edges)
    ensures incoming.Keys == TargetsOf(edges)
  {
  }

  lemma {:induction false} IntoKnown(
      codec: Codec, incoming: map<string, seq<Edge>>, edges: seq<Edge>, id: string, passed: set<string>, intents: map<string, Intent>)
    requires IndexedInto(incoming, edges) && id in incoming
    ensures OutputGapIn(codec, id, passed, edges, intents) == if id in passed then None else OutputGap(codec, id, incoming[id], intents)
    ensures AsList(None) == []
  {
  }

  method Counted(gaps: seq<Gap>) returns (byType: map<string, nat>, byDisposition: map<string, nat>, unknown: nat)
    ensures byType == TypeCounts(gaps) && byDisposition == DispositionCounts(gaps) && unknown == UnknownIntents(gaps)
  {
    byType, byDisposition, unknown := map[], map[], 0;
    hide GapTypeName, DispositionName, Increment;
    for i := 0 to |gaps|
      invariant byType == TypeCounts(gaps[..i]) && byDisposition == DispositionCounts(gaps[..i]) && unknown == UnknownIntents(gaps[..i])
    {
      assert gaps[..i + 1][..i] == gaps[..i];
      byType := Increment(byType, GapTypeName(gaps[i].gapType));
      byDisposition := Increment(byDisposition, DispositionName(gaps[i].disposition));
      if gaps[i].intent == UnknownIntent { unknown := unknown + 1; }
    }
    assert gaps[..|gaps|] == gaps;
  }

  /** `project_bridge_gaps`. */
  method Project(codec: Codec, t: Topology, given: Option<map<string, Intent>>) returns (projection: Projection)
    ensures projection == Projected(codec, t, given)
  {
    hide *;
    var intents := DeclaredIntents(t.graph);
    if given.Some? { intents := intents + given.value; }
    IntentsAre(t, given);
    var incoming, outgoing := EdgesByEndpoint(t.edges);
    var capabilities := SortBy(t.capabilities, CapabilityKey);
    var gaps, subjects := AllCapabilityGaps(codec, capabilities, incoming, outgoing, t.edges, intents);
    SortedCapabilityIds(t.capabilities);
    var orphans := OutputGaps(codec, t.capabilities, incoming, t.edges, intents, subjects);
    assert CapabilityIds(t.capabilities) + subjects == CapabilityIds(t.capabilities);
    gaps := gaps + orphans;
    var ordered := SortBy(gaps, GapKey);
    var byType, byDisposition, unknown := Counted(ordered);
    projection := Projection(ordered, byType, byDisposition, unknown);
    ProjectedIs(codec, t, given);
  }

  lemma {:induction false} IntentsAre(t: Topology, given: Option<map<string, Intent>>)
    ensures Intents(t, given) == if given.Some? then Declared(t.graph) + given.value else Declared(t.graph)
  {
  }

  lemma {:induction false} SortedCapabilityIds(capabilities: seq<Capability>)
    ensures CapabilityIds(SortBy(capabilities, CapabilityKey)) == CapabilityIds(capabilities)
  {
    var sorted := SortBy(capabilities, CapabilityKey);
    forall c ensures c in sorted <==> c in capabilities { SameMembers(sorted, capabilities, c); }
  }

  lemma {:induction false} ProjectedIs(codec: Codec, t: Topology, given: Option<map<string, Intent>>)
    ensures var intents := Intents(t, given);
      var gaps := SortBy(
        CapabilityGaps(codec, SortBy(t.capabilities, CapabilityKey), t.edges, intents)
        + OutputGapsOver(codec, SortedIds(TargetsOf(t.edges)), CapabilityIds(t.capabilities), t.edges, intents), GapKey);
      Projected(codec, t, given) == Projection(gaps, TypeCounts(gaps), DispositionCounts(gaps), UnknownIntents(gaps))
  {
    hide CapabilityGaps, OutputGapsOver, TypeCounts, DispositionCounts, UnknownIntents, SortBy, Intents, TargetsOf, CapabilityIds;
  }

  // ---- What the projection guarantees ----

  function OnSubject(s: string): Gap -> bool { (g: Gap) => g.subject == s }
  function NotOn(s: string): Gap -> bool { (g: Gap) => g.subject != s }
  function NamedCapability(id: string): Capability -> bool { (c: Capability) => c.capabilityId == id }
  function OtherThan(id: string): string -> bool { (x: string) => x != id }

  // At most one gap to a subject.

  lemma {:induction false} CapabilityGapsOn(codec: Codec, capabilities: seq<Capability>, edges: seq<Edge>, intents: map<string, Intent>, s: string)
    ensures |Filter(CapabilityGaps(codec, capabilities, edges, intents), OnSubject(s))| <= |Filter(capabilities, NamedCapability(s))|
  {
    hide CapabilityGap, AroundOf, Into, OutOf;
    if capabilities != [] {
      var n := |capabilities| - 1;
      var c, earlier := capabilities[n], CapabilityGaps(codec, capabilities[..n], edges, intents);
      CapabilityGapsOn(codec, capabilities[..n], edges, intents, s);
      assert capabilities == capabilities[..n] + [c];
      FilterSnoc(capabilities[..n], c, NamedCapability(s));
      var gap := CapabilityGapIn(codec, c, edges, intents);
      if gap.Some? {
        CapabilityGapSubject(codec, c, AroundOf(Into(edges, c.capabilityId), OutOf(edges, c.capabilityId)), intents);
        FilterSnoc(earlier, gap.value, OnSubject(s));
      } else {
        assert earlier + [] == earlier;
      }
    }
  }

  lemma {:induction false} OutputGapSubject(codec: Codec, id: string, passed: set<string>, edges: seq<Edge>, intents: map<string, Intent>)
    requires OutputGapIn(codec, id, passed, edges, intents).Some?
    ensures OutputGapIn(codec, id, passed, edges, intents).value.subject == id && id !in passed
    ensures !OutputGapIn(codec, id, passed, edges, intents).value.ofCapability
  {
    hide OfTypes, Into, SourcesOf, RefsOf, GapId, SortedIds, Assessed, Distinct;
  }

  lemma {:induction false} OutputGapsOn(
      codec: Codec, ids: seq<string>, passed: set<string>, edges: seq<Edge>, intents: map<string, Intent>, s: string)
    requires Ascending(ids)
    ensures |Filter(OutputGapsOver(codec, ids, passed, edges, intents), OnSubject(s))| <= if s in ids && s !in passed then 1 else 0
  {
    hide OutputGapIn;
    if ids != [] {
      var n := |ids| - 1;
      OutputGapsOn(codec, ids[..n], passed, edges, intents, s);
      assert ids == ids[..n] + [ids[n]];
      assert s == ids[n] ==> s !in ids[..n];
      var gap, earlier := OutputGapIn(codec, ids[n], passed, edges, intents), OutputGapsOver(codec, ids[..n], passed, edges, intents);
      if gap.Some? {
        OutputGapSubject(codec, ids[n], passed, edges, intents);
        FilterSnoc(earlier, gap.value, OnSubject(s));
      } else {
        assert earlier + [] == earlier;
      }
    }
  }

  /** A subject has no more gaps than the topology has capability records of its name, and at most one if it
      has none: so where capability identities are distinct, no subject has two gaps. */
  lemma {:induction false} AtMostOneGap(codec: Codec, t: Topology, given: Option<map<string, Intent>>, s: string)
    ensures var records := |Filter(t.capabilities, NamedCapability(s))|;
      |Filter(Projected(codec, t, given).gaps, OnSubject(s))| <= if records == 0 then 1 else records
  {
    hide *;
    ProjectedIs(codec, t, given);
    var intents, capabilities := Intents(t, given), SortBy(t.capabilities, CapabilityKey);
    var ids, known := SortedIds(TargetsOf(t.edges)), CapabilityIds(t.capabilities);
    var a, b := CapabilityGaps(codec, capabilities, t.edges, intents), OutputGapsOver(codec, ids, known, t.edges, intents);
    CapabilityGapsOn(codec, capabilities, t.edges, intents, s);
    OutputGapsOn(codec, ids, known, t.edges, intents, s);
    FilterPermutes(capabilities, t.capabilities, NamedCapability(s));
    FilterPermutes(SortBy(a + b, GapKey), a + b, OnSubject(s));
    FilterConcat(a, b, OnSubject(s));
    NamedWhenKnown(t.capabilities, s);
  }

  lemma {:induction false} NamedWhenKnown(capabilities: seq<Capability>, s: string)
    ensures s in CapabilityIds(capabilities) <==> |Filter(capabilities, NamedCapability(s))| > 0
  {
    var named := Filter(capabilities, NamedCapability(s));
    if s in CapabilityIds(capabilities) {
      var c :| c in capabilities && c.capabilityId == s;
      assert c in named;
    }
    if |named| > 0 { assert named[0] in named; }
  }

  // Which subjects have a gap.

  ghost predicate Reaches(edges: seq<Edge>, id: string, types: set<EdgeType>) {
    exists e :: e in edges && e.target == id && e.edgeType in types
  }

  ghost predicate Leaves(edges: seq<Edge>, id: string, types: set<EdgeType>) {
    exists e :: e in edges && e.source == id && e.edgeType in types
  }

  /** Something implements the capability, or it is exposed, or routed. */
  ghost predicate Built(c: Capability, edges: seq<Edge>) {
    || c.implementedBy != [] || c.exposedBy != []
    || Reaches(edges, c.capabilityId, {Implements, Exposes, RoutesTo}) || Leaves(edges, c.capabilityId, {RoutesTo})
  }

  lemma {:induction false} OfTypesInto(edges: seq<Edge>, id: string, types: set<EdgeType>)
    ensures OfTypes(Into(edges, id), types) != [] <==> Reaches(edges, id, types)
  {
    hide SortBy;
    var into, kept := Into(edges, id), OfTypes(Into(edges, id), types);
    if e :| e in edges && e.target == id && e.edgeType in types {
      SameMembers(into, Filter(edges, HasTarget(id)), e);
      assert e in kept;
    }
    if kept != [] {
      assert kept[0] in kept;
      SameMembers(into, Filter(edges, HasTarget(id)), kept[0]);
    }
  }

  lemma {:induction false} OfTypesOutOf(edges: seq<Edge>, id: string, types: set<EdgeType>)
    ensures OfTypes(OutOf(edges, id), types) != [] <==> Leaves(edges, id, types)
  {
    hide SortBy;
    var out, kept := OutOf(edges, id), OfTypes(OutOf(edges, id), types);
    if e :| e in edges && e.source == id && e.edgeType in types {
      SameMembers(out, Filter(edges, HasSource(id)), e);
      assert e in kept;
    }
    if kept != [] {
      assert kept[0] in kept;
      SameMembers(out, Filter(edges, HasSource(id)), kept[0]);
    }
  }

  lemma {:induction false} NonEmptyUnion(xs: seq<string>, ins: seq<Edge>, outs: seq<Edge>)
    ensures SortedIds(Distinct(xs) + SourcesOf(ins) + TargetsOf(outs)) != [] <==> xs != [] || ins != [] || outs != []
    ensures SortedIds(Distinct(xs) + SourcesOf(ins)) != [] <==> xs != [] || ins != []
  {
    var all, some := SortedIds(Distinct(xs) + SourcesOf(ins) + TargetsOf(outs)), SortedIds(Distinct(xs) + SourcesOf(ins));
    if xs != [] { assert xs[0] in Distinct(xs); assert xs[0] in all && xs[0] in some; }
    if ins != [] { assert ins[0].source in SourcesOf(ins); assert ins[0].source in all && ins[0].source in some; }
    if outs != [] { assert outs[0].target in TargetsOf(outs); assert outs[0].target in all; }
    if all != [] { assert all[0] in all; }
    if some != [] { assert some[0] in some; }
  }

  lemma {:induction false} CapabilityGapWhen(codec: Codec, c: Capability, edges: seq<Edge>, intents: map<string, Intent>)
    ensures CapabilityGapIn(codec, c, edges, intents).Some? <==> !Reaches(edges, c.capabilityId, {Consumes}) && Built(c, edges)
  {
    hide Into, OutOf, OfTypes, Reaches, Leaves, RefsOf, SourcesOf, TargetsOf, Distinct, SortedIds, Record, Validators;
    var id := c.capabilityId;
    var a := AroundOf(Into(edges, id), OutOf(edges, id));
    OfTypesInto(edges, id, {Consumes});
    OfTypesInto(edges, id, {Implements});
    OfTypesInto(edges, id, {Exposes, RoutesTo});
    OfTypesOutOf(edges, id, {RoutesTo});
    NonEmptyUnion(c.implementedBy, a.implementing, []);
    NonEmptyUnion(c.exposedBy, a.exposing, a.routed);
    EitherReaches(edges, id);
  }

  lemma {:induction false} EitherReaches(edges: seq<Edge>, id: string)
    ensures Reaches(edges, id, {Implements, Exposes, RoutesTo}) <==> Reaches(edges, id, {Implements}) || Reaches(edges, id, {Exposes, RoutesTo})
  {
  }

  lemma {:induction false} CapabilityGapsMembers(
      codec: Codec, capabilities: seq<Capability>, edges: seq<Edge>, intents: map<string, Intent>, g: Gap)
    ensures g in CapabilityGaps(codec, capabilities, edges, intents) <==>
      exists c :: c in capabilities && CapabilityGapIn(codec, c, edges, intents) == Some(g)
  {
    hide CapabilityGapIn;
    if capabilities != [] {
      var n := |capabilities| - 1;
      CapabilityGapsMembers(codec, capabilities[..n], edges, intents, g);
      assert capabilities == capabilities[..n] + [capabilities[n]];
    }
  }

  lemma {:induction false} OutputGapsMembers(
      codec: Codec, ids: seq<string>, passed: set<string>, edges: seq<Edge>, intents: map<string, Intent>, g: Gap)
    ensures g in OutputGapsOver(codec, ids, passed, edges, intents) <==>
      exists id :: id in ids && OutputGapIn(codec, id, passed, edges, intents) == Some(g)
  {
    hide OutputGapIn;
    if ids != [] {
      var n := |ids| - 1;
      OutputGapsMembers(codec, ids[..n], passed, edges, intents, g);
      assert ids == ids[..n] + [ids[n]];
    }
  }

  lemma {:induction false} OutputGapWhen(codec: Codec, id: string, passed: set<string>, edges: seq<Edge>, intents: map<string, Intent>)
    ensures OutputGapIn(codec, id, passed, edges, intents).Some? <==>
      id !in passed && !Reaches(edges, id, {Consumes}) && Reaches(edges, id, {Produces})
  {
    hide Into, OfTypes, Reaches, RefsOf, SourcesOf, SortedIds, Record;
    OfTypesInto(edges, id, {Consumes});
    OfTypesInto(edges, id, {Produces});
  }

  lemma {:induction false} GapMembers(codec: Codec, t: Topology, given: Option<map<string, Intent>>, g: Gap)
    ensures var intents := Intents(t, given);
      g in Projected(codec, t, given).gaps <==>
        || (exists c :: c in t.capabilities && CapabilityGapIn(codec, c, t.edges, intents) == Some(g))
        || (exists id :: id in TargetsOf(t.edges) && OutputGapIn(codec, id, CapabilityIds(t.capabilities), t.edges, intents) == Some(g))
  {
    hide *;
    ProjectedIs(codec, t, given);
    var intents, capabilities := Intents(t, given), SortBy(t.capabilities, CapabilityKey);
    var ids, known := SortedIds(TargetsOf(t.edges)), CapabilityIds(t.capabilities);
    var a, b := CapabilityGaps(codec, capabilities, t.edges, intents), OutputGapsOver(codec, ids, known, t.edges, intents);
    SameMembers(SortBy(a + b, GapKey), a + b, g);
    CapabilityGapsMembers(codec, capabilities, t.edges, intents, g);
    OutputGapsMembers(codec, ids, known, t.edges, intents, g);
    forall c ensures c in capabilities <==> c in t.capabilities { SameMembers(capabilities, t.capabilities, c); }
  }

  ghost predicate HasGap(gaps: seq<Gap>, s: string) { exists g :: g in gaps && g.subject == s }

  /** A subject has a gap exactly when nothing consumes it and either a capability record of its name is
      implemented, exposed or routed, or no capability has its name and something produces it. */
  lemma {:induction false} GapExactlyWhen(codec: Codec, t: Topology, given: Option<map<string, Intent>>, s: string)
    ensures HasGap(Projected(codec, t, given).gaps, s) <==>
      && !Reaches(t.edges, s, {Consumes})
      && ((exists c :: c in t.capabilities && c.capabilityId == s && Built(c, t.edges))
          || (s !in CapabilityIds(t.capabilities) && Reaches(t.edges, s, {Produces})))
  {
    hide Projected, CapabilityGapIn, OutputGapIn, Built, Reaches, CapabilityIds, TargetsOf, Intents;
    var intents, known := Intents(t, given), CapabilityIds(t.capabilities);
    if g :| g in Projected(codec, t, given).gaps && g.subject == s {
      GapMembers(codec, t, given, g);
      if c :| c in t.capabilities && CapabilityGapIn(codec, c, t.edges, intents) == Some(g) {
        SubjectOfCapabilityGap(codec, c, t.edges, intents);
        CapabilityGapWhen(codec, c, t.edges, intents);
      } else {
        var id :| id in TargetsOf(t.edges) && OutputGapIn(codec, id, known, t.edges, intents) == Some(g);
        OutputGapSubject(codec, id, known, t.edges, intents);
        OutputGapWhen(codec, id, known, t.edges, intents);
      }
    }
    if !Reaches(t.edges, s, {Consumes}) {
      if c :| c in t.capabilities && c.capabilityId == s && Built(c, t.edges) {
        CapabilityGapWhen(codec, c, t.edges, intents);
        SubjectOfCapabilityGap(codec, c, t.edges, intents);
        GapMembers(codec, t, given, CapabilityGapIn(codec, c, t.edges, intents).value);
      }
      if s !in known && Reaches(t.edges, s, {Produces}) {
        OutputGapWhen(codec, s, known, t.edges, intents);
        OutputGapSubject(codec, s, known, t.edges, intents);
        ReachedIsTarget(t.edges, s, {Produces});
        GapMembers(codec, t, given, OutputGapIn(codec, s, known, t.edges, intents).value);
      }
    }
  }

  lemma {:induction false} ReachedIsTarget(edges: seq<Edge>, s: string, types: set<EdgeType>)
    requires Reaches(edges, s, types)
    ensures s in TargetsOf(edges)
  {
  }

  lemma {:induction false} SubjectOfCapabilityGap(codec: Codec, c: Capability, edges: seq<Edge>, intents: map<string, Intent>)
    ensures CapabilityGapIn(codec, c, edges, intents).Some? ==> CapabilityGapIn(codec, c, edges, intents).value.subject == c.capabilityId
  {
    hide CapabilityGap, AroundOf, Into, OutOf;
    var a := AroundOf(Into(edges, c.capabilityId), OutOf(edges, c.capabilityId));
    if CapabilityGap(codec, c, a, intents).Some? { CapabilityGapSubject(codec, c, a, intents); }
  }

  // A consumer closes the gaps on what it consumes, and alters no other.

  lemma {:induction false} UnseenInsertion(xs: seq<Edge>, e: Edge, ys: seq<Edge>, p: Edge -> bool, q: Edge -> bool)
    requires !(p(e) && q(e))
    ensures Filter(Filter(xs + [e] + ys, p), q) == Filter(Filter(xs + ys, p), q)
  {
    hide Filter;
    FilterConcat(xs + [e], ys, p);
    FilterSnoc(xs, e, p);
    FilterConcat(xs, ys, p);
    var a, b := Filter(xs, p), Filter(ys, p);
    FilterConcat(a, b, q);
    if p(e) {
      FilterConcat(a + [e], b, q);
      FilterSnoc(a, e, q);
      assert Filter(a, q) + [] == Filter(a, q);
    } else {
      assert a + [] == a;
    }
  }

  lemma {:induction false} SameIncoming(xs: seq<Edge>, e: Edge, ys: seq<Edge>, id: string, types: set<EdgeType>)
    requires e.target != id || e.edgeType !in types
    ensures OfTypes(Into(xs + [e] + ys, id), types) == OfTypes(Into(xs + ys, id), types)
  {
    hide Filter, SortBy;
    FilterSort(Filter(xs + [e] + ys, HasTarget(id)), EdgeKey, HasType(types));
    FilterSort(Filter(xs + ys, HasTarget(id)), EdgeKey, HasType(types));
    UnseenInsertion(xs, e, ys, HasTarget(id), HasType(types));
  }

  lemma {:induction false} SameOutgoing(xs: seq<Edge>, e: Edge, ys: seq<Edge>, id: string, types: set<EdgeType>)
    requires e.edgeType !in types
    ensures OfTypes(OutOf(xs + [e] + ys, id), types) == OfTypes(OutOf(xs + ys, id), types)
  {
    hide Filter, SortBy;
    FilterSort(Filter(xs + [e] + ys, HasSource(id)), EdgeKey, HasType(types));
    FilterSort(Filter(xs + ys, HasSource(id)), EdgeKey, HasType(types));
    UnseenInsertion(xs, e, ys, HasSource(id), HasType(types));
  }

  lemma {:induction false} ConsumedCapability(codec: Codec, c: Capability, xs: seq<Edge>, e: Edge, ys: seq<Edge>, intents: map<string, Intent>)
    requires e.edgeType == Consumes
    ensures CapabilityGapIn(codec, c, xs + [e] + ys, intents) ==
      if c.capabilityId == e.target then None else CapabilityGapIn(codec, c, xs + ys, intents)
  {
    var id := c.capabilityId;
    if id == e.target {
      hide CapabilityGapIn;
      CapabilityGapWhen(codec, c, xs + [e] + ys, intents);
      assert e in xs + [e] + ys;
    } else {
      hide CapabilityGap, OfTypes, Into, OutOf;
      SameIncoming(xs, e, ys, id, {Implements});
      SameIncoming(xs, e, ys, id, {ValidatedBy});
      SameOutgoing(xs, e, ys, id, {ValidatedBy});
      SameIncoming(xs, e, ys, id, {Exposes, RoutesTo});
      SameOutgoing(xs, e, ys, id, {RoutesTo});
      SameIncoming(xs, e, ys, id, {Consumes});
    }
  }

  lemma {:induction false} ConsumedOutput(
      codec: Codec, id: string, passed: set<string>, xs: seq<Edge>, e: Edge, ys: seq<Edge>, intents: map<string, Intent>)
    requires e.edgeType == Consumes
    ensures OutputGapIn(codec, id, passed, xs + [e] + ys, intents) ==
      if id == e.target then None else OutputGapIn(codec, id, passed, xs + ys, intents)
  {
    if id == e.target {
      hide OutputGapIn;
      OutputGapWhen(codec, id, passed, xs + [e] + ys, intents);
      assert e in xs + [e] + ys;
    } else {
      hide OfTypes, Into, Record;
      SameIncoming(xs, e, ys, id, {Produces});
      SameIncoming(xs, e, ys, id, {Consumes});
    }
  }

  lemma {:induction false} ConsumedCapabilities(
      codec: Codec, capabilities: seq<Capability>, xs: seq<Edge>, e: Edge, ys: seq<Edge>, intents: map<string, Intent>)
    requires e.edgeType == Consumes
    ensures CapabilityGaps(codec, capabilities, xs + [e] + ys, intents) ==
      Filter(CapabilityGaps(codec, capabilities, xs + ys, intents), NotOn(e.target))
  {
    hide CapabilityGapIn;
    if capabilities != [] {
      var n := |capabilities| - 1;
      var c, earlier := capabilities[n], CapabilityGaps(codec, capabilities[..n], xs + ys, intents);
      ConsumedCapabilities(codec, capabilities[..n], xs, e, ys, intents);
      ConsumedCapability(codec, c, xs, e, ys, intents);
      SubjectOfCapabilityGap(codec, c, xs + ys, intents);
      FilterConcat(earlier, AsList(CapabilityGapIn(codec, c, xs + ys, intents)), NotOn(e.target));
    }
  }

  lemma {:induction false} SubjectOfOutputGap(codec: Codec, id: string, passed: set<string>, edges: seq<Edge>, intents: map<string, Intent>)
    ensures OutputGapIn(codec, id, passed, edges, intents).Some? ==> OutputGapIn(codec, id, passed, edges, intents).value.subject == id
  {
    hide OutputGapIn;
    if OutputGapIn(codec, id, passed, edges, intents).Some? { OutputGapSubject(codec, id, passed, edges, intents); }
  }

  lemma {:induction false} ConsumedOutputs(
      codec: Codec, ids: seq<string>, passed: set<string>, xs: seq<Edge>, e: Edge, ys: seq<Edge>, intents: map<string, Intent>)
    requires e.edgeType == Consumes
    ensures OutputGapsOver(codec, ids, passed, xs + [e] + ys, intents) ==
      OutputGapsOver(codec, Filter(ids, OtherThan(e.target)), passed, xs + ys, intents)
    ensures OutputGapsOver(codec, Filter(ids, OtherThan(e.target)), passed, xs + ys, intents) ==
      Filter(OutputGapsOver(codec, ids, passed, xs + ys, intents), NotOn(e.target))
  {
    hide *;
    MoreOutputGaps(codec, ids, passed, xs + [e] + ys, intents, 0);
    MoreOutputGaps(codec, ids, passed, xs + ys, intents, 0);
    if ids == [] {
      NothingKept(e.target);
    } else {
      var n := |ids| - 1;
      var id, earlier := ids[n], OutputGapsOver(codec, ids[..n], passed, xs + ys, intents);
      ConsumedOutputs(codec, ids[..n], passed, xs, e, ys, intents);
      ConsumedOutput(codec, id, passed, xs, e, ys, intents);
      ListedOn(OutputGapIn(codec, id, passed, xs + ys, intents), id, e.target) by { SubjectOfOutputGap(codec, id, passed, xs + ys, intents); }
      assert ids[..n + 1] == ids == ids[..n] + [id];
      MoreOutputGaps(codec, ids, passed, xs + [e] + ys, intents, n);
      MoreOutputGaps(codec, ids, passed, xs + ys, intents, n);
      FilterSnoc(ids[..n], id, OtherThan(e.target));
      FilterConcat(earlier, AsList(OutputGapIn(codec, id, passed, xs + ys, intents)), NotOn(e.target));
      var others := Filter(ids[..n], OtherThan(e.target));
      OtherThanIs(e.target, id);
      if id != e.target {
        assert (others + [id])[..|others|] == others && (others + [id])[..|others| + 1] == others + [id];
        MoreOutputGaps(codec, others + [id], passed, xs + ys, intents, |others|);
      } else {
        assert others + [] == others;
      }
    }
  }

  lemma {:induction false} OtherThanIs(id: string, x: string)
    ensures OtherThan(id)(x) <==> x != id
  {
  }

  lemma {:induction false} NothingKept(id: string)
    ensures Filter<string>([], OtherThan(id)) == [] && Filter<Gap>([], NotOn(id)) == []
  {
  }

  /** What is left of one subject's gap once those on a subject are removed. */
  lemma {:induction false} ListedOn(g: Option<Gap>, id: string, t: string)
    requires g.Some? ==> g.value.subject == id
    ensures Filter(AsList(g), NotOn(t)) == if id == t then [] else AsList(g)
    ensures AsList(None) == []
  {
    if g.Some? { assert AsList(g)[1..] == []; }
  }

  function Plain(s: string): string { s }

  lemma {:induction false} TargetsAfter(xs: seq<Edge>, e: Edge, ys: seq<Edge>)
    ensures Filter(SortedIds(TargetsOf(xs + [e] + ys)), OtherThan(e.target)) == Filter(SortedIds(TargetsOf(xs + ys)), OtherThan(e.target))
  {
    hide SortedIds, TargetsOf, Filter;
    var a, b := SortedIds(TargetsOf(xs + [e] + ys)), SortedIds(TargetsOf(xs + ys));
    FilterAscending(a, OtherThan(e.target));
    FilterAscending(b, OtherThan(e.target));
    MoreTargets(xs, e, ys);
    SameAscending(Filter(a, OtherThan(e.target)), Filter(b, OtherThan(e.target)));
  }

  lemma {:induction false} MoreTargets(xs: seq<Edge>, e: Edge, ys: seq<Edge>)
    ensures TargetsOf(xs + [e] + ys) == TargetsOf(xs + ys) + {e.target}
  {
    forall t ensures t in TargetsOf(xs + [e] + ys) <==> t in TargetsOf(xs + ys) + {e.target} {
      if t == e.target { assert e in xs + [e] + ys; }
      if d :| d in xs + ys && d.target == t { assert d in xs + [e] + ys; }
    }
  }

  lemma {:induction false} SameAscending(r: seq<string>, q: seq<string>)
    requires Ascending(r) && Ascending(q) && forall x :: x in r <==> x in q
    ensures r == q
  {
    ListingUnique(r, q, Distinct(r), Plain);
  }

  lemma {:induction false} FilterAscending(ids: seq<string>, p: string -> bool)
    requires Ascending(ids)
    ensures Ascending(Filter(ids, p))
  {
    if ids != [] {
      FilterAscending(ids[1..], p);
      var rest := Filter(ids[1..], p);
      forall i | 0 <= i < |rest| ensures Less(ids[0], rest[i]) {
        assert rest[i] in ids[1..];
        var k :| 0 <= k < |ids[1..]| && ids[1..][k] == rest[i];
        assert ids[k + 1] == rest[i];
      }
    }
  }

  /** Adding, anywhere, an edge that consumes a subject leaves exactly the gaps there were except those on
      that subject, each as it was and in the same order. */
  lemma {:induction false} ConsumingClosesGaps(codec: Codec, t: Topology, given: Option<map<string, Intent>>, xs: seq<Edge>, e: Edge, ys: seq<Edge>)
    requires t.edges == xs + ys && e.edgeType == Consumes
    ensures Projected(codec, t.(edges := xs + [e] + ys), given).gaps == Filter(Projected(codec, t, given).gaps, NotOn(e.target))
  {
    hide *;
    var after := t.(edges := xs + [e] + ys);
    ProjectedIs(codec, t, given);
    ProjectedIs(codec, after, given);
    IntentsAre(t, given);
    IntentsAre(after, given);
    var intents, capabilities := Intents(t, given), SortBy(t.capabilities, CapabilityKey);
    var ids, known := SortedIds(TargetsOf(xs + ys)), CapabilityIds(t.capabilities);
    ConsumedCapabilities(codec, capabilities, xs, e, ys, intents);
    ConsumedOutputs(codec, SortedIds(TargetsOf(xs + [e] + ys)), known, xs, e, ys, intents);
    ConsumedOutputs(codec, ids, known, xs, e, ys, intents);
    TargetsAfter(xs, e, ys);
    var a, b := CapabilityGaps(codec, capabilities, xs + ys, intents), OutputGapsOver(codec, ids, known, xs + ys, intents);
    FilterConcat(a, b, NotOn(e.target));
    FilterSort(a + b, GapKey, NotOn(e.target));
  }

  // The order.

  /** The gap is of an earlier type than the other, or of the same type and an earlier or the same subject. */
  ghost predicate InOrder(a: Gap, b: Gap) {
    PairLeq((GapTypeName(a.gapType), a.subject), (GapTypeName(b.gapType), b.subject))
  }

  /** The gaps are listed by the name of their type and, within a type, by subject. */
  lemma {:induction false} GapsAscend(codec: Codec, t: Topology, given: Option<map<string, Intent>>)
    ensures var gaps := Projected(codec, t, given).gaps; forall i, j :: 0 <= i < j < |gaps| ==> InOrder(gaps[i], gaps[j])
  {
    hide FoundGaps, SortBy, GapKey, GapTypeName, Intents;
    var gaps := Projected(codec, t, given).gaps;
    forall i, j | 0 <= i < j < |gaps| ensures InOrder(gaps[i], gaps[j]) {
      GapKeyOrders(gaps[i], gaps[j]);
    }
  }

  // The totals.

  /** The counts by type and by disposition each add up to the gaps, name nothing else, and the gaps of
      unknown intent are those that need a decision. */
  lemma {:induction false} CountsAddUp(codec: Codec, t: Topology, given: Option<map<string, Intent>>)
    ensures var p := Projected(codec, t, given);
      && CountOf(p.byType, GapTypeName(BuiltUnreachable)) + CountOf(p.byType, GapTypeName(ExposedUnconsumed))
         + CountOf(p.byType, GapTypeName(OrphanOutput)) == |p.gaps|
      && CountOf(p.byDisposition, DispositionName(ActionRequired)) + CountOf(p.byDisposition, DispositionName(IntentionalDormancy))
         + CountOf(p.byDisposition, DispositionName(CorrectlyDisconnected)) + CountOf(p.byDisposition, DispositionName(DecisionRequired)) == |p.gaps|
      && p.unknownIntents == CountOf(p.byDisposition, DispositionName(DecisionRequired))
      && (forall name :: name in p.byType ==> exists g :: g in p.gaps && GapTypeName(g.gapType) == name)
  {
    hide *;
    ProjectedIs(codec, t, given);
    var p := Projected(codec, t, given);
    TypesAddUp(p.gaps);
    forall name | name in p.byType ensures exists g :: g in p.gaps && GapTypeName(g.gapType) == name { TypesOccur(p.gaps, name); }
    forall g | g in p.gaps ensures g.disposition == DispositionOf(g.intent) {
      GapMembers(codec, t, given, g);
      GapDispositions(codec, t, Intents(t, given), g);
    }
    DispositionsAddUp(p.gaps);
  }

  lemma {:induction false} GapDispositions(codec: Codec, t: Topology, intents: map<string, Intent>, g: Gap)
    requires || (exists c :: c in t.capabilities && CapabilityGapIn(codec, c, t.edges, intents) == Some(g))
             || (exists id :: id in TargetsOf(t.edges) && OutputGapIn(codec, id, CapabilityIds(t.capabilities), t.edges, intents) == Some(g))
    ensures g.disposition == DispositionOf(g.intent)
  {
    hide Into, OutOf, OfTypes, RefsOf, SourcesOf, Implementers, Exposers, Validators, SortedIds, GapId, Assessed, Distinct, DispositionOf;
  }

  lemma {:induction false} GapTypeNameIs(a: GapType, b: GapType)
    ensures GapTypeName(a) == GapTypeName(b) ==> a == b
  {
    assert GapTypeName(BuiltUnreachable)[0] == 'B' && GapTypeName(ExposedUnconsumed)[0] == 'E' && GapTypeName(OrphanOutput)[0] == 'O';
  }

  lemma {:induction false} OneMoreType(m: map<string, nat>, a: GapType, b: GapType)
    ensures CountOf(Increment(m, GapTypeName(a)), GapTypeName(b)) == CountOf(m, GapTypeName(b)) + if a == b then 1 else 0
  {
    hide GapTypeName, Increment, CountOf;
    CountAfter(m, GapTypeName(a), GapTypeName(b));
    GapTypeNameIs(a, b);
  }

  lemma {:induction false} DispositionNameIs(d: Disposition, e: Disposition)
    ensures DispositionName(d) == DispositionName(e) ==> d == e
  {
    assert DispositionName(ActionRequired)[0] == 'A' && DispositionName(IntentionalDormancy)[0] == 'I';
    assert DispositionName(CorrectlyDisconnected)[0] == 'C' && DispositionName(DecisionRequired)[0] == 'D';
  }

  lemma {:induction false} TypesAddUp(gaps: seq<Gap>)
    ensures var m := TypeCounts(gaps);
      CountOf(m, GapTypeName(BuiltUnreachable)) + CountOf(m, GapTypeName(ExposedUnconsumed)) + CountOf(m, GapTypeName(OrphanOutput)) == |gaps|
  {
    hide Increment, GapTypeName, CountOf;
    if gaps == [] {
      NoCounts();
    } else {
      var n := |gaps| - 1;
      TypesAddUp(gaps[..n]);
      OneMoreType(TypeCounts(gaps[..n]), gaps[n].gapType, BuiltUnreachable);
      OneMoreType(TypeCounts(gaps[..n]), gaps[n].gapType, ExposedUnconsumed);
      OneMoreType(TypeCounts(gaps[..n]), gaps[n].gapType, OrphanOutput);
    }
  }

  lemma {:induction false} TypesOccur(gaps: seq<Gap>, name: string)
    requires name in TypeCounts(gaps)
    ensures exists g :: g in gaps && GapTypeName(g.gapType) == name
  {
    hide GapTypeName;
    var n := |gaps| - 1;
    if name in TypeCounts(gaps[..n]) {
      TypesOccur(gaps[..n], name);
    } else {
      assert gaps[n] in gaps;
    }
  }

  lemma {:induction false} DispositionsAddUp(gaps: seq<Gap>)
    requires forall g :: g in gaps ==> g.disposition == DispositionOf(g.intent)
    ensures var m := DispositionCounts(gaps);
      && CountOf(m, DispositionName(ActionRequired)) + CountOf(m, DispositionName(IntentionalDormancy))
         + CountOf(m, DispositionName(CorrectlyDisconnected)) + CountOf(m, DispositionName(DecisionRequired)) == |gaps|
      && UnknownIntents(gaps) == CountOf(m, DispositionName(DecisionRequired))
  {
    hide Increment, DispositionName, CountOf;
    if gaps == [] {
      NoCounts();
    } else {
      var n := |gaps| - 1;
      var g := gaps[n];
      assert g in gaps;
      DispositionsAddUp(gaps[..n]);
      OneMoreDisposition(DispositionCounts(gaps[..n]), g.disposition, ActionRequired);
      OneMoreDisposition(DispositionCounts(gaps[..n]), g.disposition, IntentionalDormancy);
      OneMoreDisposition(DispositionCounts(gaps[..n]), g.disposition, CorrectlyDisconnected);
      OneMoreDisposition(DispositionCounts(gaps[..n]), g.disposition, DecisionRequired);
    }
  }

  lemma {:induction false} OneMoreDisposition(m: map<string, nat>, d: Disposition, e: Disposition)
    ensures CountOf(Increment(m, DispositionName(d)), DispositionName(e)) == CountOf(m, DispositionName(e)) + if d == e then 1 else 0
  {
    hide DispositionName, Increment, CountOf;
    CountAfter(m, DispositionName(d), DispositionName(e));
    DispositionNameIs(d, e);
  }
}
