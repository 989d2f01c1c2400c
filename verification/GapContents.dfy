/** What each bridge gap says, read off the capabilities, edges and declarations (topology/bridge_gaps.py). */
module GapContents {
  import opened Wrappers
  import opened Ordering
  import opened Texts
  import opened CanonicalHash
  import opened Domain
  import opened BridgeGaps

  // ---- Edges at a subject ----

  /** How many edges of these types arrive. */
  ghost function Arrivals(edges: seq<Edge>, id: string, types: set<EdgeType>): nat {
    if edges == [] then 0
    else Arrivals(edges[1..], id, types) + if edges[0].target == id && edges[0].edgeType in types then 1 else 0
  }

  ghost function Departures(edges: seq<Edge>, id: string, types: set<EdgeType>): nat {
    if edges == [] then 0
    else Departures(edges[1..], id, types) + if edges[0].source == id && edges[0].edgeType in types then 1 else 0
  }

  lemma {:induction false} ArrivingCount(edges: seq<Edge>, id: string, types: set<EdgeType>)
    ensures |Filter(Filter(edges, HasTarget(id)), HasType(types))| == Arrivals(edges, id, types)
  {
    if edges != [] { ArrivingCount(edges[1..], id, types); }
  }

  lemma {:induction false} DepartingCount(edges: seq<Edge>, id: string, types: set<EdgeType>)
    ensures |Filter(Filter(edges, HasSource(id)), HasType(types))| == Departures(edges, id, types)
  {
    if edges != [] { DepartingCount(edges[1..], id, types); }
  }

  lemma {:induction false} Arriving(edges: seq<Edge>, id: string, types: set<EdgeType>)
    ensures |OfTypes(Into(edges, id), types)| == Arrivals(edges, id, types)
    ensures forall e :: e in OfTypes(Into(edges, id), types) <==> e in edges && e.target == id && e.edgeType in types
  {
    hide SortBy, Arrivals;
    var some := Filter(edges, HasTarget(id));
    FilterPermutes(Into(edges, id), some, HasType(types));
    ArrivingCount(edges, id, types);
    forall e ensures e in Into(edges, id) <==> e in some { SameMembers(Into(edges, id), some, e); }
  }

  lemma {:induction false} Departing(edges: seq<Edge>, id: string, types: set<EdgeType>)
    ensures |OfTypes(OutOf(edges, id), types)| == Departures(edges, id, types)
    ensures forall e :: e in OfTypes(OutOf(edges, id), types) <==> e in edges && e.source == id && e.edgeType in types
  {
    hide SortBy, Departures;
    var some := Filter(edges, HasSource(id));
    FilterPermutes(OutOf(edges, id), some, HasType(types));
    DepartingCount(edges, id, types);
    forall e ensures e in OutOf(edges, id) <==> e in some { SameMembers(OutOf(edges, id), some, e); }
  }

  // ---- Who builds a capability ----

  ghost predicate ImplementedBy(c: Capability, edges: seq<Edge>, x: string) {
    x in c.implementedBy || exists e :: e in edges && e.target == c.capabilityId && e.edgeType == Implements && e.source == x
  }

  ghost predicate ValidatedBySome(c: Capability, edges: seq<Edge>) {
    c.validatedBy != [] || exists e :: e in edges && e.edgeType == ValidatedBy && (e.target == c.capabilityId || e.source == c.capabilityId)
  }

  ghost predicate ExposedBy(c: Capability, edges: seq<Edge>, x: string) {
    || x in c.exposedBy
    || (exists e :: e in edges && e.target == c.capabilityId && (e.edgeType == Exposes || e.edgeType == RoutesTo) && e.source == x)
    || (exists e :: e in edges && e.source == c.capabilityId && e.edgeType == RoutesTo && e.target == x)
  }

  /** The edge speaks for the capability being built. */
  ghost predicate Builds(e: Edge, id: string) {
    (e.target == id && (e.edgeType == Implements || e.edgeType == ValidatedBy)) || (e.source == id && e.edgeType == ValidatedBy)
  }

  /** The edge speaks for the capability being exposed. */
  ghost predicate Offers(e: Edge, id: string) {
    (e.target == id && (e.edgeType == Exposes || e.edgeType == RoutesTo)) || (e.source == id && e.edgeType == RoutesTo)
  }

  // ---- What a gap says ----

  /** Two relations or two evidence records make the gap corroborated. */
  ghost predicate Graded(g: Gap, relations: nat) {
    if relations >= 2 || |g.evidenceRefs| >= 2
    then g.confidence == Confidence(High, Corroborated, Deterministic, ValidatedMachine, Sufficient, NoConflict)
    else g.confidence == Confidence(Medium, Direct, Deterministic, ValidatedMachine, Sufficient, NoConflict)
  }

  /** Built, but nothing exposes it. */
  ghost predicate SaysUnreachable(c: Capability, edges: seq<Edge>, g: Gap) {
    var id := c.capabilityId;
    && (exists x :: ImplementedBy(c, edges, x)) && !(exists x :: ExposedBy(c, edges, x)) && g.gapType == BuiltUnreachable
    && g.observed == (if ValidatedBySome(c, edges) then Validated else Implemented) && g.expected == Exposed
    && (forall x :: x in g.producers <==> ImplementedBy(c, edges, x))
    && (forall ref :: ref in g.evidenceRefs <==> ref in c.evidenceRefs || exists e :: e in edges && Builds(e, id) && ref in e.evidenceRefs)
    && Graded(g, Arrivals(edges, id, {Implements}) + Arrivals(edges, id, {ValidatedBy}) + Departures(edges, id, {ValidatedBy}))
  }

  /** Exposed, but nothing consumes it. */
  ghost predicate SaysUnconsumed(c: Capability, edges: seq<Edge>, g: Gap) {
    var id := c.capabilityId;
    && (exists x :: ExposedBy(c, edges, x)) && g.gapType == ExposedUnconsumed && g.observed == Exposed && g.expected == Consumed
    && (forall x :: x in g.producers <==> if exists y :: ImplementedBy(c, edges, y) then ImplementedBy(c, edges, x) else ExposedBy(c, edges, x))
    && (forall ref :: ref in g.evidenceRefs <==> ref in c.evidenceRefs || exists e :: e in edges && Offers(e, id) && ref in e.evidenceRefs)
    && Graded(g, Arrivals(edges, id, {Exposes, RoutesTo}) + Departures(edges, id, {RoutesTo}))
  }

  ghost predicate SaysOfCapability(c: Capability, edges: seq<Edge>, g: Gap) {
    && g.ofCapability && g.subject == c.capabilityId && Arrivals(edges, g.subject, {Consumes}) == 0
    && (SaysUnreachable(c, edges, g) || SaysUnconsumed(c, edges, g))
  }

  /** Produced, and neither a capability nor consumed by anything. */
  ghost predicate SaysOfOutput(t: Topology, g: Gap) {
    && !g.ofCapability && (forall c :: c in t.capabilities ==> c.capabilityId != g.subject)
    && Arrivals(t.edges, g.subject, {Consumes}) == 0 && Arrivals(t.edges, g.subject, {Produces}) > 0
    && g.gapType == OrphanOutput && g.observed == Produced && g.expected == Consumed
    && (forall x :: x in g.producers <==> exists e :: e in t.edges && e.target == g.subject && e.edgeType == Produces && e.source == x)
    && (forall ref :: ref in g.evidenceRefs <==>
          exists e :: e in t.edges && e.target == g.subject && e.edgeType == Produces && ref in e.evidenceRefs)
    && Graded(g, Arrivals(t.edges, g.subject, {Produces}))
  }

  lemma {:induction false} MembersOfUnion(xs: seq<string>, ins: seq<Edge>, outs: seq<Edge>, x: string)
    ensures x in SortedIds(Distinct(xs) + SourcesOf(ins)) <==> x in xs || exists e :: e in ins && e.source == x
    ensures x in SortedIds(Distinct(xs) + SourcesOf(ins) + TargetsOf(outs)) <==>
      x in xs || (exists e :: e in ins && e.source == x) || (exists e :: e in outs && e.target == x)
  {
    hide SortedIds;
    assert x in Distinct(xs) <==> x in xs;
    assert x in SourcesOf(ins) <==> exists e :: e in ins && e.source == x;
    assert x in TargetsOf(outs) <==> exists e :: e in outs && e.target == x;
    InSorted(Distinct(xs) + SourcesOf(ins), x);
    InSorted(Distinct(xs) + SourcesOf(ins) + TargetsOf(outs), x);
  }

  lemma {:induction false} InSorted(s: set<string>, x: string)
    ensures x in SortedIds(s) <==> x in s
  {
  }

  lemma {:induction false} RefsMembers(edges: seq<Edge>, ref: string)
    ensures ref in RefsOf(edges) <==> exists e :: e in edges && ref in e.evidenceRefs
  {
  }

  lemma {:induction false} ImplementersAre(c: Capability, edges: seq<Edge>, a: Around, x: string)
    requires a == AroundOf(Into(edges, c.capabilityId), OutOf(edges, c.capabilityId))
    ensures x in Implementers(c, a) <==> ImplementedBy(c, edges, x)
  {
    hide Into, OutOf, OfTypes, SortedIds, SourcesOf, TargetsOf, Distinct;
    Arriving(edges, c.capabilityId, {Implements});
    MembersOfUnion(c.implementedBy, a.implementing, [], x);
  }

  lemma {:induction false} ExposersAre(c: Capability, edges: seq<Edge>, a: Around, x: string)
    requires a == AroundOf(Into(edges, c.capabilityId), OutOf(edges, c.capabilityId))
    ensures x in Exposers(c, a) <==> ExposedBy(c, edges, x)
  {
    hide Into, OutOf, OfTypes, SortedIds, SourcesOf, TargetsOf, Distinct;
    Arriving(edges, c.capabilityId, {Exposes, RoutesTo});
    Departing(edges, c.capabilityId, {RoutesTo});
    MembersOfUnion(c.exposedBy, a.exposing, a.routed, x);
  }

  lemma {:induction false} ValidatorsAre(c: Capability, edges: seq<Edge>, a: Around)
    requires a == AroundOf(Into(edges, c.capabilityId), OutOf(edges, c.capabilityId))
    ensures Validators(c, a) != [] <==> ValidatedBySome(c, edges)
  {
    hide Into, OutOf, OfTypes, SortedIds, SourcesOf, TargetsOf, Distinct;
    Arriving(edges, c.capabilityId, {ValidatedBy});
    Departing(edges, c.capabilityId, {ValidatedBy});
    NonEmptyUnion(c.validatedBy, a.validatingIn, a.validatingOut);
    if a.validatingIn != [] { assert a.validatingIn[0] in a.validatingIn; }
    if a.validatingOut != [] { assert a.validatingOut[0] in a.validatingOut; }
  }

  lemma {:induction false} BuildingRefs(c: Capability, edges: seq<Edge>, a: Around, ref: string)
    requires a == AroundOf(Into(edges, c.capabilityId), OutOf(edges, c.capabilityId))
    ensures ref in SortedIds(Distinct(c.evidenceRefs) + RefsOf(a.implementing) + RefsOf(a.validatingIn + a.validatingOut)) <==>
      ref in c.evidenceRefs || exists e :: e in edges && Builds(e, c.capabilityId) && ref in e.evidenceRefs
  {
    hide Into, OutOf, OfTypes, SortedIds, RefsOf;
    Arriving(edges, c.capabilityId, {Implements});
    Arriving(edges, c.capabilityId, {ValidatedBy});
    Departing(edges, c.capabilityId, {ValidatedBy});
    InSorted(Distinct(c.evidenceRefs) + RefsOf(a.implementing) + RefsOf(a.validatingIn + a.validatingOut), ref);
    RefsMembers(a.implementing, ref);
    RefsMembers(a.validatingIn + a.validatingOut, ref);
    forall e ensures Builds(e, c.capabilityId) && e in edges <==> e in a.implementing || e in a.validatingIn + a.validatingOut {
    }
  }

  lemma {:induction false} OfferingRefs(c: Capability, edges: seq<Edge>, a: Around, ref: string)
    requires a == AroundOf(Into(edges, c.capabilityId), OutOf(edges, c.capabilityId))
    ensures ref in SortedIds(Distinct(c.evidenceRefs) + RefsOf(a.exposing) + RefsOf(a.routed)) <==>
      ref in c.evidenceRefs || exists e :: e in edges && Offers(e, c.capabilityId) && ref in e.evidenceRefs
  {
    hide Into, OutOf, OfTypes, SortedIds, RefsOf;
    Arriving(edges, c.capabilityId, {Exposes, RoutesTo});
    Departing(edges, c.capabilityId, {RoutesTo});
    InSorted(Distinct(c.evidenceRefs) + RefsOf(a.exposing) + RefsOf(a.routed), ref);
    RefsMembers(a.exposing, ref);
    RefsMembers(a.routed, ref);
    forall e ensures Offers(e, c.capabilityId) && e in edges <==> e in a.exposing || e in a.routed {
    }
  }

  lemma {:induction false} RelationsAre(c: Capability, edges: seq<Edge>, a: Around)
    requires a == AroundOf(Into(edges, c.capabilityId), OutOf(edges, c.capabilityId))
    ensures var id := c.capabilityId;
      && |a.implementing| + |a.validatingIn + a.validatingOut| ==
           Arrivals(edges, id, {Implements}) + Arrivals(edges, id, {ValidatedBy}) + Departures(edges, id, {ValidatedBy})
      && |a.exposing| + |a.routed| == Arrivals(edges, id, {Exposes, RoutesTo}) + Departures(edges, id, {RoutesTo})
      && (a.consuming == [] <==> Arrivals(edges, id, {Consumes}) == 0)
  {
    hide Into, OutOf, OfTypes, Arrivals, Departures;
    Arriving(edges, c.capabilityId, {Implements});
    Arriving(edges, c.capabilityId, {ValidatedBy});
    Departing(edges, c.capabilityId, {ValidatedBy});
    Arriving(edges, c.capabilityId, {Exposes, RoutesTo});
    Departing(edges, c.capabilityId, {RoutesTo});
    Arriving(edges, c.capabilityId, {Consumes});
  }

  lemma {:induction false} NonEmpty(xs: seq<string>)
    ensures xs != [] <==> exists x :: x in xs
  {
    if xs != [] { assert xs[0] in xs; }
  }

  /** The listed producers are put in order again, which changes nothing. */
  lemma {:induction false} SameListed(s: seq<string>, x: string)
    ensures x in SortedIds(Distinct(s)) <==> x in s
  {
  }

  /** A record as it is built: its producers in order, its confidence by what supports it. */
  lemma {:induction false} RecordSays(
      codec: Codec, subject: string, ofCapability: bool, gapType: GapType, observed: Lifecycle, expected: Lifecycle, intent: Intent,
      producers: seq<string>, refs: seq<string>, relations: nat)
    ensures var g := Record(codec, subject, ofCapability, gapType, observed, expected, intent, producers, refs, relations);
      && g.subject == subject && g.ofCapability == ofCapability && g.gapType == gapType && g.observed == observed && g.expected == expected
      && g.intent == intent && g.evidenceRefs == refs && g.gapId == GapId(codec, subject, gapType) && Graded(g, relations)
      && Ascending(g.producers) && forall x :: x in g.producers <==> x in producers
  {
    hide GapId, DispositionOf;
    var g := Record(codec, subject, ofCapability, gapType, observed, expected, intent, producers, refs, relations);
    forall x ensures x in g.producers <==> x in producers { SameListed(producers, x); }
  }

  lemma {:induction false} UnreachableGapSays(codec: Codec, c: Capability, edges: seq<Edge>, intents: map<string, Intent>, a: Around)
    requires a == AroundOf(Into(edges, c.capabilityId), OutOf(edges, c.capabilityId))
    requires Implementers(c, a) != [] && Exposers(c, a) == []
    ensures SaysUnreachable(c, edges, UnreachableGap(codec, c, a, intents))
  {
    hide Into, OutOf, AroundOf, CapabilityGap, Record, RefsOf, Distinct, SortedIds, Implementers, Exposers, Validators, ImplementedBy, ExposedBy,
         ValidatedBySome, Arrivals, Departures, Builds, Offers, Graded, IntentFor, GapId, Ascending;
    RecordSays(codec, c.capabilityId, true, BuiltUnreachable, if Validators(c, a) != [] then Validated else Implemented, Exposed,
               IntentFor(intents, c.capabilityId), Implementers(c, a),
               SortedIds(Distinct(c.evidenceRefs) + RefsOf(a.implementing) + RefsOf(a.validatingIn + a.validatingOut)),
               |a.implementing| + |a.validatingIn + a.validatingOut|);
    forall x ensures x in Implementers(c, a) <==> ImplementedBy(c, edges, x) { ImplementersAre(c, edges, a, x); }
    forall x ensures x in Exposers(c, a) <==> ExposedBy(c, edges, x) { ExposersAre(c, edges, a, x); }
    NonEmpty(Implementers(c, a));
    NonEmpty(Exposers(c, a));
    ValidatorsAre(c, edges, a);
    RelationsAre(c, edges, a);
    forall ref
      ensures ref in SortedIds(Distinct(c.evidenceRefs) + RefsOf(a.implementing) + RefsOf(a.validatingIn + a.validatingOut)) <==>
        ref in c.evidenceRefs || exists e :: e in edges && Builds(e, c.capabilityId) && ref in e.evidenceRefs
    {
      BuildingRefs(c, edges, a, ref);
    }
  }

  lemma {:induction false} UnconsumedGapSays(codec: Codec, c: Capability, edges: seq<Edge>, intents: map<string, Intent>, a: Around)
    requires a == AroundOf(Into(edges, c.capabilityId), OutOf(edges, c.capabilityId))
    requires Exposers(c, a) != []
    ensures SaysUnconsumed(c, edges, UnconsumedGap(codec, c, a, intents))
  {
    hide Into, OutOf, AroundOf, CapabilityGap, Record, RefsOf, Distinct, SortedIds, Implementers, Exposers, Validators, ImplementedBy, ExposedBy,
         ValidatedBySome, Arrivals, Departures, Builds, Offers, Graded, IntentFor, GapId, Ascending;
    var implementers, exposers := Implementers(c, a), Exposers(c, a);
    RecordSays(codec, c.capabilityId, true, ExposedUnconsumed, Exposed, Consumed, IntentFor(intents, c.capabilityId),
               if implementers != [] then implementers else exposers,
               SortedIds(Distinct(c.evidenceRefs) + RefsOf(a.exposing) + RefsOf(a.routed)), |a.exposing| + |a.routed|);
    forall x ensures x in implementers <==> ImplementedBy(c, edges, x) { ImplementersAre(c, edges, a, x); }
    forall x ensures x in exposers <==> ExposedBy(c, edges, x) { ExposersAre(c, edges, a, x); }
    NonEmpty(implementers);
    NonEmpty(exposers);
    RelationsAre(c, edges, a);
    forall ref
      ensures ref in SortedIds(Distinct(c.evidenceRefs) + RefsOf(a.exposing) + RefsOf(a.routed)) <==>
        ref in c.evidenceRefs || exists e :: e in edges && Offers(e, c.capabilityId) && ref in e.evidenceRefs
    {
      OfferingRefs(c, edges, a, ref);
    }
  }

  lemma {:induction false} CapabilityGapSays(codec: Codec, c: Capability, edges: seq<Edge>, intents: map<string, Intent>)
    requires CapabilityGapIn(codec, c, edges, intents).Some?
    ensures SaysOfCapability(c, edges, CapabilityGapIn(codec, c, edges, intents).value)
  {
    hide Into, OutOf, AroundOf, UnreachableGap, UnconsumedGap, Implementers, Exposers, Arrivals, SaysUnreachable, SaysUnconsumed, Record, SortedIds, RefsOf, Distinct;
    var a := AroundOf(Into(edges, c.capabilityId), OutOf(edges, c.capabilityId));
    CapabilityGapSubject(codec, c, a, intents);
    RelationsAre(c, edges, a);
    if Exposers(c, a) == [] { UnreachableGapSays(codec, c, edges, intents, a); } else { UnconsumedGapSays(codec, c, edges, intents, a); }
  }

  lemma {:induction false} OutputGapSays(codec: Codec, t: Topology, id: string, intents: map<string, Intent>)
    requires OutputGapIn(codec, id, CapabilityIds(t.capabilities), t.edges, intents).Some?
    ensures SaysOfOutput(t, OutputGapIn(codec, id, CapabilityIds(t.capabilities), t.edges, intents).value)
  {
    hide Into, OfTypes, RefsOf, SourcesOf, Distinct, SortedIds, Arrivals, GapId, DispositionOf, IntentFor;
    var producing := OfTypes(Into(t.edges, id), {Produces});
    Arriving(t.edges, id, {Produces});
    Arriving(t.edges, id, {Consumes});
    forall ref ensures ref in SortedIds(RefsOf(producing)) <==> exists e :: e in producing && ref in e.evidenceRefs {
      InSorted(RefsOf(producing), ref);
      RefsMembers(producing, ref);
    }
    forall x ensures x in SortedIds(Distinct(SortedIds(SourcesOf(producing)))) <==> exists e :: e in producing && e.source == x {
      SameListed(SortedIds(SourcesOf(producing)), x);
      InSorted(SourcesOf(producing), x);
      SourcesMembers(producing, x);
    }
  }

  lemma {:induction false} SourcesMembers(edges: seq<Edge>, x: string)
    ensures x in SourcesOf(edges) <==> exists e :: e in edges && e.source == x
  {
  }

  // ---- Intent and disposition ----

  function IntentText(intent: Intent): string {
    match intent
    case Required => "REQUIRED"
    case Optional => "OPTIONAL"
    case Deferred => "DEFERRED"
    case Prohibited => "PROHIBITED"
    case UnknownIntent => "UNKNOWN"
  }

  lemma {:induction false} IntentsAreNamed(name: string, intent: Intent)
    ensures IntentNamed(name) == Some(intent) <==> name == IntentText(intent)
  {
  }

  /** The text is the name but for the case of its letters. */
  ghost predicate ReadsAs(text: string, name: string) {
    |text| == |name| && forall i :: 0 <= i < |text| ==>
      name[i] == if 'a' <= text[i] <= 'z' then ((text[i] as int) - 32) as char else text[i]
  }

  lemma {:induction false} UpperMeans(text: string, name: string)
    ensures Upper(text) == name <==> ReadsAs(text, name)
  {
    if text != "" && name != "" {
      UpperMeans(text[1..], name[1..]);
      assert name == [name[0]] + name[1..];
      assert ReadsAs(text, name) <==> ReadsAs(text[..1], name[..1]) && ReadsAs(text[1..], name[1..]) by { ReadsOn(text, name); }
    }
  }

  lemma {:induction false} ReadsOn(text: string, name: string)
    requires text != "" && name != ""
    ensures ReadsAs(text, name) <==> ReadsAs(text[..1], name[..1]) && ReadsAs(text[1..], name[1..])
  {
    if ReadsAs(text[..1], name[..1]) && ReadsAs(text[1..], name[1..]) {
      forall i | 0 <= i < |text| ensures name[i] == if 'a' <= text[i] <= 'z' then ((text[i] as int) - 32) as char else text[i] {
        if i > 0 { assert text[1..][i - 1] == text[i] && name[1..][i - 1] == name[i]; }
      }
    }
  }

  /** A node record that declares this intent for the subject, in whatever case. */
  ghost predicate DeclaresAs(r: GraphRecord, subject: string, intent: Intent) {
    r.isNode && r.entityId == subject && r.intent.Some? && ReadsAs(r.intent.value, IntentText(intent))
  }

  ghost predicate DeclaresSome(r: GraphRecord, subject: string) { exists intent :: DeclaresAs(r, subject, intent) }

  /** The last declaration of the subject, if there is one, is of this intent. */
  ghost predicate DeclaredAs(graph: seq<GraphRecord>, subject: string, intent: Intent) {
    exists i :: 0 <= i < |graph| && DeclaresAs(graph[i], subject, intent) && forall j :: i < j < |graph| ==> !DeclaresSome(graph[j], subject)
  }

  lemma {:induction false} DeclaresMeans(r: GraphRecord, subject: string, intent: Intent)
    ensures DeclaresAs(r, subject, intent) <==> r.entityId == subject && Declares(r) == Some(intent)
    ensures DeclaresSome(r, subject) <==> r.entityId == subject && Declares(r).Some?
  {
    hide IntentNamed, IntentText, Upper, ReadsAs;
    if r.intent.Some? {
      forall name { UpperMeans(r.intent.value, name); }
      IntentsAreNamed(Upper(r.intent.value), intent);
      if Declares(r).Some? {
        IntentsAreNamed(Upper(r.intent.value), Declares(r).value);
        assert r.entityId == subject ==> DeclaresAs(r, subject, Declares(r).value);
      }
      if DeclaresSome(r, subject) {
        var other :| DeclaresAs(r, subject, other);
        IntentsAreNamed(Upper(r.intent.value), other);
      }
    }
  }

  lemma {:induction false} DeclaredMeans(graph: seq<GraphRecord>, subject: string, intent: Intent)
    ensures DeclaredAs(graph, subject, intent) <==> subject in BridgeGaps.Declared(graph) && BridgeGaps.Declared(graph)[subject] == intent
  {
    hide DeclaresAs, DeclaresSome, Declares;
    if graph != [] {
      var n := |graph| - 1;
      DeclaredMeans(graph[..n], subject, intent);
      DeclaresMeans(graph[n], subject, intent);
      if DeclaresSome(graph[n], subject) {
      } else {
        if i :| 0 <= i < n && DeclaresAs(graph[..n][i], subject, intent) && forall j :: i < j < n ==> !DeclaresSome(graph[..n][j], subject) {
          forall j | i < j < |graph| ensures !DeclaresSome(graph[j], subject) {
            if j < n { assert graph[..n][j] == graph[j]; }
          }
          assert DeclaresAs(graph[i], subject, intent);
        }
        if i :| 0 <= i < |graph| && DeclaresAs(graph[i], subject, intent) && forall j :: i < j < |graph| ==> !DeclaresSome(graph[j], subject) {
          DeclaresMeans(graph[i], subject, intent);
          assert i < n && graph[..n][i] == graph[i];
          forall j | i < j < n ensures !DeclaresSome(graph[..n][j], subject) { assert graph[..n][j] == graph[j]; }
        }
      }
    }
  }

  /** The intent that counts: the one given, else the one declared last, else none known. */
  ghost predicate Intends(t: Topology, given: Option<map<string, Intent>>, subject: string, intent: Intent) {
    if given.Some? && subject in given.value then intent == given.value[subject]
    else DeclaredAs(t.graph, subject, intent) || (intent == UnknownIntent && forall other :: !DeclaredAs(t.graph, subject, other))
  }

  lemma {:induction false} IntendsMeans(t: Topology, given: Option<map<string, Intent>>, subject: string)
    ensures Intends(t, given, subject, IntentFor(Intents(t, given), subject))
  {
    hide BridgeGaps.Declared, DeclaredAs;
    forall intent ensures DeclaredAs(t.graph, subject, intent) <==> subject in BridgeGaps.Declared(t.graph) && BridgeGaps.Declared(t.graph)[subject] == intent {
      DeclaredMeans(t.graph, subject, intent);
    }
  }

  /** What is to be done follows from what is intended. */
  ghost predicate Disposes(g: Gap) {
    && (g.disposition == ActionRequired <==> g.intent == Required)
    && (g.disposition == IntentionalDormancy <==> g.intent == Optional || g.intent == Deferred)
    && (g.disposition == CorrectlyDisconnected <==> g.intent == Prohibited)
    && (g.disposition == DecisionRequired <==> g.intent == UnknownIntent)
  }

  lemma {:induction false} CapabilityGapIntends(codec: Codec, c: Capability, edges: seq<Edge>, intents: map<string, Intent>)
    requires CapabilityGapIn(codec, c, edges, intents).Some?
    ensures var g := CapabilityGapIn(codec, c, edges, intents).value;
      g.intent == IntentFor(intents, g.subject) && g.gapId == GapId(codec, g.subject, g.gapType) && Disposes(g) && Ascending(g.producers)
      && Ascending(g.evidenceRefs)
  {
    hide Into, OutOf, AroundOf, UnreachableGap, UnconsumedGap, Implementers, Exposers, GapId, IntentFor, Disposes, Ascending;
    var a := AroundOf(Into(edges, c.capabilityId), OutOf(edges, c.capabilityId));
    UnreachableIntends(codec, c, a, intents);
    UnconsumedIntends(codec, c, a, intents);
  }

  lemma {:induction false} UnreachableIntends(codec: Codec, c: Capability, a: Around, intents: map<string, Intent>)
    ensures var g := UnreachableGap(codec, c, a, intents);
      g.intent == IntentFor(intents, g.subject) && g.gapId == GapId(codec, g.subject, g.gapType) && Disposes(g) && Ascending(g.producers)
      && Ascending(g.evidenceRefs)
  {
    hide Implementers, Validators, RefsOf, Distinct, SortedIds, GapId, IntentFor, Disposes, Ascending, Record;
    RecordIntends(codec, c.capabilityId, true, BuiltUnreachable, if Validators(c, a) != [] then Validated else Implemented, Exposed,
                  IntentFor(intents, c.capabilityId), Implementers(c, a),
                  Distinct(c.evidenceRefs) + RefsOf(a.implementing) + RefsOf(a.validatingIn + a.validatingOut),
                  |a.implementing| + |a.validatingIn + a.validatingOut|);
  }

  lemma {:induction false} UnconsumedIntends(codec: Codec, c: Capability, a: Around, intents: map<string, Intent>)
    ensures var g := UnconsumedGap(codec, c, a, intents);
      g.intent == IntentFor(intents, g.subject) && g.gapId == GapId(codec, g.subject, g.gapType) && Disposes(g) && Ascending(g.producers)
      && Ascending(g.evidenceRefs)
  {
    hide Implementers, Exposers, RefsOf, Distinct, SortedIds, GapId, IntentFor, Disposes, Ascending, Record;
    RecordIntends(codec, c.capabilityId, true, ExposedUnconsumed, Exposed, Consumed, IntentFor(intents, c.capabilityId),
                  if Implementers(c, a) != [] then Implementers(c, a) else Exposers(c, a),
                  Distinct(c.evidenceRefs) + RefsOf(a.exposing) + RefsOf(a.routed), |a.exposing| + |a.routed|);
  }

  lemma {:induction false} RecordIntends(
      codec: Codec, subject: string, ofCapability: bool, gapType: GapType, observed: Lifecycle, expected: Lifecycle, intent: Intent,
      producers: seq<string>, refs: set<string>, relations: nat)
    ensures var g := Record(codec, subject, ofCapability, gapType, observed, expected, intent, producers, SortedIds(refs), relations);
      && g.subject == subject && g.intent == intent && g.gapId == GapId(codec, g.subject, g.gapType) && Disposes(g) && Ascending(g.producers)
      && Ascending(g.evidenceRefs)
  {
    hide GapId, Assessed, Disposes, DispositionOf, SortedIds, Distinct, Ascending;
    RecordDisposes(codec, subject, ofCapability, gapType, observed, expected, intent, producers, SortedIds(refs), relations);
  }

  lemma {:induction false} RecordDisposes(
      codec: Codec, subject: string, ofCapability: bool, gapType: GapType, observed: Lifecycle, expected: Lifecycle, intent: Intent,
      producers: seq<string>, refs: seq<string>, relations: nat)
    ensures Disposes(Record(codec, subject, ofCapability, gapType, observed, expected, intent, producers, refs, relations))
  {
    hide GapId, Assessed, SortedIds, Distinct;
  }

  lemma {:induction false} OutputGapIntends(codec: Codec, id: string, passed: set<string>, edges: seq<Edge>, intents: map<string, Intent>)
    requires OutputGapIn(codec, id, passed, edges, intents).Some?
    ensures var g := OutputGapIn(codec, id, passed, edges, intents).value;
      g.intent == IntentFor(intents, g.subject) && g.gapId == GapId(codec, g.subject, g.gapType) && Disposes(g) && Ascending(g.producers)
      && Ascending(g.evidenceRefs)
  {
    hide Into, OfTypes, SourcesOf, RefsOf, SortedIds, GapId, IntentFor, Disposes, Ascending, Record;
    var producing := OfTypes(Into(edges, id), {Produces});
    RecordIntends(codec, id, false, OrphanOutput, Produced, Consumed, IntentFor(intents, id), SortedIds(SourcesOf(producing)), RefsOf(producing),
                  |producing|);
  }

  // ---- All gaps ----

  /** Every gap says of a capability, or of an output, exactly what the capability and the edges at it say;
      its intent is the one that counts, and its disposition follows. */
  lemma {:induction false} GapsSayWhatIs(codec: Codec, t: Topology, given: Option<map<string, Intent>>, g: Gap)
    requires g in Projected(codec, t, given).gaps
    ensures (exists c :: c in t.capabilities && SaysOfCapability(c, t.edges, g)) || SaysOfOutput(t, g)
    ensures Intends(t, given, g.subject, g.intent) && Disposes(g) && g.gapId == GapId(codec, g.subject, g.gapType)
    ensures Ascending(g.producers) && Ascending(g.evidenceRefs)
  {
    hide *;
    var intents, passed := Intents(t, given), CapabilityIds(t.capabilities);
    GapMembers(codec, t, given, g);
    IntendsMeans(t, given, g.subject);
    if c :| c in t.capabilities && CapabilityGapIn(codec, c, t.edges, intents) == Some(g) {
      CapabilityGapSays(codec, c, t.edges, intents);
      CapabilityGapIntends(codec, c, t.edges, intents);
    } else {
      var id :| id in TargetsOf(t.edges) && OutputGapIn(codec, id, passed, t.edges, intents) == Some(g);
      OutputGapSays(codec, t, id, intents);
      OutputGapIntends(codec, id, passed, t.edges, intents);
    }
  }
}
