/** Reconciled claims projected into relations and capabilities (topology/claim_projection.py). */
module ClaimProjection {
  import opened Wrappers
  import opened Ordering
  import opened CanonicalHash
  import opened Identities
  import opened Domain
  import opened Reconciliation

  datatype Ineligible = PredicateNotProjectable | Conflicted

  /** `projection_ineligibility`. */
  function Ineligibility(registry: Registry, claim: Claim): Option<Ineligible> {
    if !registry.Projectable(claim.predicat) then Some(PredicateNotProjectable)
    else if claim.conflictStatus != NoConflict || claim.conflictIds != [] then Some(Conflicted)
    else None
  }

  // ---- The projection table ----

  datatype Projector = CanonicalContract | HttpRoute | Dependency | ReplacedBy | ServiceAction

  function ProjectorOf(predicat: string): Option<Projector> {
    if predicat == "authority.canonical_contract" then Some(CanonicalContract)
    else if predicat == "http.route" then Some(HttpRoute)
    else if predicat == "package.dependency" then Some(Dependency)
    else if predicat == "repository.replaced_by" then Some(ReplacedBy)
    else if predicat == "service.action" then Some(ServiceAction)
    else None
  }

  datatype Projected = Projected(capability: Option<Capability>, edge: Option<Edge>, node: Option<Node>) {
    function Ids(): set<string> {
      (if capability.Some? then {capability.value.capabilityId} else {}) + (if edge.Some? then {edge.value.edgeId} else {})
      + (if node.Some? then {node.value.entityId} else {})
    }
  }

  const DEPENDENCY_KEYS: seq<string> := ["projected_from_claim_id", "assertion_predicate", "assertion_object", "endpoint_kind", "package_name"]
  const CONTRACT_KEYS: seq<string> := ["projected_from_claim_id", "assertion_predicate", "assertion_object", "endpoint_kind", "contract_reference"]
  const REPLACED_KEYS: seq<string> := ["projected_from_claim_id", "assertion_predicate", "assertion_object", "endpoint_kind", "declared_by"]
  const ACTION_KEYS: seq<string> := ["subject_id", "action"]
  const ROUTE_KEYS: seq<string> := ["subject_id", "route"]

  lemma {:induction false} DependencyKeysAreGood()
    ensures GoodKeys(DEPENDENCY_KEYS)
  {
  }

  lemma {:induction false} ContractKeysAreGood()
    ensures GoodKeys(CONTRACT_KEYS)
  {
  }

  lemma {:induction false} ReplacedKeysAreGood()
    ensures GoodKeys(REPLACED_KEYS)
  {
  }

  lemma {:induction false} CapabilityKeysAreGood()
    ensures GoodKeys(ACTION_KEYS) && GoodKeys(ROUTE_KEYS)
  {
  }

  function Words(keys: seq<string>, values: seq<string>): map<string, Property>
    requires |keys| == |values| && forall i, j :: 0 <= i < j < |keys| ==> keys[i] != keys[j]
  {
    if keys == [] then map[] else Words(keys[1..], values[1..])[keys[0] := Word(values[0])]
  }

  function ClaimEdge(codec: Codec, source: string, target: string, edgeType: EdgeType, claim: Claim, keys: seq<string>, values: seq<string>): Edge
    requires |keys| == |values| && GoodKeys(keys)
  {
    Edge(EdgeId(codec, source, target, TypeName(edgeType), keys, values), source, target, edgeType, Outbound, Words(keys, values),
         claim.evidenceRefs, claim.confidence)
  }

  function ReferenceNode(claim: Claim, entityId: string, kind: string, key: string, flag: string): Node {
    Node(entityId, kind, map[key := Word(claim.object_), flag := Flag(false), "projected_from_claim_id" := Word(claim.claimId)],
         claim.evidenceRefs, claim.confidence)
  }

  function ProjectDependency(codec: Codec, claim: Claim): Projected {
    DependencyKeysAreGood();
    var target := "package:" + claim.object_;
    Projected(None,
              Some(ClaimEdge(codec, claim.subject, target, DependsOn, claim, DEPENDENCY_KEYS,
                             [claim.claimId, claim.predicat, claim.object_, "external-package-reference", claim.object_])),
              Some(ReferenceNode(claim, target, "ExternalPackage", "package_name", "observed_as_repository")))
  }

  function ProjectContract(codec: Codec, claim: Claim): Projected {
    ContractKeysAreGood();
    var target := "contract-reference:" + claim.object_;
    Projected(None,
              Some(ClaimEdge(codec, claim.subject, target, GovernedBy, claim, CONTRACT_KEYS,
                             [claim.claimId, claim.predicat, claim.object_, "declared-contract-reference", claim.object_])),
              Some(ReferenceNode(claim, target, "ContractReference", "contract_reference", "resolved_to_artifact")))
  }

  /** The successor supersedes the subject, so the edge leads to the subject. */
  function ProjectReplacedBy(codec: Codec, claim: Claim): Projected {
    ReplacedKeysAreGood();
    var successor := "repository-reference:" + claim.object_;
    Projected(None,
              Some(ClaimEdge(codec, successor, claim.subject, Supersedes, claim, REPLACED_KEYS,
                             [claim.claimId, claim.predicat, claim.object_, "declared-repository-reference", claim.subject])),
              Some(ReferenceNode(claim, successor, "RepositoryReference", "reference", "observed_in_constellation")))
  }

  function ProjectAction(codec: Codec, claim: Claim): Projected {
    CapabilityKeysAreGood();
    var id := IdOf(codec, "capability:service-action", ACTION_KEYS, [Text(claim.subject), Text(claim.object_)]);
    Projected(Some(Capability(id, claim.object_, [claim.subject], [], [], claim.evidenceRefs, claim.confidence)), None, None)
  }

  function ProjectRoute(codec: Codec, claim: Claim): Projected {
    CapabilityKeysAreGood();
    var id := IdOf(codec, "capability:http-route", ROUTE_KEYS, [Text(claim.subject), Text(claim.object_)]);
    Projected(Some(Capability(id, claim.object_, [], [claim.subject], [], claim.evidenceRefs, claim.confidence)), None, None)
  }

  function ApplyProjector(codec: Codec, projector: Projector, claim: Claim): Projected {
    match projector
    case CanonicalContract => ProjectContract(codec, claim)
    case HttpRoute => ProjectRoute(codec, claim)
    case Dependency => ProjectDependency(codec, claim)
    case ReplacedBy => ProjectReplacedBy(codec, claim)
    case ServiceAction => ProjectAction(codec, claim)
  }

  /** What one claim projects, if anything. */
  function Project(codec: Codec, registry: Registry, claim: Claim): Option<Projected> {
    var projector := ProjectorOf(claim.predicat);
    if projector.None? || Ineligibility(registry, claim).Some? then None else Some(ApplyProjector(codec, projector.value, claim))
  }

  // ---- What several claims project ----

  /** The edges by identity; a later claim's edge replaces an earlier one's. */
  function EdgesOf(codec: Codec, registry: Registry, claims: seq<Claim>): map<string, Edge> {
    if claims == [] then map[]
    else
      var earlier := EdgesOf(codec, registry, claims[..|claims| - 1]);
      var p := Project(codec, registry, claims[|claims| - 1]);
      if p.Some? && p.value.edge.Some? then earlier[p.value.edge.value.edgeId := p.value.edge.value] else earlier
  }

  /** The nodes by identity; the first claim's node stays. */
  function NodesOf(codec: Codec, registry: Registry, claims: seq<Claim>): map<string, Node> {
    if claims == [] then map[]
    else
      var earlier := NodesOf(codec, registry, claims[..|claims| - 1]);
      var p := Project(codec, registry, claims[|claims| - 1]);
      if p.Some? && p.value.node.Some? && p.value.node.value.entityId !in earlier
      then earlier[p.value.node.value.entityId := p.value.node.value] else earlier
  }

  function CapabilitiesOf(codec: Codec, registry: Registry, claims: seq<Claim>): seq<Capability> {
    if claims == [] then []
    else
      var earlier := CapabilitiesOf(codec, registry, claims[..|claims| - 1]);
      var p := Project(codec, registry, claims[|claims| - 1]);
      if p.Some? && p.value.capability.Some? then earlier + [p.value.capability.value] else earlier
  }

  function EntitiesOf(codec: Codec, registry: Registry, claims: seq<Claim>): map<string, seq<string>> {
    if claims == [] then map[]
    else
      var earlier := EntitiesOf(codec, registry, claims[..|claims| - 1]);
      var claim := claims[|claims| - 1];
      var p := Project(codec, registry, claim);
      if p.Some? && p.value.Ids() != {} then earlier[claim.claimId := SortedIds(p.value.Ids())] else earlier
  }

  datatype Projection = Projection(capabilities: seq<Capability>, edges: seq<Edge>, nodes: seq<Node>, entities: map<string, seq<string>>) {
    /** The identities of everything projected. */
    function Ids(): set<string> {
      (set x | x in capabilities :: x.capabilityId) + (set x | x in edges :: x.edgeId) + (set x | x in nodes :: x.entityId)
    }
  }

  function ProjectionOf(codec: Codec, registry: Registry, claims: seq<Claim>): Projection {
    var sorted := SortBy(claims, ClaimKey);
    Projection(SortBy(CapabilitiesOf(codec, registry, sorted), CapabilityKey), InKeyOrder(EdgesOf(codec, registry, sorted)),
               InKeyOrder(NodesOf(codec, registry, sorted)), EntitiesOf(codec, registry, sorted))
  }

  lemma {:induction false} NothingProjected(codec: Codec, registry: Registry)
    ensures CapabilitiesOf(codec, registry, []) == [] && EdgesOf(codec, registry, []) == map[]
    ensures NodesOf(codec, registry, []) == map[] && EntitiesOf(codec, registry, []) == map[]
  {
  }

  lemma {:induction false} OneMoreClaim(codec: Codec, registry: Registry, claims: seq<Claim>, i: nat)
    requires i < |claims|
    ensures var p := Project(codec, registry, claims[i]);
      var capabilities, edges := CapabilitiesOf(codec, registry, claims[..i]), EdgesOf(codec, registry, claims[..i]);
      var nodes, entities := NodesOf(codec, registry, claims[..i]), EntitiesOf(codec, registry, claims[..i]);
      && CapabilitiesOf(codec, registry, claims[..i + 1]) ==
           (if p.Some? && p.value.capability.Some? then capabilities + [p.value.capability.value] else capabilities)
      && EdgesOf(codec, registry, claims[..i + 1]) ==
           (if p.Some? && p.value.edge.Some? then edges[p.value.edge.value.edgeId := p.value.edge.value] else edges)
      && NodesOf(codec, registry, claims[..i + 1]) ==
           (if p.Some? && p.value.node.Some? && p.value.node.value.entityId !in nodes
            then nodes[p.value.node.value.entityId := p.value.node.value] else nodes)
      && EntitiesOf(codec, registry, claims[..i + 1]) ==
           (if p.Some? && p.value.Ids() != {} then entities[claims[i].claimId := SortedIds(p.value.Ids())] else entities)
  {
    hide Project;
    assert claims[..i + 1][..i] == claims[..i];
  }

  /** `project_claims`. */
  method ProjectClaims(codec: Codec, registry: Registry, claims: seq<Claim>) returns (projection: Projection)
    ensures projection == ProjectionOf(codec, registry, claims)
  {
    hide Ineligibility, ApplyProjector, ProjectorOf, CapabilitiesOf, EdgesOf, NodesOf, EntitiesOf, SortBy, InKeyOrder;
    var sorted := SortBy(claims, ClaimKey);
    var capabilities: seq<Capability> := [];
    var edges: map<string, Edge> := map[];
    var nodes: map<string, Node> := map[];
    var entities: map<string, seq<string>> := map[];
    NothingProjected(codec, registry);
    for i := 0 to |sorted|
      invariant capabilities == CapabilitiesOf(codec, registry, sorted[..i]) && edges == EdgesOf(codec, registry, sorted[..i])
      invariant nodes == NodesOf(codec, registry, sorted[..i]) && entities == EntitiesOf(codec, registry, sorted[..i])
    {
      OneMoreClaim(codec, registry, sorted, i);
      var claim := sorted[i];
      var projector := ProjectorOf(claim.predicat);
      if projector.None? || Ineligibility(registry, claim).Some? { continue; }
      var p := ApplyProjector(codec, projector.value, claim);
      if p.capability.Some? { capabilities := capabilities + [p.capability.value]; }
      if p.edge.Some? { edges := edges[p.edge.value.edgeId := p.edge.value]; }
      if p.node.Some? && p.node.value.entityId !in nodes { nodes := nodes[p.node.value.entityId := p.node.value]; }
      var produced := SortedIds(p.Ids());
      if produced != [] { entities := entities[claim.claimId := produced]; }
    }
    assert sorted[..|sorted|] == sorted;
    projection := Projection(SortBy(capabilities, CapabilityKey), InKeyOrder(edges), InKeyOrder(nodes), entities);
  }

  // ---- Merging and stamping ----

  /** The claims that produced anything, through any of several projections. */
  function Producers(maps: seq<map<string, seq<string>>>): set<string> {
    if maps == [] then {} else Producers(maps[..|maps| - 1]) + maps[|maps| - 1].Keys
  }

  /** What a claim produced, through all of them. */
  function Produced(maps: seq<map<string, seq<string>>>, claimId: string): set<string> {
    if maps == [] then {}
    else
      var last := maps[|maps| - 1];
      Produced(maps[..|maps| - 1], claimId) + if claimId in last then Distinct(last[claimId]) else {}
  }

  ghost predicate IsMerged(maps: seq<map<string, seq<string>>>, merged: map<string, seq<string>>) {
    && merged.Keys == Producers(maps)
    && (forall id :: id in merged ==> merged[id] == SortedIds(Produced(maps, id)))
  }

  /** `merge_projected_entities`. */
  method MergeProjectedEntities(maps: seq<map<string, seq<string>>>) returns (merged: map<string, seq<string>>)
    ensures IsMerged(maps, merged)
  {
    hide *;
    var sets: map<string, set<string>> := map[];
    MoreProducers(maps, 0, "");
    for i := 0 to |maps|
      invariant sets.Keys == Producers(maps[..i])
      invariant forall id :: id in sets ==> sets[id] == Produced(maps[..i], id)
    {
      forall id { MoreProducers(maps, i, id); }
      MoreProducers(maps, i, "");
      sets := MergeOne(maps[i], sets);
    }
    assert maps[..|maps|] == maps;
    merged := map id | id in sets :: SortedIds(sets[id]);
    MergedIs(maps, merged);
  }

  /** The inner loop, over one map's items. */
  method MergeOne(more: map<string, seq<string>>, before: map<string, set<string>>) returns (sets: map<string, set<string>>)
    ensures sets.Keys == before.Keys + more.Keys
    ensures forall id :: id in sets ==> sets[id] == (if id in before then before[id] else {}) + if id in more then Distinct(more[id]) else {}
  {
    hide Distinct;
    sets := before;
    var todo := more.Keys;
    while todo != {}
      invariant todo <= more.Keys && sets.Keys == before.Keys + (more.Keys - todo)
      invariant forall id :: id in sets ==>
        sets[id] == (if id in before then before[id] else {}) + (if id in more && id !in todo then Distinct(more[id]) else {})
    {
      var id :| id in todo;
      todo := todo - {id};
      sets := sets[id := (if id in sets then sets[id] else {}) + Distinct(more[id])];
    }
  }

  lemma {:induction false} MergedIs(maps: seq<map<string, seq<string>>>, merged: map<string, seq<string>>)
    requires merged.Keys == Producers(maps) && forall id :: id in merged ==> merged[id] == SortedIds(Produced(maps, id))
    ensures IsMerged(maps, merged)
  {
  }

  lemma {:induction false} MoreProducers(maps: seq<map<string, seq<string>>>, i: nat, id: string)
    ensures Producers([]) == {}
    ensures i < |maps| ==> Producers(maps[..i + 1]) == Producers(maps[..i]) + maps[i].Keys
    ensures i < |maps| ==> Produced(maps[..i + 1], id) == Produced(maps[..i], id) + if id in maps[i] then Distinct(maps[i][id]) else {}
    ensures i < |maps| && id !in Producers(maps[..i]) ==> Produced(maps[..i], id) == {}
  {
    if i < |maps| {
      assert maps[..i + 1][..i] == maps[..i];
      if id !in Producers(maps[..i]) { NoProducer(maps[..i], id); }
    }
  }

  lemma {:induction false} NoProducer(maps: seq<map<string, seq<string>>>, id: string)
    requires id !in Producers(maps)
    ensures Produced(maps, id) == {}
  {
    if maps != [] { NoProducer(maps[..|maps| - 1], id); }
  }

  /** `apply_projection`. */
  function ApplyProjection(claims: seq<Claim>, entities: map<string, seq<string>>): (r: seq<Claim>)
    ensures |r| == |claims|
  {
    seq(|claims|, i requires 0 <= i < |claims| =>
      claims[i].(projected := claims[i].claimId in entities, projectedIds := if claims[i].claimId in entities then entities[claims[i].claimId] else []))
  }

  // ---- Every projected identity exists ----

  /** The identities of the records several claims project. */
  function RecordIds(codec: Codec, registry: Registry, claims: seq<Claim>): set<string> {
    (set x | x in CapabilitiesOf(codec, registry, claims) :: x.capabilityId) + EdgesOf(codec, registry, claims).Keys
    + NodesOf(codec, registry, claims).Keys
  }

  lemma {:induction false} RecordIdsGrow(codec: Codec, registry: Registry, claims: seq<Claim>)
    requires claims != []
    ensures var p := Project(codec, registry, claims[|claims| - 1]);
      RecordIds(codec, registry, claims) ==
        RecordIds(codec, registry, claims[..|claims| - 1]) + if p.Some? then p.value.Ids() else {}
  {
    hide Project;
  }

  /** What a claim is recorded to have produced was produced, and is not empty. */
  lemma {:induction false} EntitiesExist(codec: Codec, registry: Registry, claims: seq<Claim>, id: string)
    requires id in EntitiesOf(codec, registry, claims)
    ensures Distinct(EntitiesOf(codec, registry, claims)[id]) <= RecordIds(codec, registry, claims)
    ensures EntitiesOf(codec, registry, claims)[id] != []
  {
    hide RecordIds, Project, CapabilitiesOf, EdgesOf, NodesOf;
    var n := |claims| - 1;
    RecordIdsGrow(codec, registry, claims);
    var p := Project(codec, registry, claims[n]);
    if !(p.Some? && p.value.Ids() != {} && claims[n].claimId == id) {
      EntitiesExist(codec, registry, claims[..n], id);
    }
  }

  lemma {:induction false} KeyedByOwnId(codec: Codec, registry: Registry, claims: seq<Claim>)
    ensures forall k :: k in EdgesOf(codec, registry, claims) ==> EdgesOf(codec, registry, claims)[k].edgeId == k
    ensures forall k :: k in NodesOf(codec, registry, claims) ==> NodesOf(codec, registry, claims)[k].entityId == k
  {
    hide Project;
    if claims != [] { KeyedByOwnId(codec, registry, claims[..|claims| - 1]); }
  }

  lemma {:induction false} RecordIdsAreListed(codec: Codec, registry: Registry, claims: seq<Claim>)
    ensures RecordIds(codec, registry, SortBy(claims, ClaimKey)) <= ProjectionOf(codec, registry, claims).Ids()
  {
    hide CapabilitiesOf, EdgesOf, NodesOf, EntitiesOf;
    var sorted := SortBy(claims, ClaimKey);
    KeyedByOwnId(codec, registry, sorted);
    var edges, nodes, capabilities := EdgesOf(codec, registry, sorted), NodesOf(codec, registry, sorted), CapabilitiesOf(codec, registry, sorted);
    var p := ProjectionOf(codec, registry, claims);
    forall k | k in edges ensures k in p.Ids() { assert edges[k] in p.edges; }
    forall k | k in nodes ensures k in p.Ids() { assert nodes[k] in p.nodes; }
    forall x | x in capabilities ensures x.capabilityId in p.Ids() {
      assert x in multiset(capabilities);
      assert x in multiset(p.capabilities);
    }
  }

  lemma {:induction false} ProducedSomewhere(maps: seq<map<string, seq<string>>>, claimId: string, id: string)
    requires id in Produced(maps, claimId)
    ensures exists m :: m in maps && claimId in m && id in m[claimId]
  {
    var n := |maps| - 1;
    if !(claimId in maps[n] && id in Distinct(maps[n][claimId])) {
      ProducedSomewhere(maps[..n], claimId, id);
    }
  }

  /** Every identity stamped on a claim is one of the projection's records, or was reported for that
      claim by another projection merged with it. */
  lemma {:induction false} StampedIdsExist(
      codec: Codec, registry: Registry, claims: seq<Claim>, others: seq<map<string, seq<string>>>, merged: map<string, seq<string>>, x: Claim, id: string)
    requires IsMerged([ProjectionOf(codec, registry, claims).entities] + others, merged)
    requires x in ApplyProjection(claims, merged) && id in x.projectedIds
    ensures id in ProjectionOf(codec, registry, claims).Ids() || exists m :: m in others && x.claimId in m && id in m[x.claimId]
  {
    hide ProjectionOf, EntitiesOf, RecordIds, Produced, ApplyProjection, IsMerged;
    var p := ProjectionOf(codec, registry, claims);
    Stamp(claims, [p.entities] + others, merged, x, id);
    ProducedSomewhere([p.entities] + others, x.claimId, id);
    var m :| m in [p.entities] + others && x.claimId in m && id in m[x.claimId];
    if m !in others {
      RecordedIdExists(codec, registry, claims, x.claimId, id);
    }
  }

  lemma {:induction false} Stamp(claims: seq<Claim>, maps: seq<map<string, seq<string>>>, merged: map<string, seq<string>>, x: Claim, id: string)
    requires IsMerged(maps, merged) && x in ApplyProjection(claims, merged) && id in x.projectedIds
    ensures id in Produced(maps, x.claimId)
  {
    hide Produced;
  }

  lemma {:induction false} RecordedIdExists(codec: Codec, registry: Registry, claims: seq<Claim>, claimId: string, id: string)
    requires var entities := ProjectionOf(codec, registry, claims).entities; claimId in entities && id in entities[claimId]
    ensures id in ProjectionOf(codec, registry, claims).Ids()
  {
    hide EntitiesOf, CapabilitiesOf, EdgesOf, NodesOf, RecordIds;
    EntitiesExist(codec, registry, SortBy(claims, ClaimKey), claimId);
    RecordIdsAreListed(codec, registry, claims);
    assert id in Distinct(ProjectionOf(codec, registry, claims).entities[claimId]);
  }

  ghost predicate Projects(codec: Codec, registry: Registry, claims: seq<Claim>, id: string) {
    exists x :: x in claims && x.claimId == id && Project(codec, registry, x).Some?
  }

  lemma {:induction false} ProjectsGrows(codec: Codec, registry: Registry, claims: seq<Claim>, id: string)
    requires claims != []
    ensures var n := |claims| - 1; Projects(codec, registry, claims, id) <==>
      Projects(codec, registry, claims[..n], id) || (claims[n].claimId == id && Project(codec, registry, claims[n]).Some?)
  {
    hide Project;
    var n := |claims| - 1;
    assert claims == claims[..n] + [claims[n]];
  }

  lemma {:induction false} EntitiesOfProjected(codec: Codec, registry: Registry, claims: seq<Claim>, id: string)
    ensures id in EntitiesOf(codec, registry, claims) <==> Projects(codec, registry, claims, id)
  {
    hide Project, Projects;
    if claims != [] {
      var n := |claims| - 1;
      EntitiesOfProjected(codec, registry, claims[..n], id);
      ProjectsGrows(codec, registry, claims, id);
      ProjectsSomething(codec, registry, claims[n]);
    } else {
      NothingProjects(codec, registry, id);
    }
  }

  lemma {:induction false} NothingProjects(codec: Codec, registry: Registry, id: string)
    ensures !Projects(codec, registry, [], id)
  {
  }

  lemma {:induction false} ProjectsSomething(codec: Codec, registry: Registry, claim: Claim)
    ensures Project(codec, registry, claim).Some? ==> Project(codec, registry, claim).value.Ids() != {}
  {
  }

  /** A claim of a reconciled list is stamped exactly when it may project and has a projector. */
  lemma {:induction false} StampedExactlyWhenProjected(codec: Codec, registry: Registry, claims: seq<Claim>, i: nat)
    requires i < |claims| && forall j, k :: 0 <= j < k < |claims| ==> claims[j].claimId != claims[k].claimId
    ensures ApplyProjection(claims, ProjectionOf(codec, registry, claims).entities)[i].projected <==>
      ProjectorOf(claims[i].predicat).Some? && Ineligibility(registry, claims[i]).None?
  {
    hide EntitiesOf, CapabilitiesOf, EdgesOf, NodesOf, Ineligibility, ProjectorOf, ApplyProjector;
    var sorted := SortBy(claims, ClaimKey);
    EntitiesOfProjected(codec, registry, sorted, claims[i].claimId);
    assert claims[i] in claims;
    forall x ensures x in sorted <==> x in claims { SameMembers(sorted, claims, x); }
  }

  // ---- Every edge has an uncontested origin ----

  /** The edge is what this claim projects. */
  ghost predicate ProjectedFrom(codec: Codec, registry: Registry, claim: Claim, e: Edge) {
    var p := Project(codec, registry, claim);
    p.Some? && p.value.edge == Some(e)
  }

  lemma {:induction false} EdgesHaveOrigins(codec: Codec, registry: Registry, claims: seq<Claim>, e: Edge)
    requires e in EdgesOf(codec, registry, claims).Values
    ensures exists x :: x in claims && ProjectedFrom(codec, registry, x, e)
  {
    hide Project;
    var n := |claims| - 1;
    if !ProjectedFrom(codec, registry, claims[n], e) {
      assert e in EdgesOf(codec, registry, claims[..n]).Values;
      EdgesHaveOrigins(codec, registry, claims[..n], e);
      var x :| x in claims[..n] && ProjectedFrom(codec, registry, x, e);
      assert x in claims;
    }
  }

  /** A projected edge comes from a claim of the list that may project. */
  lemma {:induction false} ProjectedEdgeHasOrigin(codec: Codec, registry: Registry, claims: seq<Claim>, e: Edge)
    requires e in ProjectionOf(codec, registry, claims).edges
    ensures exists x :: x in claims && ProjectedFrom(codec, registry, x, e) && Ineligibility(registry, x).None?
  {
    hide *;
    var sorted := SortBy(claims, ClaimKey);
    EdgeIsTabled(codec, registry, claims, e);
    EdgesHaveOrigins(codec, registry, sorted, e);
    var x :| x in sorted && ProjectedFrom(codec, registry, x, e);
    SameMembers(sorted, claims, x);
    OnlyEligibleProject(codec, registry, x, e);
  }

  lemma {:induction false} EdgeIsTabled(codec: Codec, registry: Registry, claims: seq<Claim>, e: Edge)
    requires e in ProjectionOf(codec, registry, claims).edges
    ensures e in EdgesOf(codec, registry, SortBy(claims, ClaimKey)).Values
  {
    hide EntitiesOf, CapabilitiesOf, EdgesOf, NodesOf;
    var edges := EdgesOf(codec, registry, SortBy(claims, ClaimKey));
    var k :| k in edges && edges[k] == e;
  }

  lemma {:induction false} OnlyEligibleProject(codec: Codec, registry: Registry, x: Claim, e: Edge)
    requires ProjectedFrom(codec, registry, x, e)
    ensures Ineligibility(registry, x).None?
  {
    hide Ineligibility, ProjectorOf, ApplyProjector;
  }

  lemma {:induction false} EligibleIsUncontested(c: Compiler, s: set<Statement>, x: Claim)
    requires x in Claims(c, s) && Ineligibility(c.registry, x).None?
    ensures Uncontested(c, s, x)
  {
    hide Claims, Objects, ClaimFor;
    ClaimAnswersItsQuestion(c, s, x);
    ConfirmedExactlyWhenContested(c, s, x);
    var objects := Objects(s, (x.subject, x.predicat));
    if |objects| < 2 { OnlyMember(objects, x.object_); }
  }

  lemma {:induction false} OnlyMember(s: set<string>, x: string)
    requires x in s && |s| < 2
    ensures s == {x}
  {
    assert |s - {x}| == |s| - 1;
    assert s - {x} == {};
  }

  /** From statements to relations: an edge projected from reconciled claims comes from a claim whose
      question, if it takes one value, no statement at all answers differently. */
  lemma {:induction false} ProjectedEdgeIsUncontested(c: Compiler, s: set<Statement>, e: Edge)
    requires e in ProjectionOf(c.codec, c.registry, Claims(c, s)).edges
    ensures exists x :: x in Claims(c, s) && ProjectedFrom(c.codec, c.registry, x, e) && Uncontested(c, s, x)
  {
    hide Claims, ProjectionOf, Ineligibility, Project;
    ProjectedEdgeHasOrigin(c.codec, c.registry, Claims(c, s), e);
    var x :| x in Claims(c, s) && ProjectedFrom(c.codec, c.registry, x, e) && Ineligibility(c.registry, x).None?;
    EligibleIsUncontested(c, s, x);
  }

  ghost predicate Uncontested(c: Compiler, s: set<Statement>, x: Claim) {
    && x.conflictStatus == NoConflict && x.conflictIds == []
    && (c.registry.SupportOf(x.predicat) == SingleValued ==> Objects(s, (x.subject, x.predicat)) == {x.object_})
  }

  lemma {:induction false} SupersedesComesFromReplacedBy(codec: Codec, registry: Registry, x: Claim, e: Edge)
    requires ProjectedFrom(codec, registry, x, e) && e.edgeType == Supersedes
    ensures x.predicat == "repository.replaced_by" && x.subject == e.target
  {
    hide Ineligibility, EdgeId, Words, TypeName, ReferenceNode;
  }

  /** A subject is superseded by at most one projected edge. */
  lemma {:induction false} AtMostOneSuccessor(c: Compiler, s: set<Statement>, e: Edge, f: Edge)
    requires c.registry.SupportOf("repository.replaced_by") == SingleValued
    requires e in ProjectionOf(c.codec, c.registry, Claims(c, s)).edges && f in ProjectionOf(c.codec, c.registry, Claims(c, s)).edges
    requires e.edgeType == Supersedes && f.edgeType == Supersedes && e.target == f.target
    ensures e == f
  {
    hide Claims, ProjectionOf, Project, Objects, ClaimFor;
    ProjectedEdgeIsUncontested(c, s, e);
    ProjectedEdgeIsUncontested(c, s, f);
    var x :| x in Claims(c, s) && ProjectedFrom(c.codec, c.registry, x, e) && Uncontested(c, s, x);
    var y :| y in Claims(c, s) && ProjectedFrom(c.codec, c.registry, y, f) && Uncontested(c, s, y);
    SupersedesComesFromReplacedBy(c.codec, c.registry, x, e);
    SupersedesComesFromReplacedBy(c.codec, c.registry, y, f);
    ClaimAnswersItsQuestion(c, s, x);
    ClaimAnswersItsQuestion(c, s, y);
    assert x.object_ in {y.object_};
  }
}
