/** Which relations their own evidence proves (publication/qualification.py). */
module Qualification {
  import opened Wrappers
  import opened Ordering
  import opened Texts
  import opened CanonicalHash
  import opened Identities
  import opened Domain
  import opened Reconciliation
  import opened ClaimProjection
  import opened Duplicates

  datatype Origin =
    | FromWork | FromClaim | FromDuplicate | FromScope | FromProducer | FromUpstream | FromOwner | FromCapability | FromArtifactCapability
    | FromContainment | FromClassification | Unrecognized

  datatype Reason =
    | TypeUnrecognized | OriginUnsupported | EvidenceMissing | ClassificationOnly | ClaimNotProjectable | EndpointUnresolved | EndpointMismatch
    | WorkTargetUnresolved

  datatype Verdict = Qualified(basis: string) | Unqualified(reason: Reason)

  datatype Index = Index(
    evidence: map<string, Evidence>, claims: map<string, Claim>, repositories: map<string, Repository>, artifacts: map<string, Artifact>,
    capabilities: map<string, Capability>, scopes: set<string>, registry: Registry)

  const TARGET_RESOLUTION: string := "target_resolution"
  const ENDPOINT_KIND: string := "endpoint_kind"
  const FROM_CLAIM: string := "projected_from_claim_id"
  const DIRECT_CLASSES: set<string> := {"observed", "declared", "validated", "committed"}

  /** `ADMISSIBLE_ORIGINS`. */
  function Admissible(t: EdgeType): set<Origin> {
    match t
    case Contains => {FromContainment, FromScope, FromProducer}
    case DependsOn => {FromWork, FromClaim, FromUpstream, FromProducer}
    case BlockedBy => {FromWork, FromProducer}
    case References => {FromWork, FromProducer}
    case Supersedes => {FromWork, FromClaim, FromProducer}
    case GovernedBy => {FromClaim, FromProducer}
    case Implements => {FromCapability, FromArtifactCapability, FromProducer}
    case Exposes => {FromCapability, FromProducer}
    case OwnedBy => {FromOwner, FromProducer}
    case DuplicateOf => {FromDuplicate}
    case _ => {FromProducer}
  }

  function ClaimEndpoint(t: EdgeType): Option<string> {
    match t
    case DependsOn => Some("external-package-reference")
    case GovernedBy => Some("declared-contract-reference")
    case Supersedes => Some("declared-repository-reference")
    case _ => None
  }

  predicate Promoted(t: EdgeType) { t == GovernedBy || t == DocumentedBy || t == ValidatedBy }

  /** The evidence field a producer declares this relation under. */
  function RelationField(t: EdgeType): string { Lower(TypeName(t)) }

  /** The evidence the edge cites that is known. */
  function Resolved(e: Edge, index: Index): set<Evidence> {
    set ref | ref in e.evidenceRefs && ref in index.evidence :: index.evidence[ref]
  }

  /** Direct evidence that names this relation about one of the edge's endpoints. */
  function Declaring(e: Edge, index: Index): set<Evidence> {
    set x | x in Resolved(e, index) && x.field == Some(RelationField(e.edgeType)) && x.class_ in DIRECT_CLASSES
            && (x.subject == e.source || x.subject == e.target)
  }

  function RecordedOrigin(e: Edge, index: Index): Option<Origin> {
    if TARGET_RESOLUTION in e.properties then Some(FromWork)
    else if FROM_CLAIM in e.properties && ENDPOINT_KIND in e.properties then Some(FromClaim)
    else if e.edgeType == DuplicateOf && "method" in e.properties then Some(FromDuplicate)
    else if e.edgeType == Contains && e.source in index.scopes then Some(FromScope)
    else if Declaring(e, index) != {} then Some(FromProducer)
    else None
  }

  function RepositoryOrigin(e: Edge, index: Index): Option<Origin> {
    if e.source !in index.repositories then None
    else
      var repository := index.repositories[e.source];
      var owned := e.target in index.artifacts && index.artifacts[e.target].repositoryId == repository.repositoryId;
      if owned && e.edgeType == Contains then Some(FromContainment)
      else if owned && Promoted(e.edgeType) then Some(FromClassification)
      else if e.edgeType == DependsOn && e.target in repository.upstream then Some(FromUpstream)
      else if e.edgeType == OwnedBy && e.target in repository.owners then Some(FromOwner)
      else None
  }

  function CapabilityOrigin(e: Edge, index: Index): Option<Origin> {
    if e.target !in index.capabilities then None
    else
      var capability := index.capabilities[e.target];
      if e.edgeType == Implements && e.source in capability.implementedBy then Some(FromCapability)
      else if e.edgeType == Exposes && e.source in capability.exposedBy then Some(FromCapability)
      else if e.edgeType == Implements && e.source in index.artifacts && e.target in index.artifacts[e.source].capabilities then Some(FromArtifactCapability)
      else None
  }

  /** `relation_origin`. */
  function OriginOf(e: Edge, index: Index): Origin {
    var recorded := RecordedOrigin(e, index);
    if recorded.Some? then recorded.value
    else if e.properties != map[] then Unrecognized
    else
      var repository := RepositoryOrigin(e, index);
      if repository.Some? then repository.value
      else
        var capability := CapabilityOrigin(e, index);
        if capability.Some? then capability.value else Unrecognized
  }

  // ---- Rules ----

  function Digits(n: nat): string {
    if n < 10 then [('0' as int + n) as char] else Digits(n / 10) + [('0' as int + n % 10) as char]
  }

  /** `str(properties.get(key))`. */
  function Printed(properties: map<string, Property>, key: string): string {
    if key !in properties then "None"
    else
      match properties[key]
      case Word(w) => w
      case Count(n) => Digits(n)
      case Flag(on) => if on then "True" else "False"
  }

  /** Why the claim an edge was projected from cannot support it. */
  function ClaimGate(e: Edge, index: Index): Option<Reason> {
    var id := Printed(e.properties, FROM_CLAIM);
    if id !in index.claims then Some(EvidenceMissing)
    else if Ineligibility(index.registry, index.claims[id]).Some? then Some(ClaimNotProjectable)
    else None
  }

  function WorkRule(e: Edge, index: Index): Verdict {
    var blocked := ClaimGate(e, index);
    if blocked.Some? then Unqualified(blocked.value)
    else if !(TARGET_RESOLUTION in e.properties && e.properties[TARGET_RESOLUTION] == Word("exact-artifact")) then Unqualified(WorkTargetUnresolved)
    else Qualified("exact-artifact-resolution")
  }

  /** The endpoint kind the edge records is the one expected; both may be absent. */
  predicate EndpointAgrees(e: Edge) {
    match ClaimEndpoint(e.edgeType)
    case Some(kind) => ENDPOINT_KIND in e.properties && e.properties[ENDPOINT_KIND] == Word(kind)
    case None => ENDPOINT_KIND !in e.properties
  }

  function ClaimRule(e: Edge, index: Index): Verdict {
    var blocked := ClaimGate(e, index);
    if !EndpointAgrees(e) then Unqualified(EndpointMismatch)
    else if blocked.Some? then Unqualified(blocked.value)
    else Qualified("projection-eligible-claim")
  }

  /** The property, when it is present and neither zero, false nor empty. */
  predicate Truthy(properties: map<string, Property>, key: string) {
    key in properties && properties[key] != Word("") && properties[key] != Count(0) && properties[key] != Flag(false)
  }

  predicate Carries(id: string, hash: Property, index: Index) {
    id in index.artifacts && hash == Word(index.artifacts[id].contentHash)
  }

  function DuplicateRule(e: Edge, index: Index): Verdict {
    if !("method" in e.properties && e.properties["method"] == Word(EXACT_METHOD)) || !Truthy(e.properties, "content_hash") then Unqualified(EvidenceMissing)
    else
      var hash := e.properties["content_hash"];
      if !Carries(e.source, hash, index) || !Carries(e.target, hash, index) then Unqualified(EvidenceMissing)
      else Qualified("content-hash-equality")
  }

  function UpstreamRule(e: Edge, index: Index): Verdict {
    if e.target !in index.repositories then Unqualified(EndpointUnresolved) else Qualified("observed-repository-target")
  }

  function RuleOf(origin: Origin, e: Edge, index: Index): Verdict
    requires origin != FromClassification && origin != Unrecognized
  {
    match origin
    case FromWork => WorkRule(e, index)
    case FromClaim => ClaimRule(e, index)
    case FromDuplicate => DuplicateRule(e, index)
    case FromUpstream => UpstreamRule(e, index)
    case FromProducer => Qualified("relation-field-evidence")
    case FromContainment => Qualified("inventory")
    case FromScope => Qualified("inventory")
    case _ => Qualified("record-membership")
  }

  /** `_admission`. */
  function Admission(e: Edge, origin: Origin, index: Index): Option<Reason> {
    if origin == FromClassification then Some(ClassificationOnly)
    else if origin !in Admissible(e.edgeType) then Some(OriginUnsupported)
    else if Resolved(e, index) == {} then Some(EvidenceMissing)
    else None
  }

  lemma {:induction false} OnlyKnownOrigins(t: EdgeType)
    ensures Unrecognized !in Admissible(t) && FromClassification !in Admissible(t)
  {
  }

  /** `qualify_relation`. */
  function Qualify(e: Edge, index: Index): Verdict {
    var origin := OriginOf(e, index);
    var refused := Admission(e, origin, index);
    if refused.Some? then Unqualified(refused.value)
    else
      OnlyKnownOrigins(e.edgeType);
      RuleOf(origin, e, index)
  }

  // ---- What qualification proves ----

  ghost predicate IsQualified(e: Edge, index: Index) { Qualify(e, index).Qualified? }

  /** A qualified edge cites known evidence, and its producer is one its family admits. */
  lemma {:induction false} QualifiedIsGrounded(e: Edge, index: Index)
    requires IsQualified(e, index)
    ensures OriginOf(e, index) in Admissible(e.edgeType) && exists ref :: ref in e.evidenceRefs && ref in index.evidence
  {
    hide OriginOf, RuleOf, Admissible, Resolved;
    ResolvedRef(e, index);
    assert Admission(e, OriginOf(e, index), index).None?;
  }

  lemma {:induction false} ResolvedRef(e: Edge, index: Index)
    ensures Resolved(e, index) != {} <==> exists ref :: ref in e.evidenceRefs && ref in index.evidence
  {
    if ref :| ref in e.evidenceRefs && ref in index.evidence { assert index.evidence[ref] in Resolved(e, index); }
  }

  /** An edge qualified as projected from a claim names a claim that may project. */
  lemma {:induction false} QualifiedClaimMayProject(e: Edge, index: Index)
    requires IsQualified(e, index) && (OriginOf(e, index) == FromClaim || OriginOf(e, index) == FromWork)
    ensures var id := Printed(e.properties, FROM_CLAIM);
      id in index.claims && Ineligibility(index.registry, index.claims[id]).None?
  {
    hide OriginOf, Admissible, Resolved, Ineligibility, Printed;
    QualifiedIsGrounded(e, index);
  }

  /** The claims of the index are reconciled ones, however they were stamped. */
  ghost predicate Indexes(index: Index, c: Compiler, s: set<Statement>) {
    && index.registry == c.registry
    && (forall id :: id in index.claims ==> exists x :: x in Claims(c, s) && SameButStamp(index.claims[id], x) && x.claimId == id)
  }

  ghost predicate SameButStamp(y: Claim, x: Claim) {
    y == x.(projected := y.projected, projectedIds := y.projectedIds)
  }

  /** From statements to publication: a qualified edge projected from a claim names a claim whose
      question, if it takes one value, no statement at all answers differently. */
  lemma {:induction false} QualifiedClaimIsUncontested(e: Edge, index: Index, c: Compiler, s: set<Statement>)
    requires IsQualified(e, index) && (OriginOf(e, index) == FromClaim || OriginOf(e, index) == FromWork) && Indexes(index, c, s)
    ensures exists x :: x in Claims(c, s) && x.claimId == Printed(e.properties, FROM_CLAIM) && Uncontested(c, s, x)
  {
    hide Claims, Uncontested, OriginOf, Qualify, Printed;
    QualifiedClaimMayProject(e, index);
    var id := Printed(e.properties, FROM_CLAIM);
    var x :| x in Claims(c, s) && SameButStamp(index.claims[id], x) && x.claimId == id;
    EligibleIsUncontested(c, s, x);
  }

  /** A qualified duplicate joins two known artifacts that carry one content hash. */
  lemma {:induction false} QualifiedDuplicateIsEqual(e: Edge, index: Index)
    requires IsQualified(e, index) && e.edgeType == DuplicateOf
    ensures e.source in index.artifacts && e.target in index.artifacts
    ensures index.artifacts[e.source].contentHash == index.artifacts[e.target].contentHash
  {
    hide OriginOf, Resolved;
    QualifiedIsGrounded(e, index);
  }

  ghost predicate LinkedByDuplicate(edges: seq<Edge>, index: Index, x: string, y: string) {
    exists e :: e in edges && e.edgeType == DuplicateOf && IsQualified(e, index) && {e.source, e.target} == {x, y}
  }

  ghost predicate DuplicatePath(edges: seq<Edge>, index: Index, p: seq<string>) {
    forall i :: 0 <= i < |p| - 1 ==> LinkedByDuplicate(edges, index, p[i], p[i + 1])
  }

  lemma {:induction false} LinkedAreEqual(edges: seq<Edge>, index: Index, x: string, y: string)
    requires LinkedByDuplicate(edges, index, x, y)
    ensures x in index.artifacts && y in index.artifacts && index.artifacts[x].contentHash == index.artifacts[y].contentHash
  {
    hide IsQualified;
    var e :| e in edges && e.edgeType == DuplicateOf && IsQualified(e, index) && {e.source, e.target} == {x, y};
    QualifiedDuplicateIsEqual(e, index);
    assert x in {e.source, e.target} && y in {e.source, e.target};
  }

  /** Artifacts joined by any path of qualified duplicates carry one content hash, whatever was claimed. */
  lemma {:induction false} DuplicatePathsAreEqual(edges: seq<Edge>, index: Index, p: seq<string>)
    requires |p| >= 2 && DuplicatePath(edges, index, p)
    ensures p[0] in index.artifacts && p[|p| - 1] in index.artifacts
    ensures index.artifacts[p[0]].contentHash == index.artifacts[p[|p| - 1]].contentHash
    decreases |p|
  {
    hide LinkedByDuplicate;
    var n := |p| - 1;
    assert LinkedByDuplicate(edges, index, p[n - 1], p[n - 1 + 1]);
    LinkedAreEqual(edges, index, p[n - 1], p[n]);
    if n > 1 {
      var q := p[..n];
      assert forall i :: 0 <= i < |q| ==> q[i] == p[i];
      DuplicatePathsAreEqual(edges, index, q);
    }
  }

  // ---- The compiler's own edges ----

  /** A compiled star edge qualifies exactly when its evidence resolves and both its ends carry, as
      observed, the nonempty hash the cluster claimed. */
  lemma {:induction false} StarQualifiesExactlyWhenObserved(
      codec: Codec, relations: seq<Relation>, cited: map<string, seq<string>>, e: Edge, index: Index)
    requires e in DuplicateEdges(codec, relations, cited)
    ensures exists id :: JoinsMembers(relations, id, e) && (
      IsQualified(e, index) <==>
        (exists ref :: ref in e.evidenceRefs && ref in index.evidence) && HashOf(relations, id) != ""
        && Carries(e.source, Word(HashOf(relations, id)), index) && Carries(e.target, Word(HashOf(relations, id)), index))
  {
    hide JoinsMembers, DuplicateEdges, HashOf;
    EdgesAreProper(codec, relations, cited, e);
    var id :| JoinsMembers(relations, id, e);
    StarRecords(codec, relations, cited, e);
    StarVerdict(e, index, relations, id);
  }

  ghost predicate RecordsStar(e: Edge) {
    "method" in e.properties && e.properties["method"] == Word(EXACT_METHOD) && TARGET_RESOLUTION !in e.properties && FROM_CLAIM !in e.properties
  }

  lemma {:induction false} StarRecords(codec: Codec, relations: seq<Relation>, cited: map<string, seq<string>>, e: Edge)
    requires e in DuplicateEdges(codec, relations, cited)
    ensures RecordsStar(e)
  {
    hide DuplicateEdges, ClustersOf, DuplicateEdgeId;
    EdgeOrigin(codec, relations, cited, e);
  }

  lemma {:induction false} StarVerdict(e: Edge, index: Index, relations: seq<Relation>, id: string)
    requires RecordsStar(e) && JoinsMembers(relations, id, e)
    ensures IsQualified(e, index) <==>
      (exists ref :: ref in e.evidenceRefs && ref in index.evidence) && HashOf(relations, id) != ""
      && Carries(e.source, Word(HashOf(relations, id)), index) && Carries(e.target, Word(HashOf(relations, id)), index)
  {
    hide HashOf, Declaring, RepositoryOrigin, CapabilityOrigin, MembersOf, ClusterIds, Admissible;
    assert OriginOf(e, index) == FromDuplicate;
    AdmitsDuplicates(e.edgeType);
    if exists ref :: ref in e.evidenceRefs && ref in index.evidence {
      var ref :| ref in e.evidenceRefs && ref in index.evidence;
      assert index.evidence[ref] in Resolved(e, index);
    }
  }

  lemma {:induction false} AdmitsDuplicates(t: EdgeType)
    requires t == DuplicateOf
    ensures Admissible(t) == {FromDuplicate}
  {
  }

  /** Every edge projected from a claim of the index qualifies once its evidence resolves: what the
      projector emits, the judge admits. */
  lemma {:induction false} ProjectedEdgeQualifies(codec: Codec, claim: Claim, e: Edge, index: Index)
    requires ProjectedFrom(codec, index.registry, claim, e)
    requires claim.claimId in index.claims && Ineligibility(index.registry, index.claims[claim.claimId]).None?
    requires exists ref :: ref in e.evidenceRefs && ref in index.evidence
    ensures Qualify(e, index) == Qualified("projection-eligible-claim") && OriginOf(e, index) == FromClaim
  {
    hide Ineligibility, Qualify, OriginOf;
    ProjectedRecords(codec, index.registry, claim, e);
    ClaimVerdict(claim, e, index);
  }

  ghost predicate RecordsClaim(e: Edge, claim: Claim) {
    && TARGET_RESOLUTION !in e.properties && FROM_CLAIM in e.properties && e.properties[FROM_CLAIM] == Word(claim.claimId)
    && ENDPOINT_KIND in e.properties && e.edgeType in {DependsOn, GovernedBy, Supersedes}
    && e.properties[ENDPOINT_KIND] == Word(ClaimEndpoint(e.edgeType).value)
  }

  lemma {:induction false} ProjectedRecords(codec: Codec, registry: Registry, claim: Claim, e: Edge)
    requires ProjectedFrom(codec, registry, claim, e)
    ensures RecordsClaim(e, claim)
  {
    hide Ineligibility, ApplyProjector;
    match ProjectorOf(claim.predicat).value
    case Dependency => DependencyRecords(codec, claim);
    case CanonicalContract => ContractRecords(codec, claim);
    case ReplacedBy => ReplacedRecords(codec, claim);
    case HttpRoute => RouteHasNoEdge(codec, claim);
    case ServiceAction => RouteHasNoEdge(codec, claim);
  }

  lemma {:induction false} DependencyRecords(codec: Codec, claim: Claim)
    ensures var p := ApplyProjector(codec, Dependency, claim); p.edge.Some? && RecordsClaim(p.edge.value, claim)
  {
    hide EdgeId, ReferenceNode, Words;
    DependencyKeysAreGood();
    FiveWords(DEPENDENCY_KEYS, [claim.claimId, claim.predicat, claim.object_, "external-package-reference", claim.object_]);
  }

  lemma {:induction false} ContractRecords(codec: Codec, claim: Claim)
    ensures var p := ApplyProjector(codec, CanonicalContract, claim); p.edge.Some? && RecordsClaim(p.edge.value, claim)
  {
    hide EdgeId, ReferenceNode, Words;
    ContractKeysAreGood();
    FiveWords(CONTRACT_KEYS, [claim.claimId, claim.predicat, claim.object_, "declared-contract-reference", claim.object_]);
  }

  lemma {:induction false} ReplacedRecords(codec: Codec, claim: Claim)
    ensures var p := ApplyProjector(codec, ReplacedBy, claim); p.edge.Some? && RecordsClaim(p.edge.value, claim)
  {
    hide EdgeId, ReferenceNode, Words;
    ReplacedKeysAreGood();
    FiveWords(REPLACED_KEYS, [claim.claimId, claim.predicat, claim.object_, "declared-repository-reference", claim.subject]);
  }

  lemma {:induction false} RouteHasNoEdge(codec: Codec, claim: Claim)
    ensures ApplyProjector(codec, HttpRoute, claim).edge.None? && ApplyProjector(codec, ServiceAction, claim).edge.None?
  {
  }

  lemma {:induction false} FiveWords(keys: seq<string>, values: seq<string>)
    requires |keys| == |values| == 5 && keys[0] == FROM_CLAIM && keys[3] == ENDPOINT_KIND && TARGET_RESOLUTION !in keys
    requires forall i, j :: 0 <= i < j < |keys| ==> keys[i] != keys[j]
    ensures var w := Words(keys, values);
      FROM_CLAIM in w && w[FROM_CLAIM] == Word(values[0]) && ENDPOINT_KIND in w && w[ENDPOINT_KIND] == Word(values[3]) && TARGET_RESOLUTION !in w
  {
    WordsAt(keys, values, 0);
    WordsAt(keys, values, 3);
  }

  lemma {:induction false} WordsAt(keys: seq<string>, values: seq<string>, i: nat)
    requires |keys| == |values| && i < |keys| && forall i, j :: 0 <= i < j < |keys| ==> keys[i] != keys[j]
    ensures keys[i] in Words(keys, values) && Words(keys, values)[keys[i]] == Word(values[i])
    ensures forall k :: k in Words(keys, values) ==> k in keys
  {
    if i > 0 { WordsAt(keys[1..], values[1..], i - 1); }
    WordsKeys(keys, values);
  }

  lemma {:induction false} WordsKeys(keys: seq<string>, values: seq<string>)
    requires |keys| == |values| && forall i, j :: 0 <= i < j < |keys| ==> keys[i] != keys[j]
    ensures forall k :: k in Words(keys, values) ==> k in keys
  {
    if keys != [] { WordsKeys(keys[1..], values[1..]); }
  }

  lemma {:induction false} ClaimVerdict(claim: Claim, e: Edge, index: Index)
    requires RecordsClaim(e, claim) && claim.claimId in index.claims && Ineligibility(index.registry, index.claims[claim.claimId]).None?
    requires exists ref :: ref in e.evidenceRefs && ref in index.evidence
    ensures Qualify(e, index) == Qualified("projection-eligible-claim") && OriginOf(e, index) == FromClaim
  {
    hide Ineligibility, Declaring, RepositoryOrigin, CapabilityOrigin;
    var ref :| ref in e.evidenceRefs && ref in index.evidence;
    assert index.evidence[ref] in Resolved(e, index);
    assert OriginOf(e, index) == FromClaim;
  }

  // ---- What an edge projected from a claim states ----

  /** What the edge says, read as a claim: subject, predicate and object. */
  function SaidBy(e: Edge): Option<(string, string, string)> {
    match e.edgeType
    case DependsOn => if "package:" <= e.target then Some((e.source, "package.dependency", e.target[8..])) else None
    case GovernedBy =>
      if "contract-reference:" <= e.target then Some((e.source, "authority.canonical_contract", e.target[19..])) else None
    case Supersedes =>
      if "repository-reference:" <= e.source then Some((e.target, "repository.replaced_by", e.source[21..])) else None
    case _ => None
  }

  function Content(x: Claim): (string, string, string) { (x.subject, x.predicat, x.object_) }

  /** These are the ends and the type of the edge the claim is projected to. */
  ghost predicate ProjectsTo(codec: Codec, registry: Registry, x: Claim, source: string, target: string, edgeType: EdgeType) {
    var p := Project(codec, registry, x);
    p.Some? && p.value.edge.Some? && p.value.edge.value.source == source && p.value.edge.value.target == target
    && p.value.edge.value.edgeType == edgeType
  }

  lemma {:induction false} ProjectorNames(predicat: string)
    ensures ProjectorOf(predicat) == Some(Dependency) <==> predicat == "package.dependency"
    ensures ProjectorOf(predicat) == Some(CanonicalContract) <==> predicat == "authority.canonical_contract"
    ensures ProjectorOf(predicat) == Some(ReplacedBy) <==> predicat == "repository.replaced_by"
  {
    assert "package.dependency"[0] == 'p' && "authority.canonical_contract"[0] == 'a' && "http.route"[0] == 'h';
    assert "repository.replaced_by"[0] == 'r' && "service.action"[0] == 's';
  }

  /** The ends and type of the edge each projector draws. */
  lemma {:induction false} DrawnEnds(codec: Codec, projector: Projector, x: Claim)
    ensures var p := ApplyProjector(codec, projector, x);
      match projector
      case Dependency =>
        p.edge.Some? && p.edge.value.edgeType == DependsOn && p.edge.value.source == x.subject && p.edge.value.target == "package:" + x.object_
      case CanonicalContract =>
        p.edge.Some? && p.edge.value.edgeType == GovernedBy && p.edge.value.source == x.subject
        && p.edge.value.target == "contract-reference:" + x.object_
      case ReplacedBy =>
        p.edge.Some? && p.edge.value.edgeType == Supersedes && p.edge.value.target == x.subject
        && p.edge.value.source == "repository-reference:" + x.object_
      case _ => p.edge.None?
  {
    hide EdgeId, IdOf, Words, ReferenceNode;
  }

  lemma {:induction false} Prefixed(prefix: string, name: string, id: string)
    ensures id == prefix + name <==> prefix <= id && id[|prefix|..] == name
  {
  }

  /** For a claim that may project, an edge says what the claim says exactly when its ends and type are those
      the claim is projected to. */
  lemma {:induction false} SaysExactlyWhenDrawn(codec: Codec, registry: Registry, x: Claim, e: Edge)
    requires Ineligibility(registry, x).None?
    ensures SaidBy(e) == Some(Content(x)) <==> ProjectsTo(codec, registry, x, e.source, e.target, e.edgeType)
  {
    hide Ineligibility, ProjectorOf, ApplyProjector;
    ProjectorNames(x.predicat);
    if ProjectorOf(x.predicat).Some? { DrawnEnds(codec, ProjectorOf(x.predicat).value, x); }
    Prefixed("package:", x.object_, e.target);
    Prefixed("contract-reference:", x.object_, e.target);
    Prefixed("repository-reference:", x.object_, e.source);
  }

  /** An edge qualified as projected from a claim says what that claim says exactly when its source, target
      and type are those the claim is projected to: nothing else makes sure that it does. */
  lemma {:induction false} QualifiedSaysItsClaimExactlyWhen(codec: Codec, e: Edge, index: Index)
    requires IsQualified(e, index) && OriginOf(e, index) == FromClaim
    ensures Printed(e.properties, FROM_CLAIM) in index.claims
    ensures var x := index.claims[Printed(e.properties, FROM_CLAIM)];
      SaidBy(e) == Some(Content(x)) <==> ProjectsTo(codec, index.registry, x, e.source, e.target, e.edgeType)
  {
    hide IsQualified, OriginOf, Ineligibility, SaidBy, ProjectsTo, Printed;
    QualifiedClaimMayProject(e, index);
    SaysExactlyWhenDrawn(codec, index.registry, index.claims[Printed(e.properties, FROM_CLAIM)], e);
  }

  /** What the projector draws says what its claim says. */
  lemma {:induction false} ProjectedEdgeSaysItsClaim(codec: Codec, registry: Registry, x: Claim, e: Edge)
    requires ProjectedFrom(codec, registry, x, e)
    ensures SaidBy(e) == Some(Content(x))
  {
    hide Ineligibility, ProjectorOf, ApplyProjector, SaidBy;
    SaysExactlyWhenDrawn(codec, registry, x, e);
  }

  /** The judge never compares the ends of an edge projected from a claim with anything. */
  lemma {:induction false} EndsAreNotCompared(e: Edge, index: Index, source: string, target: string)
    requires OriginOf(e, index) == FromClaim
    ensures var f := e.(source := source, target := target); OriginOf(f, index) == FromClaim && Qualify(f, index) == Qualify(e, index)
  {
    hide Admissible, Printed, Ineligibility, Declaring, RepositoryOrigin, CapabilityOrigin;
    var f := e.(source := source, target := target);
    OnlyRecordedFromClaim(e, index);
    assert Resolved(f, index) == Resolved(e, index);
  }

  lemma {:induction false} OnlyRecordedFromClaim(e: Edge, index: Index)
    requires OriginOf(e, index) == FromClaim
    ensures TARGET_RESOLUTION !in e.properties && FROM_CLAIM in e.properties && ENDPOINT_KIND in e.properties
  {
    hide Declaring;
  }

  /** A projected edge redrawn between any ends qualifies as before, and says what its claim says only when
      nothing was redrawn. */
  lemma {:induction false} RedrawnEdgeQualifies(codec: Codec, x: Claim, e: Edge, index: Index, source: string, target: string)
    requires ProjectedFrom(codec, index.registry, x, e)
    requires x.claimId in index.claims && SameButStamp(index.claims[x.claimId], x)
    requires exists ref :: ref in e.evidenceRefs && ref in index.evidence
    ensures var f := e.(source := source, target := target);
      && Qualify(f, index) == Qualified("projection-eligible-claim") && OriginOf(f, index) == FromClaim
      && Printed(f.properties, FROM_CLAIM) == x.claimId
      && (SaidBy(f) == Some(Content(index.claims[x.claimId])) <==> source == e.source && target == e.target)
  {
    hide Qualify, OriginOf, SaidBy, Project, Ineligibility;
    var f := e.(source := source, target := target);
    OnlyEligibleProject(codec, index.registry, x, e);
    StampKeepsEligible(index.registry, index.claims[x.claimId], x);
    ProjectedEdgeQualifies(codec, x, e, index);
    ProjectedRecords(codec, index.registry, x, e);
    EndsAreNotCompared(e, index, source, target);
    SaysExactlyWhenDrawn(codec, index.registry, x, f);
  }

  lemma {:induction false} StampKeepsEligible(registry: Registry, y: Claim, x: Claim)
    requires SameButStamp(y, x)
    ensures Ineligibility(registry, y) == Ineligibility(registry, x)
  {
  }

  /** A claim that one repository depends on a package, an index that knows it, and its edge drawn to another
      package: the edge qualifies, and says what the claim does not. */
  lemma {:induction false} MisdrawnEdgeQualifies(codec: Codec) returns (x: Claim, f: Edge, index: Index)
    ensures x.claimId in index.claims && index.claims[x.claimId] == x && Printed(f.properties, FROM_CLAIM) == x.claimId
    ensures Qualify(f, index) == Qualified("projection-eligible-claim")
    ensures Content(x) == ("repo:a", "package.dependency", "b") && SaidBy(f) == Some(("repo:a", "package.dependency", "c"))
  {
    x := DependsOnB();
    index := KnowingB();
    hide *;
    KnownB();
    var e := BProjects(codec);
    f := e.(source := "repo:a", target := "package:c");
    RedrawnEdgeQualifies(codec, x, e, index, "repo:a", "package:c");
    SaidOfC(f);
  }

  function DependsOnB(): Claim {
    Claim("claim:a", "repo:a", "package.dependency", "b", ["assertion:a"], ["evidence:a"],
          Confidence(Medium, Direct, Declared, Source, Sufficient, NoConflict), Source, Many, SetValued, NoConflict, [], false, [])
  }

  function KnowingB(): Index {
    Index(map["evidence:a" := Evidence("evidence:a", "repo:a", None, "stage", "declared", None, "packet:a")], map["claim:a" := DependsOnB()],
          map[], map[], map[], {}, Registry({"package.dependency"}, {}, {}, {}, map[], map[]))
  }

  lemma {:induction false} KnownB()
    ensures var x, index := DependsOnB(), KnowingB();
      && x.claimId in index.claims && index.claims[x.claimId] == x && SameButStamp(x, x) && "evidence:a" in index.evidence
      && Content(x) == ("repo:a", "package.dependency", "b")
  {
  }

  lemma {:induction false} BProjects(codec: Codec) returns (e: Edge)
    ensures ProjectedFrom(codec, KnowingB().registry, DependsOnB(), e) && e.edgeType == DependsOn
    ensures "evidence:a" in e.evidenceRefs
  {
    hide EdgeId, Words, ReferenceNode;
    ProjectorNames("package.dependency");
    DrawnEnds(codec, Dependency, DependsOnB());
    e := ApplyProjector(codec, Dependency, DependsOnB()).edge.value;
  }

  lemma {:induction false} SaidOfC(f: Edge)
    requires f.edgeType == DependsOn && f.source == "repo:a" && f.target == "package:c"
    ensures SaidBy(f) == Some(("repo:a", "package.dependency", "c"))
  {
    assert f.target == "package:" + "c";
  }
}
