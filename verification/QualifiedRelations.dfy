/** Exactly which edges are qualified, read off the edge and the records it names
    (publication/qualification.py). */
module QualifiedRelations {
  import opened Wrappers
  import opened Texts
  import opened Domain
  import opened ClaimProjection
  import opened Qualification

  /** Some evidence the edge cites is known. */
  ghost predicate Grounded(e: Edge, index: Index) {
    exists ref :: ref in e.evidenceRefs && ref in index.evidence
  }

  /** The claim the edge names is known and may project. */
  ghost predicate ClaimSupports(e: Edge, index: Index) {
    var id := Printed(e.properties, "projected_from_claim_id");
    id in index.claims && Ineligibility(index.registry, index.claims[id]).None?
  }

  ghost predicate FromWorkItem(e: Edge) { "target_resolution" in e.properties }

  ghost predicate FromProjection(e: Edge) {
    !FromWorkItem(e) && "projected_from_claim_id" in e.properties && "endpoint_kind" in e.properties
  }

  // ---- What proves each kind of edge ----

  /** The target of the work item is one artifact, and the claim behind the item may project. */
  ghost predicate WorkProves(e: Edge, index: Index)
    requires FromWorkItem(e)
  {
    && e.edgeType in {DependsOn, BlockedBy, References, Supersedes} && ClaimSupports(e, index)
    && e.properties["target_resolution"] == Word("exact-artifact")
  }

  /** The endpoint is of the kind claims of this type are projected to, and the claim may project. */
  ghost predicate ClaimProves(e: Edge, index: Index)
    requires FromProjection(e)
  {
    ClaimSupports(e, index) && KindAgrees(e)
  }

  ghost predicate KindAgrees(e: Edge)
    requires FromProjection(e)
  {
    match e.edgeType
    case DependsOn => e.properties["endpoint_kind"] == Word("external-package-reference")
    case GovernedBy => e.properties["endpoint_kind"] == Word("declared-contract-reference")
    case Supersedes => e.properties["endpoint_kind"] == Word("declared-repository-reference")
    case _ => false
  }

  /** Both ends are known artifacts with the one nonempty hash the edge records. */
  ghost predicate ContentProves(e: Edge, index: Index) {
    && "method" in e.properties && e.properties["method"] == Word("content-hash-equality/v1")
    && e.source in index.artifacts && e.target in index.artifacts && "content_hash" in e.properties
    && index.artifacts[e.source].contentHash == index.artifacts[e.target].contentHash != ""
    && e.properties["content_hash"] == Word(index.artifacts[e.source].contentHash)
  }

  /** First-hand evidence the edge cites names this very relation, about one of the two ends. */
  ghost predicate ProducerProves(e: Edge, index: Index) {
    exists ref :: ref in e.evidenceRefs && ref in index.evidence && Names(e, index.evidence[ref])
  }

  ghost predicate Names(e: Edge, x: Evidence) {
    && x.field == Some(Lower(TypeName(e.edgeType))) && (x.subject == e.source || x.subject == e.target)
    && (x.class_ == "observed" || x.class_ == "declared" || x.class_ == "validated" || x.class_ == "committed")
  }

  /** A record holds the relation as one of its own fields. */
  ghost predicate RecordProves(e: Edge, index: Index) {
    match e.edgeType
    case Contains => OwnArtifact(e, index)
    case DependsOn =>
      e.source in index.repositories && e.target in index.repositories[e.source].upstream && e.target in index.repositories
    case OwnedBy => e.source in index.repositories && e.target in index.repositories[e.source].owners
    case Exposes => e.target in index.capabilities && e.source in index.capabilities[e.target].exposedBy
    case Implements =>
      e.target in index.capabilities
      && (e.source in index.capabilities[e.target].implementedBy
          || (e.source in index.artifacts && e.target in index.artifacts[e.source].capabilities))
    case _ => false
  }

  ghost predicate OwnArtifact(e: Edge, index: Index) {
    && e.source in index.repositories && e.target in index.artifacts
    && index.artifacts[e.target].repositoryId == index.repositories[e.source].repositoryId
  }

  /** What is asked of an edge besides known evidence. */
  ghost predicate Proved(e: Edge, index: Index) {
    if FromWorkItem(e) then WorkProves(e, index)
    else if FromProjection(e) then ClaimProves(e, index)
    else if e.edgeType == DuplicateOf then ContentProves(e, index)
    else (e.edgeType == Contains && e.source in index.scopes) || ProducerProves(e, index) || (e.properties == map[] && RecordProves(e, index))
  }

  // ---- Exactly these qualify ----

  lemma {:induction false} WorkExactly(e: Edge, index: Index)
    requires FromWorkItem(e)
    ensures IsQualified(e, index) <==> Grounded(e, index) && WorkProves(e, index)
    ensures OriginOf(e, index) == FromWork
  {
    hide Resolved, Ineligibility, Printed;
    ResolvedRef(e, index);
  }

  lemma {:induction false} ClaimExactly(e: Edge, index: Index)
    requires FromProjection(e)
    ensures IsQualified(e, index) <==> Grounded(e, index) && ClaimProves(e, index)
    ensures OriginOf(e, index) == FromClaim
  {
    hide Resolved, Ineligibility, Printed;
    ResolvedRef(e, index);
  }

  lemma {:induction false} DuplicateExactly(e: Edge, index: Index)
    requires !FromWorkItem(e) && !FromProjection(e) && e.edgeType == DuplicateOf
    ensures IsQualified(e, index) <==> Grounded(e, index) && ContentProves(e, index)
  {
    hide Resolved, Declaring, RepositoryOrigin, CapabilityOrigin;
    ResolvedRef(e, index);
    NotADuplicate(e, index);
    if "method" in e.properties { assert OriginOf(e, index) == FromDuplicate; }
  }

  /** What is not recorded as a duplicate is never taken for one. */
  lemma {:induction false} NotADuplicate(e: Edge, index: Index)
    ensures OriginOf(e, index) == FromDuplicate <==>
      !FromWorkItem(e) && !FromProjection(e) && e.edgeType == DuplicateOf && "method" in e.properties
  {
    hide Declaring;
  }

  lemma {:induction false} DeclaringMeans(e: Edge, index: Index)
    ensures Declaring(e, index) != {} <==> ProducerProves(e, index)
  {
    if ref :| ref in e.evidenceRefs && ref in index.evidence && Names(e, index.evidence[ref]) {
      assert index.evidence[ref] in Declaring(e, index);
    }
    if x :| x in Declaring(e, index) {
      var ref :| ref in e.evidenceRefs && ref in index.evidence && index.evidence[ref] == x;
      assert Names(e, index.evidence[ref]);
    }
  }

  /** The judge falls back on the records only for an edge that carries nothing else. */
  lemma {:induction false} OtherExactly(e: Edge, index: Index)
    requires !FromWorkItem(e) && !FromProjection(e) && e.edgeType != DuplicateOf
    ensures IsQualified(e, index) <==>
      Grounded(e, index)
      && ((e.edgeType == Contains && e.source in index.scopes) || ProducerProves(e, index) || (e.properties == map[] && RecordProves(e, index)))
  {
    hide Resolved, Declaring, ProducerProves, RecordProves, RepositoryOrigin, CapabilityOrigin;
    ResolvedRef(e, index);
    DeclaringMeans(e, index);
    if RecordedOrigin(e, index).None? && e.properties == map[] { RecordsExactly(e, index); }
  }

  lemma {:induction false} RecordsExactly(e: Edge, index: Index)
    requires RecordedOrigin(e, index).None? && e.properties == map[] && e.edgeType != DuplicateOf
    ensures IsQualified(e, index) <==> Grounded(e, index) && RecordProves(e, index)
  {
    hide Resolved, Declaring, RecordedOrigin;
    ResolvedRef(e, index);
  }

  /** An edge is qualified exactly when evidence it cites is known and what its kind asks for is there. */
  lemma {:induction false} QualifiedExactlyWhen(e: Edge, index: Index)
    ensures IsQualified(e, index) <==> Grounded(e, index) && Proved(e, index)
  {
    hide IsQualified, Grounded, WorkProves, ClaimProves, ContentProves, ProducerProves, RecordProves, FromWorkItem, FromProjection;
    if FromWorkItem(e) { WorkExactly(e, index); }
    else if FromProjection(e) { ClaimExactly(e, index); }
    else if e.edgeType == DuplicateOf { DuplicateExactly(e, index); }
    else { OtherExactly(e, index); }
  }

  /** What a qualified edge is said to rest on: the first of these that it does. */
  ghost function RestsOn(e: Edge, index: Index): string {
    if FromWorkItem(e) then "exact-artifact-resolution"
    else if FromProjection(e) then "projection-eligible-claim"
    else if e.edgeType == DuplicateOf then "content-hash-equality"
    else if e.edgeType == Contains && e.source in index.scopes then "inventory"
    else if ProducerProves(e, index) then "relation-field-evidence"
    else if e.edgeType == Contains then "inventory"
    else if e.edgeType == DependsOn then "observed-repository-target"
    else "record-membership"
  }

  /** A qualified edge is said to rest on what it does rest on. */
  lemma {:induction false} BasisExactly(e: Edge, index: Index)
    requires IsQualified(e, index)
    ensures Qualify(e, index) == Qualified(RestsOn(e, index))
  {
    hide Resolved, Declaring, Ineligibility, Printed, ProducerProves, Truthy, Carries;
    DeclaringMeans(e, index);
    NotADuplicate(e, index);
  }

  /** A qualified edge that records how its target was resolved joins exactly one artifact. */
  lemma {:induction false} QualifiedTargetIsExact(e: Edge, index: Index)
    requires IsQualified(e, index) && "target_resolution" in e.properties
    ensures e.properties["target_resolution"] == Word("exact-artifact")
  {
    hide IsQualified, Grounded, ClaimSupports;
    WorkExactly(e, index);
  }

  /** An edge that only a repository's list of upstreams supports is qualified exactly when the upstream is an
      observed repository. */
  lemma {:induction false} UpstreamIsObserved(e: Edge, index: Index)
    requires OriginOf(e, index) == FromUpstream
    ensures IsQualified(e, index) <==> Grounded(e, index) && e.target in index.repositories
    ensures e.edgeType == DependsOn && e.source in index.repositories && e.target in index.repositories[e.source].upstream
  {
    hide Resolved, Declaring;
    ResolvedRef(e, index);
  }

  // ---- Why an edge is refused ----

  /** Each of these reasons is given exactly when everything asked before it holds and its own condition fails. */
  lemma {:induction false} RefusedExactlyWhen(e: Edge, index: Index)
    ensures Qualify(e, index) == Unqualified(WorkTargetUnresolved) <==>
      && FromWorkItem(e) && Grounded(e, index) && e.edgeType in {DependsOn, BlockedBy, References, Supersedes} && ClaimSupports(e, index)
      && e.properties["target_resolution"] != Word("exact-artifact")
    ensures Qualify(e, index) == Unqualified(ClassificationOnly) <==>
      && e.properties == map[] && e.edgeType in {GovernedBy, DocumentedBy, ValidatedBy} && OwnArtifact(e, index) && !ProducerProves(e, index)
    ensures Qualify(e, index) == Unqualified(EndpointUnresolved) <==>
      && e.properties == map[] && e.edgeType == DependsOn && Grounded(e, index) && !ProducerProves(e, index)
      && e.source in index.repositories && e.target in index.repositories[e.source].upstream && e.target !in index.repositories
  {
    hide Resolved, Declaring, ProducerProves, Ineligibility, Printed;
    ResolvedRef(e, index);
    DeclaringMeans(e, index);
  }

  /** The claim an edge was projected from is asked about once the recorded endpoint is of the right kind. */
  lemma {:induction false} RefusedOverItsClaimExactlyWhen(e: Edge, index: Index)
    ensures Qualify(e, index) == Unqualified(EndpointMismatch) <==>
      FromProjection(e) && Grounded(e, index) && e.edgeType in {DependsOn, GovernedBy, Supersedes} && !KindAgrees(e)
    ensures Qualify(e, index) == Unqualified(ClaimNotProjectable) <==>
      && Grounded(e, index) && Printed(e.properties, "projected_from_claim_id") in index.claims && !ClaimSupports(e, index)
      && if FromWorkItem(e) then e.edgeType in {DependsOn, BlockedBy, References, Supersedes} else FromProjection(e) && KindAgrees(e)
  {
    hide Resolved, OriginOf, Ineligibility, Printed, Truthy, Carries;
    ResolvedRef(e, index);
    OnlyFromRecords(e, index);
  }

  lemma {:induction false} OnlyFromRecords(e: Edge, index: Index)
    ensures OriginOf(e, index) == FromWork <==> FromWorkItem(e)
    ensures OriginOf(e, index) == FromClaim <==> FromProjection(e)
  {
    hide Declaring;
  }
}
