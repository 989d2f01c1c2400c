/** Exactly what the validator reports about a corpus packet (packets/corpus_validator.py). */
module CorpusFindings {
  import opened Wrappers
  import opened Ordering
  import opened CorpusValidator
  import Duplicates

  // ---- What the input packets carry ----

  ghost predicate Loaded(models: seq<Model>, id: string) { exists m :: m in models && m.packetId == id }

  ghost predicate Rooted(packet: Packet, id: string) { exists r :: r in packet.roots && r.packetId == id }

  ghost predicate IsLastOf(models: seq<Model>, id: string, i: nat) {
    i < |models| && models[i].packetId == id && forall j :: i < j < |models| ==> models[j].packetId != id
  }

  /** The artifact is one of an input packet's own. */
  ghost predicate Carries(models: seq<Model>, id: string) {
    exists m :: m in models && m.payload.Some? && id in m.payload.value.artifacts
  }

  /** The identity is that of an input repository, or of anything an input packet carries. */
  ghost predicate Identifies(models: seq<Model>, id: string) {
    exists m :: m in models && (m.repositoryId == id
      || (m.payload.Some? && (id in m.payload.value.artifacts || id in m.payload.value.repositories || id in m.payload.value.capabilities)))
  }

  ghost predicate Proposed(p: Payload, id: string) {
    exists c :: (c in p.topics || c in p.projects || c in p.consolidations) && c.candidateId == id
  }

  /** A pair relation, a duplicate relation or a duplicate cluster is called so. */
  ghost predicate Related(p: Payload, id: string) {
    || (exists x :: x in p.pairs && x.relationId == id)
    || (exists x :: x in p.duplicates && (x.relationId == id || x.clusterId == id))
  }

  // ---- When a finding is deserved ----

  /** The root names an input packet whose last copy this is not true of. */
  ghost predicate Misstates(packet: Packet, models: seq<Model>, root: string, says: (Root, Model) -> bool) {
    exists r, i: nat :: r in packet.roots && r.rootId == root && IsLastOf(models, r.packetId, i) && !says(r, models[i])
  }

  predicate SameHash(r: Root, m: Model) { r.semanticHash == m.semanticHash }

  predicate SameRevision(r: Root, m: Model) { r.revision.Some? ==> r.revision.value == m.revision }

  ghost predicate DeservedOfInputs(packet: Packet, models: seq<Model>, f: Finding) {
    match f
    case UnresolvedInput(id) => id in packet.inputs && !Loaded(models, id)
    case UndeclaredInput(id) => Loaded(models, id) && id !in packet.inputs
    case UnobservedInput(id) => id in packet.inputs && !Rooted(packet, id)
    case UnresolvedRoot(root) => exists r :: r in packet.roots && r.rootId == root && !Loaded(models, r.packetId)
    case RootHashDiffers(root) => Misstates(packet, models, root, SameHash)
    case RootRevisionDiffers(root) => Misstates(packet, models, root, SameRevision)
    case _ => false
  }

  ghost predicate DeservedOfObservations(p: Payload, models: seq<Model>, f: Finding) {
    match f
    case SignalArtifact(signal) => exists s :: s in p.signals && s.signalId == signal && !Carries(models, s.artifactId)
    case SignalSubject(signal) => exists s :: s in p.signals && s.signalId == signal && !Identifies(models, s.subjectId)
    case SignalLines(signal) =>
      exists s :: s in p.signals && s.signalId == signal && s.citesLines
                  && s.format != "text" && s.format != "markdown" && s.format != "csv" && s.format != "html" && s.format != "ipynb"
    case DuplicateEndpoint(relation, at) =>
      !Carries(models, at) && exists r :: r in p.duplicates && r.relationId == relation && (r.a == at || r.b == at)
    case ClusterHashes(cluster) =>
      exists r, s :: r in p.duplicates && s in p.duplicates && r.clusterId == cluster == s.clusterId && r.contentHash != s.contentHash
    case PairEndpoint(relation, at) =>
      !Carries(models, at) && exists r :: r in p.pairs && r.relationId == relation && (r.source == at || r.target == at)
    case _ => false
  }

  ghost predicate DeservedOfConclusions(packet: Packet, p: Payload, models: seq<Model>, f: Finding) {
    match f
    case UnknownMember(candidate, m) => !Carries(models, m) && exists c :: c in p.Proposals() && c.candidateId == candidate && m in c.members
    case UnknownSupport(candidate, x) => !Related(p, x) && exists c :: c in p.Proposals() && c.candidateId == candidate && x in c.supporting
    case UnknownSubject(readiness) =>
      exists r :: r in p.readiness && r.readinessId == readiness && !Proposed(p, r.subjectId) && !Identifies(models, r.subjectId)
    case UnknownCandidate(reasoning) => exists r :: r in p.reasoning && r.reasoningId == reasoning && !Proposed(p, r.candidateId)
    case UnknownReasoningMember(reasoning, m) =>
      !Carries(models, m) && exists r :: r in p.reasoning && r.reasoningId == reasoning && m in r.members
    case UnknownPack(reasoning) =>
      exists r :: r in p.reasoning && r.reasoningId == reasoning && r.pack.Some? && r.pack.value !in p.packs
    case RanAfterAll(domain) => packet.notRun.Some? && domain in packet.notRun.value && p.Populated(domain)
    case _ => false
  }

  // ---- Reading the tables ----

  lemma {:induction false} CarriesMeans(models: seq<Model>, id: string)
    ensures id in Artifacts(models) <==> Carries(models, id)
    ensures id in CorpusValidator.Identities(models) <==> Identifies(models, id)
  {
    if models != [] {
      var n := |models| - 1;
      CarriesMeans(models[..n], id);
      assert models == models[..n] + [models[n]];
    }
  }

  lemma {:induction false} ByIdMeans(models: seq<Model>, id: string)
    ensures id in ById(models) <==> Loaded(models, id)
    ensures id in ById(models) ==> exists i: nat :: IsLastOf(models, id, i) && ById(models)[id] == models[i]
  {
    if models != [] {
      var n := |models| - 1;
      ByIdMeans(models[..n], id);
      assert models == models[..n] + [models[n]];
      if models[n].packetId == id {
        assert IsLastOf(models, id, n);
      } else if id in ById(models[..n]) {
        var i: nat :| IsLastOf(models[..n], id, i) && ById(models[..n])[id] == models[..n][i];
        assert IsLastOf(models, id, i);
      }
    }
  }

  lemma {:induction false} OneLast(models: seq<Model>, id: string, i: nat, j: nat)
    requires IsLastOf(models, id, i) && IsLastOf(models, id, j)
    ensures i == j
  {
  }

  lemma {:induction false} RelatedMeans(p: Payload, id: string)
    ensures id in RelationIds(p) <==> Related(p, id)
    ensures id in CandidateIds(p) <==> Proposed(p, id)
  {
    assert forall c :: c in p.Proposals() <==> c in p.topics || c in p.projects || c in p.consolidations;
    if x :| x in p.duplicates && (x.relationId == id || x.clusterId == id) {
      assert x.relationId in (set y | y in p.duplicates :: y.relationId) && x.clusterId in (set y | y in p.duplicates :: y.clusterId);
    }
    if c :| (c in p.topics || c in p.projects || c in p.consolidations) && c.candidateId == id { assert c in p.Proposals(); }
  }

  // ---- The findings of each list ----

  lemma {:induction false} RootsMembers(models: map<string, Model>, xs: seq<Root>, f: Finding)
    ensures f in AllRootFindings(models, xs) <==> exists r :: r in xs && f in RootFindings(models, r)
  {
    hide RootFindings;
    if xs != [] {
      RootsMembers(models, xs[..|xs| - 1], f);
      assert xs == xs[..|xs| - 1] + [xs[|xs| - 1]];
    }
  }

  lemma {:induction false} SignalsMembers(identities: set<string>, artifacts: set<string>, xs: seq<Signal>, f: Finding)
    ensures f in AllSignalFindings(identities, artifacts, xs) <==> exists s :: s in xs && f in SignalFindings(identities, artifacts, s)
  {
    hide SignalFindings;
    if xs != [] {
      SignalsMembers(identities, artifacts, xs[..|xs| - 1], f);
      assert xs == xs[..|xs| - 1] + [xs[|xs| - 1]];
    }
  }

  lemma {:induction false} DuplicatesMembers(artifacts: set<string>, xs: seq<Duplicates.Relation>, f: Finding)
    ensures f in AllDuplicateFindings(artifacts, xs) <==> exists r :: r in xs && f in DuplicateFindings(artifacts, r)
  {
    hide DuplicateFindings;
    if xs != [] {
      DuplicatesMembers(artifacts, xs[..|xs| - 1], f);
      assert xs == xs[..|xs| - 1] + [xs[|xs| - 1]];
    }
  }

  lemma {:induction false} PairsMembers(artifacts: set<string>, xs: seq<Pair>, f: Finding)
    ensures f in AllPairFindings(artifacts, xs) <==> exists r :: r in xs && f in PairFindings(artifacts, r)
  {
    hide PairFindings;
    if xs != [] {
      PairsMembers(artifacts, xs[..|xs| - 1], f);
      assert xs == xs[..|xs| - 1] + [xs[|xs| - 1]];
    }
  }

  lemma {:induction false} ProposalsMembers(artifacts: set<string>, relations: set<string>, xs: seq<Proposal>, f: Finding)
    ensures f in AllProposalFindings(artifacts, relations, xs) <==> exists c :: c in xs && f in ProposalFindings(artifacts, relations, c)
  {
    hide ProposalFindings;
    if xs != [] {
      ProposalsMembers(artifacts, relations, xs[..|xs| - 1], f);
      assert xs == xs[..|xs| - 1] + [xs[|xs| - 1]];
    }
  }

  lemma {:induction false} ReadinessMembers(identities: set<string>, candidates: set<string>, xs: seq<Readiness>, f: Finding)
    ensures f in AllReadinessFindings(identities, candidates, xs) <==> exists r :: r in xs && f in ReadinessFindings(identities, candidates, r)
  {
    hide ReadinessFindings;
    if xs != [] {
      ReadinessMembers(identities, candidates, xs[..|xs| - 1], f);
      assert xs == xs[..|xs| - 1] + [xs[|xs| - 1]];
    }
  }

  lemma {:induction false} ReasoningMembers(
      candidates: set<string>, artifacts: set<string>, packs: set<string>, xs: seq<Reasoning>, f: Finding)
    ensures f in AllReasoningFindings(candidates, artifacts, packs, xs) <==>
      exists r :: r in xs && f in ReasoningFindings(candidates, artifacts, packs, r)
  {
    hide ReasoningFindings;
    if xs != [] {
      ReasoningMembers(candidates, artifacts, packs, xs[..|xs| - 1], f);
      assert xs == xs[..|xs| - 1] + [xs[|xs| - 1]];
    }
  }

  // ---- Each kind of finding ----

  lemma {:induction false} InputsExactly(packet: Packet, models: seq<Model>, f: Finding)
    ensures f in InputFindings(Distinct(packet.inputs), (set m | m in models :: m.packetId), (set r | r in packet.roots :: r.packetId)) <==>
      (f.UnresolvedInput? || f.UndeclaredInput? || f.UnobservedInput?) && DeservedOfInputs(packet, models, f)
  {
    match f
    case UnresolvedInput(id) => InputNamed(packet, models, id);
    case UndeclaredInput(id) => InputNamed(packet, models, id);
    case UnobservedInput(id) => InputNamed(packet, models, id);
    case _ =>
  }

  lemma {:induction false} InputNamed(packet: Packet, models: seq<Model>, id: string)
    ensures id in (set m | m in models :: m.packetId) <==> Loaded(models, id)
    ensures id in (set r | r in packet.roots :: r.packetId) <==> Rooted(packet, id)
    ensures id in Distinct(packet.inputs) <==> id in packet.inputs
  {
  }

  lemma {:induction false} RootFindingsMean(models: seq<Model>, r: Root, f: Finding)
    ensures f in RootFindings(ById(models), r) <==>
      || (f == UnresolvedRoot(r.rootId) && !Loaded(models, r.packetId))
      || (f == RootHashDiffers(r.rootId) && exists i: nat :: IsLastOf(models, r.packetId, i) && !SameHash(r, models[i]))
      || (f == RootRevisionDiffers(r.rootId) && exists i: nat :: IsLastOf(models, r.packetId, i) && !SameRevision(r, models[i]))
  {
    hide ById, Loaded, IsLastOf;
    ByIdMeans(models, r.packetId);
    LastIsLoaded(models, r.packetId);
    if r.packetId in ById(models) {
      var i: nat :| IsLastOf(models, r.packetId, i) && ById(models)[r.packetId] == models[i];
      forall j: nat | IsLastOf(models, r.packetId, j) ensures j == i { OneLast(models, r.packetId, i, j); }
    }
  }

  lemma {:induction false} LastIsLoaded(models: seq<Model>, id: string)
    ensures forall i: nat :: IsLastOf(models, id, i) ==> i < |models| && Loaded(models, id)
  {
  }

  lemma {:induction false} RootsExactly(packet: Packet, models: seq<Model>, f: Finding)
    ensures f in AllRootFindings(ById(models), packet.roots) <==>
      (f.UnresolvedRoot? || f.RootHashDiffers? || f.RootRevisionDiffers?) && DeservedOfInputs(packet, models, f)
  {
    hide RootFindings, ById, Loaded, IsLastOf, SameHash, SameRevision;
    RootsMembers(ById(models), packet.roots, f);
    LastIsThere(models);
    forall r ensures f in RootFindings(ById(models), r) <==>
        || (f == UnresolvedRoot(r.rootId) && !Loaded(models, r.packetId))
        || (f == RootHashDiffers(r.rootId) && exists i: nat :: IsLastOf(models, r.packetId, i) && !SameHash(r, models[i]))
        || (f == RootRevisionDiffers(r.rootId) && exists i: nat :: IsLastOf(models, r.packetId, i) && !SameRevision(r, models[i]))
    {
      RootFindingsMean(models, r, f);
    }
  }

  lemma {:induction false} LastIsThere(models: seq<Model>)
    ensures forall id, i: nat :: IsLastOf(models, id, i) ==> i < |models|
  {
  }

  lemma {:induction false} SignalsExactly(p: Payload, models: seq<Model>, f: Finding)
    ensures f in AllSignalFindings(CorpusValidator.Identities(models), Artifacts(models), p.signals) <==>
      (f.SignalArtifact? || f.SignalSubject? || f.SignalLines?) && DeservedOfObservations(p, models, f)
  {
    hide Artifacts, CorpusValidator.Identities, Carries, Identifies;
    SignalsMembers(CorpusValidator.Identities(models), Artifacts(models), p.signals, f);
    forall s | s in p.signals
      ensures s.artifactId in Artifacts(models) <==> Carries(models, s.artifactId)
      ensures s.subjectId in CorpusValidator.Identities(models) <==> Identifies(models, s.subjectId)
    {
      CarriesMeans(models, s.artifactId);
      CarriesMeans(models, s.subjectId);
    }
  }

  lemma {:induction false} DuplicatesExactly(p: Payload, models: seq<Model>, f: Finding)
    ensures f in AllDuplicateFindings(Artifacts(models), p.duplicates) <==> f.DuplicateEndpoint? && DeservedOfObservations(p, models, f)
  {
    hide Artifacts, Carries;
    DuplicatesMembers(Artifacts(models), p.duplicates, f);
    if f.DuplicateEndpoint? { CarriesMeans(models, f.at); }
  }

  lemma {:induction false} PairsExactly(p: Payload, models: seq<Model>, f: Finding)
    ensures f in AllPairFindings(Artifacts(models), p.pairs) <==> f.PairEndpoint? && DeservedOfObservations(p, models, f)
  {
    hide Artifacts, Carries;
    PairsMembers(Artifacts(models), p.pairs, f);
    if f.PairEndpoint? { CarriesMeans(models, f.at); }
  }

  lemma {:induction false} HashesExactly(p: Payload, models: seq<Model>, f: Finding)
    ensures f in HashFindings(p.duplicates) <==> f.ClusterHashes? && DeservedOfObservations(p, models, f)
  {
    if f.ClusterHashes? {
      var hashes := HashesOf(p.duplicates, f.cluster);
      AtMostOne(hashes);
      if |hashes| > 1 {
        var a, b :| a in hashes && b in hashes && a != b;
        var r :| r in p.duplicates && r.clusterId == f.cluster && r.contentHash == a;
        var s :| s in p.duplicates && s.clusterId == f.cluster && s.contentHash == b;
      }
      if r, s :| r in p.duplicates && s in p.duplicates && r.clusterId == f.cluster == s.clusterId && r.contentHash != s.contentHash {
        assert r.contentHash in hashes && s.contentHash in hashes && r.clusterId in Duplicates.ClusterIds(p.duplicates);
      }
    }
  }

  lemma {:induction false} ProposalsExactly(packet: Packet, p: Payload, models: seq<Model>, f: Finding)
    ensures f in AllProposalFindings(Artifacts(models), RelationIds(p), p.Proposals()) <==>
      (f.UnknownMember? || f.UnknownSupport?) && DeservedOfConclusions(packet, p, models, f)
  {
    hide Artifacts, Carries, RelationIds, Related, Payload.Proposals;
    ProposalsMembers(Artifacts(models), RelationIds(p), p.Proposals(), f);
    if f.UnknownMember? { CarriesMeans(models, f.member); }
    if f.UnknownSupport? { RelatedMeans(p, f.relation); }
  }

  lemma {:induction false} ReadinessExactly(packet: Packet, p: Payload, models: seq<Model>, f: Finding)
    ensures f in AllReadinessFindings(CorpusValidator.Identities(models), CandidateIds(p), p.readiness) <==>
      f.UnknownSubject? && DeservedOfConclusions(packet, p, models, f)
  {
    hide CorpusValidator.Identities, Identifies, CandidateIds, Proposed;
    ReadinessMembers(CorpusValidator.Identities(models), CandidateIds(p), p.readiness, f);
    forall r | r in p.readiness
      ensures r.subjectId in CandidateIds(p) <==> Proposed(p, r.subjectId)
      ensures r.subjectId in CorpusValidator.Identities(models) <==> Identifies(models, r.subjectId)
    {
      RelatedMeans(p, r.subjectId);
      CarriesMeans(models, r.subjectId);
    }
  }

  lemma {:induction false} ReasoningExactly(packet: Packet, p: Payload, models: seq<Model>, f: Finding)
    ensures f in AllReasoningFindings(CandidateIds(p), Artifacts(models), Distinct(p.packs), p.reasoning) <==>
      (f.UnknownCandidate? || f.UnknownReasoningMember? || f.UnknownPack?) && DeservedOfConclusions(packet, p, models, f)
  {
    hide Artifacts, Carries, CandidateIds, Proposed;
    ReasoningMembers(CandidateIds(p), Artifacts(models), Distinct(p.packs), p.reasoning, f);
    if f.UnknownReasoningMember? { CarriesMeans(models, f.member); }
    forall r | r in p.reasoning ensures r.candidateId in CandidateIds(p) <==> Proposed(p, r.candidateId) { RelatedMeans(p, r.candidateId); }
  }

  /** Everything reported about a packet with a payload is deserved, and everything deserved is reported. */
  lemma {:induction false} ReportedExactlyWhen(packet: Packet, p: Payload, models: seq<Model>, f: Finding)
    ensures f in Findings(packet, p, models) <==>
      DeservedOfInputs(packet, models, f) || DeservedOfObservations(p, models, f) || DeservedOfConclusions(packet, p, models, f)
  {
    hide InputFindings, AllRootFindings, AllSignalFindings, AllDuplicateFindings, HashFindings, AllPairFindings, AllProposalFindings,
         AllReadinessFindings, AllReasoningFindings, Artifacts, CorpusValidator.Identities, ById, CandidateIds, RelationIds, Payload.Populated;
    InputsExactly(packet, models, f);
    RootsExactly(packet, models, f);
    SignalsExactly(p, models, f);
    DuplicatesExactly(p, models, f);
    HashesExactly(p, models, f);
    PairsExactly(p, models, f);
    ProposalsExactly(packet, p, models, f);
    ReadinessExactly(packet, p, models, f);
    ReasoningExactly(packet, p, models, f);
    OfOneKind(packet, p, models, f);
  }

  /** Every deserved finding is of one of the kinds looked for. */
  lemma {:induction false} OfOneKind(packet: Packet, p: Payload, models: seq<Model>, f: Finding)
    ensures DeservedOfInputs(packet, models, f) ==>
      f.UnresolvedInput? || f.UndeclaredInput? || f.UnobservedInput? || f.UnresolvedRoot? || f.RootHashDiffers? || f.RootRevisionDiffers?
    ensures DeservedOfObservations(p, models, f) ==>
      f.SignalArtifact? || f.SignalSubject? || f.SignalLines? || f.DuplicateEndpoint? || f.ClusterHashes? || f.PairEndpoint?
    ensures DeservedOfConclusions(packet, p, models, f) ==>
      || f.UnknownMember? || f.UnknownSupport? || f.UnknownSubject? || f.UnknownCandidate? || f.UnknownReasoningMember? || f.UnknownPack?
      || f.RanAfterAll?
  {
    hide Payload.Populated, Payload.Proposals;
  }
}
