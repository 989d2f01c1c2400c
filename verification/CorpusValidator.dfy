/** Referential integrity of a corpus packet over its input packets (packets/corpus_validator.py). */
module CorpusValidator {
  import opened Wrappers
  import opened Ordering
  import opened CanonicalHash
  import opened Domain
  import Duplicates

  /** A repository-model packet's identities. */
  datatype ModelPayload = ModelPayload(artifacts: seq<string>, repositories: seq<string>, capabilities: seq<string>)
  datatype Model = Model(packetId: string, semanticHash: string, revision: string, repositoryId: string, payload: Option<ModelPayload>)

  datatype Root = Root(rootId: string, packetId: string, semanticHash: string, revision: Option<string>)
  datatype Signal = Signal(signalId: string, artifactId: string, subjectId: string, citesLines: bool, format: string)
  datatype Pair = Pair(relationId: string, source: string, target: string)
  datatype Proposal = Proposal(candidateId: string, members: seq<string>, supporting: seq<string>)
  datatype Readiness = Readiness(readinessId: string, subjectId: string)
  datatype Reasoning = Reasoning(reasoningId: string, candidateId: string, members: seq<string>, pack: Option<string>)

  datatype PayloadDomain =
    | WorkSignals | DuplicateRelations | PairRelations | TopicCandidates | ProjectCandidates | ConsolidationCandidates | ReadinessEvidence
    | ReasoningCandidates | EvidencePacks

  datatype Payload = Payload(
    signals: seq<Signal>, duplicates: seq<Duplicates.Relation>, pairs: seq<Pair>, topics: seq<Proposal>, projects: seq<Proposal>,
    consolidations: seq<Proposal>, readiness: seq<Readiness>, reasoning: seq<Reasoning>, packs: seq<string>) {

    function Proposals(): seq<Proposal> { topics + projects + consolidations }

    predicate Populated(d: PayloadDomain) {
      match d
      case WorkSignals => signals != []
      case DuplicateRelations => duplicates != []
      case PairRelations => pairs != []
      case TopicCandidates => topics != []
      case ProjectCandidates => projects != []
      case ConsolidationCandidates => consolidations != []
      case ReadinessEvidence => readiness != []
      case ReasoningCandidates => reasoning != []
      case EvidencePacks => packs != []
    }
  }

  datatype Packet = Packet(inputs: seq<string>, roots: seq<Root>, payload: Option<Payload>, notRun: Option<seq<PayloadDomain>>)

  datatype Finding =
    | NoPayload | UnresolvedInput(id: string) | UndeclaredInput(id: string) | UnresolvedRoot(root: string) | RootHashDiffers(root: string)
    | RootRevisionDiffers(root: string) | UnobservedInput(id: string) | SignalArtifact(signal: string) | SignalSubject(signal: string)
    | SignalLines(signal: string) | DuplicateEndpoint(relation: string, at: string) | ClusterHashes(cluster: string)
    | PairEndpoint(relation: string, at: string) | UnknownMember(candidate: string, member: string)
    | UnknownSupport(candidate: string, relation: string) | UnknownSubject(readiness: string) | UnknownCandidate(reasoning: string)
    | UnknownReasoningMember(reasoning: string, member: string) | UnknownPack(reasoning: string) | RanAfterAll(domain: PayloadDomain)

  const LINE_BEARING: set<string> := {"text", "markdown", "csv", "html", "ipynb"}

  // ---- Identities ----

  /** `_artifact_only_identities`. */
  function Artifacts(models: seq<Model>): set<string> {
    if models == [] then {}
    else
      var last := models[|models| - 1];
      Artifacts(models[..|models| - 1]) + if last.payload.Some? then Distinct(last.payload.value.artifacts) else {}
  }

  /** `_artifact_identities`. */
  function Identities(models: seq<Model>): set<string> {
    if models == [] then {}
    else
      var last := models[|models| - 1];
      Identities(models[..|models| - 1]) + {last.repositoryId}
      + if last.payload.Some?
        then Distinct(last.payload.value.artifacts) + Distinct(last.payload.value.repositories) + Distinct(last.payload.value.capabilities) else {}
  }

  /** The packets by identity; a later one replaces an earlier one. */
  function ById(models: seq<Model>): map<string, Model> {
    if models == [] then map[] else ById(models[..|models| - 1])[models[|models| - 1].packetId := models[|models| - 1]]
  }

  // ---- What is wrong with each record ----

  function When(wrong: bool, f: Finding): set<Finding> { if wrong then {f} else {} }

  function RootFindings(models: map<string, Model>, r: Root): set<Finding> {
    if r.packetId !in models then {UnresolvedRoot(r.rootId)}
    else
      When(r.semanticHash != models[r.packetId].semanticHash, RootHashDiffers(r.rootId))
      + When(r.revision.Some? && r.revision.value != models[r.packetId].revision, RootRevisionDiffers(r.rootId))
  }

  function SignalFindings(identities: set<string>, artifacts: set<string>, s: Signal): set<Finding> {
    When(s.artifactId !in artifacts, SignalArtifact(s.signalId)) + When(s.subjectId !in identities, SignalSubject(s.signalId))
    + When(s.citesLines && s.format !in LINE_BEARING, SignalLines(s.signalId))
  }

  function DuplicateFindings(artifacts: set<string>, r: Duplicates.Relation): set<Finding> {
    When(r.a !in artifacts, DuplicateEndpoint(r.relationId, r.a)) + When(r.b !in artifacts, DuplicateEndpoint(r.relationId, r.b))
  }

  function PairFindings(artifacts: set<string>, p: Pair): set<Finding> {
    When(p.source !in artifacts, PairEndpoint(p.relationId, p.source)) + When(p.target !in artifacts, PairEndpoint(p.relationId, p.target))
  }

  function MembersMissing(id: string, missing: set<string>): set<Finding> { set m | m in missing :: UnknownMember(id, m) }

  function SupportMissing(id: string, missing: set<string>): set<Finding> { set m | m in missing :: UnknownSupport(id, m) }

  function RequestMembersMissing(id: string, missing: set<string>): set<Finding> { set m | m in missing :: UnknownReasoningMember(id, m) }

  function ProposalFindings(artifacts: set<string>, relations: set<string>, c: Proposal): set<Finding> {
    MembersMissing(c.candidateId, Distinct(c.members) - artifacts)
    + SupportMissing(c.candidateId, Distinct(c.supporting) - relations)
  }

  function ReadinessFindings(identities: set<string>, candidates: set<string>, r: Readiness): set<Finding> {
    When(r.subjectId !in candidates && r.subjectId !in identities, UnknownSubject(r.readinessId))
  }

  function ReasoningFindings(candidates: set<string>, artifacts: set<string>, packs: set<string>, r: Reasoning): set<Finding> {
    When(r.candidateId !in candidates, UnknownCandidate(r.reasoningId))
    + RequestMembersMissing(r.reasoningId, Distinct(r.members) - artifacts)
    + When(r.pack.Some? && r.pack.value !in packs, UnknownPack(r.reasoningId))
  }

  /** Everything a citation may name: pair relations, duplicate relations and their clusters. */
  function RelationIds(p: Payload): set<string> {
    (set x | x in p.pairs :: x.relationId) + (set x | x in p.duplicates :: x.relationId) + (set x | x in p.duplicates :: x.clusterId)
  }

  function CandidateIds(p: Payload): set<string> { set c | c in p.Proposals() :: c.candidateId }

  // ---- Over all records ----

  function AllRootFindings(models: map<string, Model>, xs: seq<Root>): set<Finding> {
    if xs == [] then {} else AllRootFindings(models, xs[..|xs| - 1]) + RootFindings(models, xs[|xs| - 1])
  }

  function AllSignalFindings(identities: set<string>, artifacts: set<string>, xs: seq<Signal>): set<Finding> {
    if xs == [] then {} else AllSignalFindings(identities, artifacts, xs[..|xs| - 1]) + SignalFindings(identities, artifacts, xs[|xs| - 1])
  }

  function AllDuplicateFindings(artifacts: set<string>, xs: seq<Duplicates.Relation>): set<Finding> {
    if xs == [] then {} else AllDuplicateFindings(artifacts, xs[..|xs| - 1]) + DuplicateFindings(artifacts, xs[|xs| - 1])
  }

  function AllPairFindings(artifacts: set<string>, xs: seq<Pair>): set<Finding> {
    if xs == [] then {} else AllPairFindings(artifacts, xs[..|xs| - 1]) + PairFindings(artifacts, xs[|xs| - 1])
  }

  function AllProposalFindings(artifacts: set<string>, relations: set<string>, xs: seq<Proposal>): set<Finding> {
    if xs == [] then {} else AllProposalFindings(artifacts, relations, xs[..|xs| - 1]) + ProposalFindings(artifacts, relations, xs[|xs| - 1])
  }

  function AllReadinessFindings(identities: set<string>, candidates: set<string>, xs: seq<Readiness>): set<Finding> {
    if xs == [] then {} else AllReadinessFindings(identities, candidates, xs[..|xs| - 1]) + ReadinessFindings(identities, candidates, xs[|xs| - 1])
  }

  function AllReasoningFindings(candidates: set<string>, artifacts: set<string>, packs: set<string>, xs: seq<Reasoning>): set<Finding> {
    if xs == [] then {}
    else AllReasoningFindings(candidates, artifacts, packs, xs[..|xs| - 1]) + ReasoningFindings(candidates, artifacts, packs, xs[|xs| - 1])
  }

  function HashesOf(xs: seq<Duplicates.Relation>, cluster: string): set<string> {
    set r | r in xs && r.clusterId == cluster :: r.contentHash
  }

  function InputFindings(declared: set<string>, loaded: set<string>, observed: set<string>): set<Finding> {
    (set id | id in declared - loaded :: UnresolvedInput(id)) + (set id | id in loaded - declared :: UndeclaredInput(id))
    + (set id | id in declared - observed :: UnobservedInput(id))
  }

  function HashFindings(xs: seq<Duplicates.Relation>): set<Finding> {
    set id | id in Duplicates.ClusterIds(xs) && |HashesOf(xs, id)| > 1 :: ClusterHashes(id)
  }

  function NotRunFindings(p: Payload, notRun: seq<PayloadDomain>): set<Finding> {
    set d | d in notRun && p.Populated(d) :: RanAfterAll(d)
  }

  /** What is wrong with the inputs and the roots. */
  function InitialFindings(packet: Packet, models: seq<Model>): set<Finding> {
    InputFindings(Distinct(packet.inputs), (set m | m in models :: m.packetId), (set r | r in packet.roots :: r.packetId))
    + AllRootFindings(ById(models), packet.roots)
  }

  /** What is wrong with what was observed: inputs, roots, signals and relations. */
  function ObservedFindings(packet: Packet, p: Payload, models: seq<Model>): set<Finding> {
    InitialFindings(packet, models) + AllSignalFindings(Identities(models), Artifacts(models), p.signals)
    + AllDuplicateFindings(Artifacts(models), p.duplicates) + HashFindings(p.duplicates) + AllPairFindings(Artifacts(models), p.pairs)
  }

  /** What is wrong with what was derived: candidates, readiness, reasoning and the domains said not to have run. */
  function DerivedFindings(packet: Packet, p: Payload, models: seq<Model>): set<Finding> {
    AllProposalFindings(Artifacts(models), RelationIds(p), p.Proposals()) + AllReadinessFindings(Identities(models), CandidateIds(p), p.readiness)
    + AllReasoningFindings(CandidateIds(p), Artifacts(models), Distinct(p.packs), p.reasoning)
    + if packet.notRun.Some? then NotRunFindings(p, packet.notRun.value) else {}
  }

  /** Everything wrong with a packet that carries a payload. */
  function Findings(packet: Packet, p: Payload, models: seq<Model>): set<Finding> {
    ObservedFindings(packet, p, models) + DerivedFindings(packet, p, models)
  }

  // ---- The checks ----

  function Noted(errors: seq<Finding>): set<Finding> { set e | e in errors }

  lemma {:induction false} NoteMore(a: seq<Finding>, b: seq<Finding>)
    ensures Noted(a + b) == Noted(a) + Noted(b)
  {
  }

  /** Append findings in some order. */
  method Report(errors: seq<Finding>, found: set<Finding>) returns (more: seq<Finding>)
    ensures Noted(more) == Noted(errors) + found && errors <= more
  {
    more := errors;
    var todo := found;
    while todo != {}
      invariant todo <= found && Noted(more) == Noted(errors) + (found - todo) && errors <= more
    {
      var f :| f in todo;
      NoteMore(more, [f]);
      more, todo := more + [f], todo - {f};
    }
  }

  /** `_check_roots`. */
  method CheckRoots(packet: Packet, models: seq<Model>) returns (more: seq<Finding>)
    ensures Noted(more) == InitialFindings(packet, models)
  {
    hide RootFindings;
    var loaded, declared := set m | m in models :: m.packetId, Distinct(packet.inputs);
    more := Report([], (set id | id in declared - loaded :: UnresolvedInput(id)) + (set id | id in loaded - declared :: UndeclaredInput(id)));
    ghost var start := Noted(more);
    var byId := ById(models);
    var observed: set<string> := {};
    for i := 0 to |packet.roots|
      invariant Noted(more) == start + AllRootFindings(byId, packet.roots[..i])
      invariant observed == set r | r in packet.roots[..i] :: r.packetId
    {
      var root := packet.roots[i];
      assert packet.roots[..i + 1] == packet.roots[..i] + [root];
      assert packet.roots[..i + 1][..i] == packet.roots[..i];
      observed := observed + {root.packetId};
      more := Report(more, RootFindings(byId, root));
    }
    assert packet.roots[..|packet.roots|] == packet.roots;
    more := Report(more, set id | id in declared - observed :: UnobservedInput(id));
  }

  /** `_check_work_signals`. */
  method CheckSignals(signals: seq<Signal>, identities: set<string>, artifacts: set<string>, errors: seq<Finding>) returns (more: seq<Finding>)
    ensures Noted(more) == Noted(errors) + AllSignalFindings(identities, artifacts, signals)
  {
    hide SignalFindings, Noted;
    more := errors;
    for i := 0 to |signals|
      invariant Noted(more) == Noted(errors) + AllSignalFindings(identities, artifacts, signals[..i])
    {
      assert signals[..i + 1][..i] == signals[..i];
      more := Report(more, SignalFindings(identities, artifacts, signals[i]));
    }
    assert signals[..|signals|] == signals;
  }

  /** `_check_duplicates`. */
  method CheckDuplicates(relations: seq<Duplicates.Relation>, artifacts: set<string>, errors: seq<Finding>) returns (more: seq<Finding>)
    ensures Noted(more) == Noted(errors) + AllDuplicateFindings(artifacts, relations) + HashFindings(relations)
  {
    hide DuplicateFindings, Noted, HashesOf, Duplicates.ClusterIds;
    more := errors;
    for i := 0 to |relations|
      invariant Noted(more) == Noted(errors) + AllDuplicateFindings(artifacts, relations[..i])
    {
      assert relations[..i + 1][..i] == relations[..i];
      more := Report(more, DuplicateFindings(artifacts, relations[i]));
    }
    assert relations[..|relations|] == relations;
    var hashes := HashesByCluster(relations);
    more := Report(more, set id | id in hashes && |hashes[id]| > 1 :: ClusterHashes(id));
    assert (set id | id in hashes && |hashes[id]| > 1 :: ClusterHashes(id)) == HashFindings(relations);
  }

  method HashesByCluster(relations: seq<Duplicates.Relation>) returns (hashes: map<string, set<string>>)
    ensures hashes.Keys == Duplicates.ClusterIds(relations) && forall id :: id in hashes ==> hashes[id] == HashesOf(relations, id)
  {
    hashes := map[];
    for i := 0 to |relations|
      invariant hashes.Keys == Duplicates.ClusterIds(relations[..i]) && forall id :: id in hashes ==> hashes[id] == HashesOf(relations[..i], id)
    {
      var r := relations[i];
      assert relations[..i + 1] == relations[..i] + [r];
      if r.clusterId !in hashes { assert HashesOf(relations[..i], r.clusterId) == {}; }
      hashes := hashes[r.clusterId := (if r.clusterId in hashes then hashes[r.clusterId] else {}) + {r.contentHash}];
    }
    assert relations[..|relations|] == relations;
  }

  /** `_check_pairs`. */
  method CheckPairs(pairs: seq<Pair>, artifacts: set<string>, errors: seq<Finding>) returns (more: seq<Finding>)
    ensures Noted(more) == Noted(errors) + AllPairFindings(artifacts, pairs)
  {
    hide PairFindings, Noted;
    more := errors;
    for i := 0 to |pairs|
      invariant Noted(more) == Noted(errors) + AllPairFindings(artifacts, pairs[..i])
    {
      assert pairs[..i + 1][..i] == pairs[..i];
      more := Report(more, PairFindings(artifacts, pairs[i]));
    }
    assert pairs[..|pairs|] == pairs;
  }

  /** `_check_candidates`. */
  method CheckCandidates(p: Payload, artifacts: set<string>, errors: seq<Finding>) returns (more: seq<Finding>, candidates: set<string>)
    ensures Noted(more) == Noted(errors) + AllProposalFindings(artifacts, RelationIds(p), p.Proposals()) && candidates == CandidateIds(p)
  {
    hide ProposalFindings, Noted, RelationIds;
    more := errors;
    var proposals, relations := p.Proposals(), RelationIds(p);
    for i := 0 to |proposals|
      invariant Noted(more) == Noted(errors) + AllProposalFindings(artifacts, relations, proposals[..i])
    {
      assert proposals[..i + 1][..i] == proposals[..i];
      more := Report(more, ProposalFindings(artifacts, relations, proposals[i]));
    }
    assert proposals[..|proposals|] == proposals;
    candidates := CandidateIds(p);
  }

  /** `_check_readiness`. */
  method CheckReadiness(readiness: seq<Readiness>, identities: set<string>, candidates: set<string>, errors: seq<Finding>) returns (more: seq<Finding>)
    ensures Noted(more) == Noted(errors) + AllReadinessFindings(identities, candidates, readiness)
  {
    more := errors;
    for i := 0 to |readiness|
      invariant Noted(more) == Noted(errors) + AllReadinessFindings(identities, candidates, readiness[..i])
    {
      assert readiness[..i + 1][..i] == readiness[..i];
      if readiness[i].subjectId in candidates || readiness[i].subjectId in identities { continue; }
      NoteMore(more, [UnknownSubject(readiness[i].readinessId)]);
      more := more + [UnknownSubject(readiness[i].readinessId)];
    }
    assert readiness[..|readiness|] == readiness;
  }

  /** `_check_reasoning`. */
  method CheckReasoning(requests: seq<Reasoning>, candidates: set<string>, artifacts: set<string>, packs: set<string>, errors: seq<Finding>)
    returns (more: seq<Finding>)
    ensures Noted(more) == Noted(errors) + AllReasoningFindings(candidates, artifacts, packs, requests)
  {
    hide ReasoningFindings, Noted;
    more := errors;
    for i := 0 to |requests|
      invariant Noted(more) == Noted(errors) + AllReasoningFindings(candidates, artifacts, packs, requests[..i])
    {
      assert requests[..i + 1][..i] == requests[..i];
      more := Report(more, ReasoningFindings(candidates, artifacts, packs, requests[i]));
    }
    assert requests[..|requests|] == requests;
  }

  method CheckObserved(packet: Packet, p: Payload, models: seq<Model>, identities: set<string>, artifacts: set<string>) returns (errors: seq<Finding>)
    requires identities == Identities(models) && artifacts == Artifacts(models)
    ensures Noted(errors) == ObservedFindings(packet, p, models)
  {
    hide *;
    errors := CheckRoots(packet, models);
    errors := CheckSignals(p.signals, identities, artifacts, errors);
    errors := CheckDuplicates(p.duplicates, artifacts, errors);
    errors := CheckPairs(p.pairs, artifacts, errors);
    ObservedAre(packet, p, models);
  }

  lemma {:induction false} ObservedAre(packet: Packet, p: Payload, models: seq<Model>)
    ensures ObservedFindings(packet, p, models) ==
      InitialFindings(packet, models) + AllSignalFindings(Identities(models), Artifacts(models), p.signals)
      + AllDuplicateFindings(Artifacts(models), p.duplicates) + HashFindings(p.duplicates) + AllPairFindings(Artifacts(models), p.pairs)
  {
  }

  method CheckDerived(packet: Packet, p: Payload, models: seq<Model>, identities: set<string>, artifacts: set<string>, before: seq<Finding>)
    returns (errors: seq<Finding>)
    requires identities == Identities(models) && artifacts == Artifacts(models)
    ensures Noted(errors) == Noted(before) + DerivedFindings(packet, p, models)
  {
    hide *;
    var candidates;
    errors, candidates := CheckCandidates(p, artifacts, before);
    errors := CheckReadiness(p.readiness, identities, candidates, errors);
    errors := CheckReasoning(p.reasoning, candidates, artifacts, Distinct(p.packs), errors);
    if packet.notRun.Some? { errors := Report(errors, NotRunFindings(p, packet.notRun.value)); }
    DerivedAre(packet, p, models);
  }

  lemma {:induction false} DerivedAre(packet: Packet, p: Payload, models: seq<Model>)
    ensures DerivedFindings(packet, p, models) ==
      AllProposalFindings(Artifacts(models), RelationIds(p), p.Proposals()) + AllReadinessFindings(Identities(models), CandidateIds(p), p.readiness)
      + AllReasoningFindings(CandidateIds(p), Artifacts(models), Distinct(p.packs), p.reasoning)
      + if packet.notRun.Some? then NotRunFindings(p, packet.notRun.value) else {}
  {
  }

  /** `validate_corpus_intelligence_packet`: nothing, or everything that is wrong. */
  method Validate(packet: Packet, models: seq<Model>) returns (r: Result<(), set<Finding>>)
    ensures packet.payload.None? ==> r == Err({NoPayload})
    ensures packet.payload.Some? ==>
      var found := Findings(packet, packet.payload.value, models); r == if found == {} then Ok(()) else Err(found)
  {
    if packet.payload.None? { return Err({NoPayload}); }
    var p := packet.payload.value;
    hide ObservedFindings, DerivedFindings, Noted, Artifacts, Identities;
    var identities, artifacts := Identities(models), Artifacts(models);
    var errors := CheckObserved(packet, p, models, identities, artifacts);
    errors := CheckDerived(packet, p, models, identities, artifacts, errors);
    AnyNoted(errors);
    r := if errors != [] then Err(Noted(errors)) else Ok(());
  }

  lemma {:induction false} AnyNoted(errors: seq<Finding>)
    ensures Noted(errors) == {} <==> errors == []
  {
    if errors != [] { assert errors[0] in Noted(errors); }
  }

  // ---- Closure ----

  ghost predicate RootsClosed(packet: Packet, models: seq<Model>) {
    && Distinct(packet.inputs) == (set m | m in models :: m.packetId) && Distinct(packet.inputs) <= (set r | r in packet.roots :: r.packetId)
    && (forall r :: r in packet.roots ==> BindsInput(models, r))
  }

  /** The root names an input packet at the hash, and if it says so the revision, the packet carries. */
  ghost predicate BindsInput(models: seq<Model>, r: Root) {
    r.packetId in ById(models) && r.semanticHash == ById(models)[r.packetId].semanticHash
    && (r.revision.Some? ==> r.revision.value == ById(models)[r.packetId].revision)
  }

  ghost predicate ObservedClosed(p: Payload, models: seq<Model>) {
    var artifacts, identities := Artifacts(models), Identities(models);
    && (forall s :: s in p.signals ==>
          s.artifactId in artifacts && s.subjectId in identities && (s.citesLines ==> s.format in LINE_BEARING))
    && (forall r :: r in p.duplicates ==> r.a in artifacts && r.b in artifacts)
    && Duplicates.OneHashEach(p.duplicates)
    && (forall r :: r in p.pairs ==> r.source in artifacts && r.target in artifacts)
  }

  ghost predicate DerivedClosed(packet: Packet, p: Payload, models: seq<Model>) {
    var artifacts, identities := Artifacts(models), Identities(models);
    && (forall c :: c in p.Proposals() ==> Distinct(c.members) <= artifacts && Distinct(c.supporting) <= RelationIds(p))
    && (forall r :: r in p.readiness ==> r.subjectId in CandidateIds(p) || r.subjectId in identities)
    && (forall r :: r in p.reasoning ==>
          r.candidateId in CandidateIds(p) && Distinct(r.members) <= artifacts && (r.pack.Some? ==> r.pack.value in p.packs))
    && (packet.notRun.Some? ==> forall d :: d in packet.notRun.value ==> !p.Populated(d))
  }

  lemma {:induction false} RootsSound(models: map<string, Model>, xs: seq<Root>)
    ensures AllRootFindings(models, xs) == {} <==> forall r :: r in xs ==> RootFindings(models, r) == {}
  {
    hide RootFindings;
    if xs != [] {
      RootsSound(models, xs[..|xs| - 1]);
      assert xs == xs[..|xs| - 1] + [xs[|xs| - 1]];
    }
  }

  lemma {:induction false} SignalsSound(identities: set<string>, artifacts: set<string>, xs: seq<Signal>)
    ensures AllSignalFindings(identities, artifacts, xs) == {} <==> forall s :: s in xs ==> SignalFindings(identities, artifacts, s) == {}
  {
    hide SignalFindings;
    if xs != [] {
      SignalsSound(identities, artifacts, xs[..|xs| - 1]);
      assert xs == xs[..|xs| - 1] + [xs[|xs| - 1]];
    }
  }

  lemma {:induction false} DuplicatesSound(artifacts: set<string>, xs: seq<Duplicates.Relation>)
    ensures AllDuplicateFindings(artifacts, xs) == {} <==> forall r :: r in xs ==> DuplicateFindings(artifacts, r) == {}
  {
    hide DuplicateFindings;
    if xs != [] {
      DuplicatesSound(artifacts, xs[..|xs| - 1]);
      assert xs == xs[..|xs| - 1] + [xs[|xs| - 1]];
    }
  }

  lemma {:induction false} PairsSound(artifacts: set<string>, xs: seq<Pair>)
    ensures AllPairFindings(artifacts, xs) == {} <==> forall r :: r in xs ==> PairFindings(artifacts, r) == {}
  {
    hide PairFindings;
    if xs != [] {
      PairsSound(artifacts, xs[..|xs| - 1]);
      assert xs == xs[..|xs| - 1] + [xs[|xs| - 1]];
    }
  }

  lemma {:induction false} ProposalsSound(artifacts: set<string>, relations: set<string>, xs: seq<Proposal>)
    ensures AllProposalFindings(artifacts, relations, xs) == {} <==> forall c :: c in xs ==> ProposalFindings(artifacts, relations, c) == {}
  {
    hide ProposalFindings;
    if xs != [] {
      ProposalsSound(artifacts, relations, xs[..|xs| - 1]);
      assert xs == xs[..|xs| - 1] + [xs[|xs| - 1]];
    }
  }

  lemma {:induction false} ReadinessSound(identities: set<string>, candidates: set<string>, xs: seq<Readiness>)
    ensures AllReadinessFindings(identities, candidates, xs) == {} <==> forall r :: r in xs ==> ReadinessFindings(identities, candidates, r) == {}
  {
    hide ReadinessFindings;
    if xs != [] {
      ReadinessSound(identities, candidates, xs[..|xs| - 1]);
      assert xs == xs[..|xs| - 1] + [xs[|xs| - 1]];
    }
  }

  lemma {:induction false} ReasoningSound(candidates: set<string>, artifacts: set<string>, packs: set<string>, xs: seq<Reasoning>)
    ensures AllReasoningFindings(candidates, artifacts, packs, xs) == {} <==>
      forall r :: r in xs ==> ReasoningFindings(candidates, artifacts, packs, r) == {}
  {
    hide ReasoningFindings;
    if xs != [] {
      ReasoningSound(candidates, artifacts, packs, xs[..|xs| - 1]);
      assert xs == xs[..|xs| - 1] + [xs[|xs| - 1]];
    }
  }

  lemma {:induction false} NothingMissing(missing: set<string>, id: string)
    ensures MembersMissing(id, missing) == {} <==> missing == {}
    ensures SupportMissing(id, missing) == {} <==> missing == {}
    ensures RequestMembersMissing(id, missing) == {} <==> missing == {}
  {
    if missing != {} {
      var m :| m in missing;
      assert UnknownMember(id, m) in MembersMissing(id, missing);
      assert UnknownSupport(id, m) in SupportMissing(id, missing);
      assert UnknownReasoningMember(id, m) in RequestMembersMissing(id, missing);
    } else {
      assert forall f :: f !in MembersMissing(id, missing) && f !in SupportMissing(id, missing) && f !in RequestMembersMissing(id, missing);
    }
  }

  lemma {:induction false} NoInputFindings(declared: set<string>, loaded: set<string>, observed: set<string>)
    ensures InputFindings(declared, loaded, observed) == {} <==> declared == loaded && declared <= observed
  {
    var found := InputFindings(declared, loaded, observed);
    if declared - loaded != {} {
      var id :| id in declared - loaded;
      assert UnresolvedInput(id) in found;
    } else if loaded - declared != {} {
      var id :| id in loaded - declared;
      assert UndeclaredInput(id) in found;
    } else if declared - observed != {} {
      var id :| id in declared - observed;
      assert UnobservedInput(id) in found;
    } else {
      assert declared == loaded;
    }
  }

  /** A set of at most one element holds no two different ones. */
  lemma {:induction false} AtMostOne(s: set<string>)
    ensures |s| <= 1 <==> forall x, y :: x in s && y in s ==> x == y
  {
    if s != {} {
      var x :| x in s;
      if |s| <= 1 {
        assert |s - {x}| == 0;
        assert s == {x};
      } else {
        assert |s - {x}| >= 1;
        var y :| y in s - {x};
      }
    }
  }

  lemma {:induction false} NoHashFindings(xs: seq<Duplicates.Relation>)
    ensures HashFindings(xs) == {} <==> Duplicates.OneHashEach(xs)
  {
    if HashFindings(xs) == {} {
      forall r, s | r in xs && s in xs && r.clusterId == s.clusterId ensures r.contentHash == s.contentHash {
        var id := r.clusterId;
        assert id in Duplicates.ClusterIds(xs);
        assert ClusterHashes(id) !in HashFindings(xs);
        AtMostOne(HashesOf(xs, id));
        assert r.contentHash in HashesOf(xs, id) && s.contentHash in HashesOf(xs, id);
      }
    }
    if Duplicates.OneHashEach(xs) {
      forall id | id in Duplicates.ClusterIds(xs) ensures |HashesOf(xs, id)| <= 1 { AtMostOne(HashesOf(xs, id)); }
    }
  }

  lemma {:induction false} NoNotRunFindings(p: Payload, notRun: seq<PayloadDomain>)
    ensures NotRunFindings(p, notRun) == {} <==> forall d :: d in notRun ==> !p.Populated(d)
  {
    forall d | d in notRun && p.Populated(d) ensures RanAfterAll(d) in NotRunFindings(p, notRun) { }
  }

  lemma {:induction false} RootsClosedExactly(packet: Packet, models: seq<Model>)
    ensures InitialFindings(packet, models) == {} <==> RootsClosed(packet, models)
  {
    hide ById, Distinct, InputFindings;
    RootsSound(ById(models), packet.roots);
    NoInputFindings(Distinct(packet.inputs), (set m | m in models :: m.packetId), (set r | r in packet.roots :: r.packetId));
    forall r | r in packet.roots ensures RootFindings(ById(models), r) == {} <==> BindsInput(models, r) { }
  }

  lemma {:induction false} ObservedClosedExactly(packet: Packet, p: Payload, models: seq<Model>)
    ensures ObservedFindings(packet, p, models) == {} <==> RootsClosed(packet, models) && ObservedClosed(p, models)
  {
    hide RootsClosed, InitialFindings, Artifacts, Identities, Duplicates.OneHashEach, HashFindings;
    RootsClosedExactly(packet, models);
    SignalsSound(Identities(models), Artifacts(models), p.signals);
    DuplicatesSound(Artifacts(models), p.duplicates);
    NoHashFindings(p.duplicates);
    PairsSound(Artifacts(models), p.pairs);
  }

  lemma {:induction false} ProposalClosed(artifacts: set<string>, relations: set<string>, c: Proposal)
    ensures ProposalFindings(artifacts, relations, c) == {} <==> Distinct(c.members) <= artifacts && Distinct(c.supporting) <= relations
  {
    hide MembersMissing, SupportMissing, RequestMembersMissing, Distinct;
    NothingMissing(Distinct(c.members) - artifacts, c.candidateId);
    NothingMissing(Distinct(c.supporting) - relations, c.candidateId);
    UnionEmpty(MembersMissing(c.candidateId, Distinct(c.members) - artifacts), SupportMissing(c.candidateId, Distinct(c.supporting) - relations));
    NoDifference(Distinct(c.members), artifacts);
    NoDifference(Distinct(c.supporting), relations);
  }

  lemma {:induction false} NoDifference<T>(a: set<T>, b: set<T>)
    ensures a - b == {} <==> a <= b
  {
    assert forall x :: x in a && x !in b ==> x in a - b;
  }

  lemma {:induction false} UnionEmpty<T>(a: set<T>, b: set<T>)
    ensures a + b == {} <==> a == {} && b == {}
  {
    assert a <= a + b && b <= a + b;
  }

  lemma {:induction false} RequestClosed(candidates: set<string>, artifacts: set<string>, packs: set<string>, r: Reasoning)
    ensures ReasoningFindings(candidates, artifacts, packs, r) == {} <==>
      r.candidateId in candidates && Distinct(r.members) <= artifacts && (r.pack.Some? ==> r.pack.value in packs)
  {
    hide MembersMissing, SupportMissing, RequestMembersMissing, Distinct;
    NothingMissing(Distinct(r.members) - artifacts, r.reasoningId);
    NoDifference(Distinct(r.members), artifacts);
  }

  lemma {:induction false} DerivedClosedExactly(packet: Packet, p: Payload, models: seq<Model>)
    ensures DerivedFindings(packet, p, models) == {} <==> DerivedClosed(packet, p, models)
  {
    hide Artifacts, Identities, CandidateIds, RelationIds, ProposalFindings, ReasoningFindings, NotRunFindings;
    var artifacts, identities, candidates := Artifacts(models), Identities(models), CandidateIds(p);
    ProposalsSound(artifacts, RelationIds(p), p.Proposals());
    forall c ensures ProposalFindings(artifacts, RelationIds(p), c) == {} <==> Distinct(c.members) <= artifacts && Distinct(c.supporting) <= RelationIds(p) {
      ProposalClosed(artifacts, RelationIds(p), c);
    }
    ReadinessSound(identities, candidates, p.readiness);
    ReasoningSound(candidates, artifacts, Distinct(p.packs), p.reasoning);
    forall r ensures ReasoningFindings(candidates, artifacts, Distinct(p.packs), r) == {} <==>
      r.candidateId in candidates && Distinct(r.members) <= artifacts && (r.pack.Some? ==> r.pack.value in Distinct(p.packs))
    {
      RequestClosed(candidates, artifacts, Distinct(p.packs), r);
    }
    if packet.notRun.Some? { NoNotRunFindings(p, packet.notRun.value); }
  }

  /** The validator finds nothing exactly when the packet is referentially closed over its inputs. */
  lemma {:induction false} AcceptedExactlyWhenClosed(packet: Packet, p: Payload, models: seq<Model>)
    ensures Findings(packet, p, models) == {} <==> RootsClosed(packet, models) && ObservedClosed(p, models) && DerivedClosed(packet, p, models)
  {
    hide ObservedFindings, DerivedFindings, RootsClosed, ObservedClosed, DerivedClosed;
    ObservedClosedExactly(packet, p, models);
    DerivedClosedExactly(packet, p, models);
  }

  /** Every duplicate edge compiled from an accepted packet joins two different artifacts the inputs carry,
      and the edges do not depend on the order or orientation of its relations. */
  lemma {:induction false} AcceptedDuplicatesJoinArtifacts(
      codec: Codec, packet: Packet, p: Payload, models: seq<Model>, cited: map<string, seq<string>>, e: Edge)
    requires Findings(packet, p, models) == {} && e in Duplicates.DuplicateEdges(codec, p.duplicates, cited)
    ensures e.source in Artifacts(models) && e.target in Artifacts(models) && e.source != e.target
    ensures Duplicates.OneHashEach(p.duplicates)
  {
    hide Findings, RootsClosed, DerivedClosed, Artifacts, Identities, Duplicates.DuplicateEdges, Duplicates.HashOf, Duplicates.OneHashEach;
    AcceptedExactlyWhenClosed(packet, p, models);
    Duplicates.EdgesAreProper(codec, p.duplicates, cited, e);
    var id :| Duplicates.JoinsMembers(p.duplicates, id, e);
  }
}
