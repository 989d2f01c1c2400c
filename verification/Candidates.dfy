/** Candidate clusters measured against the compiled structure (topology/candidates.py, domain/candidate.py). */
module Candidates {
  import opened Wrappers
  import opened Ordering
  import opened Texts
  import opened Domain

  datatype Class = Weak | Moderate | Strong

  /** A group the producer proposes; it names at least one member. */
  datatype Proposal = Proposal(
    candidateId: string, candidateType: string, members: seq<string>, supporting: seq<string>, evidenceRefs: seq<string>, class_: Class,
    flags: seq<string>, crossRoot: bool, crossArchive: bool, profileId: string, profileVersion: string, upstreamId: Option<string>)

  datatype Payload = Payload(topics: seq<Proposal>, projects: seq<Proposal>, consolidations: seq<Proposal>)

  /** The compiled records a group is measured against. */
  datatype Records = Records(
    artifacts: seq<Artifact>, edges: seq<Edge>, claims: seq<Claim>, conflicts: seq<Conflict>, rootOf: map<string, string>,
    readiness: map<string, string>)

  datatype Structure = Structure(
    members: nat, repositories: nat, roots: nat, archived: nat, duplicates: nat, references: nat, dependencies: nat, supersessions: nat,
    blockers: nat, statuses: map<string, nat>, kinds: map<string, nat>, conflicting: nat, capabilities: nat, externals: nat) {

    function Support(): nat { duplicates + references + dependencies + supersessions }
  }

  datatype Cluster = Cluster(
    candidateId: string, candidateType: string, members: seq<string>, supporting: seq<string>, evidenceRefs: seq<string>, class_: Class,
    flags: seq<string>, crossRoot: bool, crossArchive: bool, profile: string, upstreamId: string, structure: Structure,
    readiness: Option<string>, confidence: Confidence)

  const STATUS: string := "work.status"
  const KIND: string := "work.kind"
  const CONFLICTING: string := "conflicting_status"
  const DISCONNECTED: string := "structurally_disconnected_members"
  const CROSS_ROOT: string := "spans_multiple_roots"

  function Rank(c: Class): nat { match c case Weak => 0 case Moderate => 1 case Strong => 2 }

  /** `weaken_to`. */
  function Weaker(current: Class, proposed: Class): Class { if Rank(proposed) < Rank(current) then proposed else current }

  /** `candidate_confidence`. */
  function ConfidenceFor(c: Class, conflicted: bool): Confidence {
    Confidence(if c == Strong then Medium else Low, Strength.Weak, Heuristic, Authority.Candidate, Partial, if conflicted then Possible else NoConflict)
  }

  // ---- The structural index ----

  /** A path inside an archive. */
  predicate InArchive(path: string) { Occurs("!/", path) }

  datatype Index = Index(
    repositoryOf: map<string, string>, capabilitiesOf: map<string, seq<string>>, archived: set<string>, rootOf: map<string, string>,
    pairs: map<EdgeType, set<set<string>>>, externals: set<string>, claimsOn: map<string, seq<Claim>>, conflicted: set<string>) {

    function Pairs(t: EdgeType): set<set<string>> { if t in pairs then pairs[t] else {} }

    /** `internal_pairs`: the unordered pairs of two members joined by an edge of a type. */
    function Internal(t: EdgeType, members: set<string>): set<set<string>> { set p | p in Pairs(t) && |p| == 2 && p <= members }

    /** `subjects_for`. */
    function Subjects(members: set<string>): set<string> { members + set a | a in repositoryOf && a in members :: repositoryOf[a] }

    function ClaimsOn(s: string): seq<Claim> { if s in claimsOn then claimsOn[s] else [] }
  }

  function RepositoryOf(artifacts: seq<Artifact>): map<string, string> {
    if artifacts == [] then map[]
    else RepositoryOf(artifacts[..|artifacts| - 1])[artifacts[|artifacts| - 1].artifactId := artifacts[|artifacts| - 1].repositoryId]
  }

  function CapabilitiesOf(artifacts: seq<Artifact>): map<string, seq<string>> {
    if artifacts == [] then map[]
    else CapabilitiesOf(artifacts[..|artifacts| - 1])[artifacts[|artifacts| - 1].artifactId := artifacts[|artifacts| - 1].capabilities]
  }

  function PairsOf(edges: seq<Edge>, t: EdgeType): set<set<string>> { set e | e in edges && e.edgeType == t :: {e.source, e.target} }
  function TypesIn(edges: seq<Edge>): set<EdgeType> { set e | e in edges :: e.edgeType }

  function About(s: string): Claim -> bool { (c: Claim) => c.subject == s }
  function SubjectsIn(claims: seq<Claim>): set<string> { set c | c in claims :: c.subject }

  function ConflictedIn(conflicts: seq<Conflict>): set<string> { set c | c in conflicts && c.field in {STATUS, KIND} :: c.subject }

  function ExternalTargets(edges: seq<Edge>): set<string> {
    set e | e in edges && e.edgeType == DependsOn && "package:" <= e.target :: e.target
  }

  function IndexOf(r: Records): Index {
    Index(
      RepositoryOf(r.artifacts), CapabilitiesOf(r.artifacts), set a | a in r.artifacts && InArchive(a.sourcePath) :: a.artifactId, r.rootOf,
      map t | t in TypesIn(r.edges) :: PairsOf(r.edges, t), ExternalTargets(r.edges),
      map s | s in SubjectsIn(r.claims) :: Filter(r.claims, About(s)), ConflictedIn(r.conflicts))
  }

  method IndexEdges(edges: seq<Edge>) returns (pairs: map<EdgeType, set<set<string>>>)
    ensures pairs == map t | t in TypesIn(edges) :: PairsOf(edges, t)
  {
    pairs := map[];
    for i := 0 to |edges|
      invariant PairedBy(pairs, edges[..i])
    {
      hide PairedBy;
      var e := edges[i];
      assert edges[..i + 1] == edges[..i] + [e];
      OneMoreEdge(pairs, edges[..i], e);
      pairs := pairs[e.edgeType := (if e.edgeType in pairs then pairs[e.edgeType] else {}) + {{e.source, e.target}}];
    }
    assert edges[..|edges|] == edges;
  }

  ghost predicate PairedBy(pairs: map<EdgeType, set<set<string>>>, edges: seq<Edge>) {
    pairs.Keys == TypesIn(edges) && forall t :: t in pairs ==> pairs[t] == PairsOf(edges, t)
  }

  lemma {:induction false} OneMoreEdge(pairs: map<EdgeType, set<set<string>>>, edges: seq<Edge>, e: Edge)
    requires PairedBy(pairs, edges)
    ensures PairedBy(pairs[e.edgeType := (if e.edgeType in pairs then pairs[e.edgeType] else {}) + {{e.source, e.target}}], edges + [e])
  {
    forall t ensures PairsOf(edges + [e], t) == PairsOf(edges, t) + if e.edgeType == t then {{e.source, e.target}} else {} { PairsAfter(edges, e, t); }
    assert TypesIn(edges + [e]) == TypesIn(edges) + {e.edgeType};
    if e.edgeType !in pairs { assert PairsOf(edges, e.edgeType) == {}; }
    hide PairsOf, TypesIn;
  }

  lemma {:induction false} PairsAfter(edges: seq<Edge>, e: Edge, t: EdgeType)
    ensures PairsOf(edges + [e], t) == PairsOf(edges, t) + if e.edgeType == t then {{e.source, e.target}} else {}
  {
    if e.edgeType == t { assert {e.source, e.target} in PairsOf(edges + [e], t) by { assert e in edges + [e]; } }
    forall p | p in PairsOf(edges, t) ensures p in PairsOf(edges + [e], t) {
      var d :| d in edges && d.edgeType == t && p == {d.source, d.target};
      assert d in edges + [e];
    }
  }

  method IndexClaims(claims: seq<Claim>) returns (on: map<string, seq<Claim>>)
    ensures on == map s | s in SubjectsIn(claims) :: Filter(claims, About(s))
  {
    on := map[];
    for i := 0 to |claims|
      invariant ListedBy(on, claims[..i])
    {
      hide ListedBy;
      var c := claims[i];
      assert claims[..i + 1] == claims[..i] + [c];
      OneMoreClaim(on, claims[..i], c);
      on := on[c.subject := (if c.subject in on then on[c.subject] else []) + [c]];
    }
    assert claims[..|claims|] == claims;
  }

  ghost predicate ListedBy(on: map<string, seq<Claim>>, claims: seq<Claim>) {
    on.Keys == SubjectsIn(claims) && forall s :: s in on ==> on[s] == Filter(claims, About(s))
  }

  lemma {:induction false} OneMoreClaim(on: map<string, seq<Claim>>, claims: seq<Claim>, c: Claim)
    requires ListedBy(on, claims)
    ensures ListedBy(on[c.subject := (if c.subject in on then on[c.subject] else []) + [c]], claims + [c])
  {
    var after := on[c.subject := (if c.subject in on then on[c.subject] else []) + [c]];
    forall s | s in after ensures after[s] == Filter(claims + [c], About(s)) {
      FilterSnoc(claims, c, About(s));
      if s !in on { NoneAbout(claims, s); }
    }
  }

  lemma {:induction false} NoneAbout(claims: seq<Claim>, s: string)
    requires s !in SubjectsIn(claims)
    ensures Filter(claims, About(s)) == []
  {
    if claims != [] {
      assert claims[0] in claims;
      assert forall c :: c in claims[1..] ==> c in claims;
      NoneAbout(claims[1..], s);
    }
  }

  /** `_StructuralIndex.__init__`. */
  method BuildIndex(r: Records) returns (index: Index)
    ensures index == IndexOf(r)
  {
    var pairs := IndexEdges(r.edges);
    var on := IndexClaims(r.claims);
    index := Index(
      RepositoryOf(r.artifacts), CapabilitiesOf(r.artifacts), set a | a in r.artifacts && InArchive(a.sourcePath) :: a.artifactId, r.rootOf,
      pairs, ExternalTargets(r.edges), on, ConflictedIn(r.conflicts));
  }

  // ---- Measurement ----

  function Tally(claims: seq<Claim>, predicat: string, counts: map<string, nat>): map<string, nat> {
    if claims == [] then counts
    else
      var n := |claims| - 1;
      var before := Tally(claims[..n], predicat, counts);
      if claims[n].predicat == predicat then Increment(before, claims[n].object_) else before
  }

  function TallyOver(index: Index, subjects: seq<string>, predicat: string): map<string, nat> {
    if subjects == [] then map[]
    else Tally(index.ClaimsOn(subjects[|subjects| - 1]), predicat, TallyOver(index, subjects[..|subjects| - 1], predicat))
  }

  /** `_distribution`. */
  method Distribution(index: Index, subjects: set<string>, predicat: string) returns (counts: map<string, nat>)
    ensures counts == TallyOver(index, SortedIds(subjects), predicat)
  {
    hide Increment, SortedIds;
    counts := map[];
    var ids := SortedIds(subjects);
    for i := 0 to |ids|
      invariant counts == TallyOver(index, ids[..i], predicat)
    {
      assert ids[..i + 1][..i] == ids[..i];
      var claims := index.ClaimsOn(ids[i]);
      for k := 0 to |claims|
        invariant counts == Tally(claims[..k], predicat, TallyOver(index, ids[..i], predicat))
      {
        assert claims[..k + 1][..k] == claims[..k];
        if claims[k].predicat == predicat { counts := Increment(counts, claims[k].object_); }
      }
      assert claims[..|claims|] == claims;
    }
    assert ids[..|ids|] == ids;
  }

  function MembersOf(p: Proposal): set<string> { Distinct(p.members) }

  function Measured(p: Proposal, index: Index, statuses: map<string, nat>, kinds: map<string, nat>): Structure {
    var members := MembersOf(p);
    var subjects := index.Subjects(members);
    Structure(
      |members|, |set m | m in members && m in index.repositoryOf :: index.repositoryOf[m]|,
      |set m | m in members && m in index.rootOf :: index.rootOf[m]|, |members * index.archived|,
      |index.Internal(DuplicateOf, members)|, |index.Internal(References, members)|, |index.Internal(DependsOn, members)|,
      |index.Internal(Supersedes, members)|, |set p | p in index.Pairs(BlockedBy) && p * members != {}|, statuses, kinds,
      |subjects * index.conflicted|, |set m, c | m in members && m in index.capabilitiesOf && c in index.capabilitiesOf[m] :: c|,
      |set t, p | t in index.externals && p in index.Pairs(DependsOn) && t in p && p * members != {} :: t|)
  }

  /** `_structural_evidence`. */
  function StructureOf(p: Proposal, index: Index): Structure {
    var subjects := SortedIds(index.Subjects(MembersOf(p)));
    Measured(p, index, TallyOver(index, subjects, STATUS), TallyOver(index, subjects, KIND))
  }

  /** `_ambiguity_flags`, before sorting. */
  function FlagsOf(p: Proposal, s: Structure): set<string> {
    Distinct(p.flags)
    + (if s.conflicting > 0 || |s.statuses| > 1 then {CONFLICTING} else {})
    + (if s.members > 1 && s.Support() == 0 then {DISCONNECTED} else {})
    + (if s.roots > 1 then {CROSS_ROOT} else {})
  }

  function ClassFor(p: Proposal, flags: set<string>): Class {
    if CONFLICTING in flags then Weaker(p.class_, Class.Weak)
    else if DISCONNECTED in flags then Weaker(p.class_, Moderate)
    else p.class_
  }

  /** One proposal as a cluster. */
  function Lowered(p: Proposal, structure: Structure, readiness: map<string, string>): Cluster {
    var flags := FlagsOf(p, structure);
    var class_ := ClassFor(p, flags);
    Cluster(
      p.candidateId, p.candidateType, SortedIds(MembersOf(p)), SortedIds(Distinct(p.supporting)), SortedIds(Distinct(p.evidenceRefs)), class_,
      SortedIds(flags), structure.roots > 1 || p.crossRoot, p.crossArchive, p.profileId + "/" + p.profileVersion,
      if p.upstreamId.Some? && p.upstreamId.value != "" then p.upstreamId.value else p.candidateId, structure,
      if p.candidateId in readiness then Some(readiness[p.candidateId]) else None, ConfidenceFor(class_, CONFLICTING in flags))
  }

  function Compile(p: Proposal, index: Index, readiness: map<string, string>): Cluster { Lowered(p, StructureOf(p, index), readiness) }

  function CompileAll(ps: seq<Proposal>, index: Index, readiness: map<string, string>): (r: seq<Cluster>)
    ensures |r| == |ps|
  {
    seq(|ps|, i requires 0 <= i < |ps| => Compile(ps[i], index, readiness))
  }

  function ClusterKey(c: Cluster): string { c.candidateId }
  function ProposalKey(p: Proposal): string { p.candidateId }

  function Proposals(payload: Option<Payload>): seq<Proposal> {
    if payload.None? then [] else payload.value.topics + payload.value.projects + payload.value.consolidations
  }

  function Compiled(payload: Option<Payload>, r: Records): seq<Cluster> {
    SortBy(CompileAll(Proposals(payload), IndexOf(r), r.readiness), ClusterKey)
  }

  /** `compile_candidate_clusters`. */
  method CompileClusters(payload: Option<Payload>, r: Records) returns (clusters: seq<Cluster>)
    ensures clusters == Compiled(payload, r)
  {
    hide *;
    CompiledIs(payload, r);
    if payload.None? { return []; }
    var index := BuildIndex(r);
    var proposals := Proposals(payload);
    clusters := [];
    MoreClusters(proposals, index, r.readiness, 0);
    for i := 0 to |proposals|
      invariant clusters == CompileAll(proposals[..i], index, r.readiness)
    {
      var p := proposals[i];
      var subjects := index.Subjects(MembersOf(p));
      var statuses := Distribution(index, subjects, STATUS);
      var kinds := Distribution(index, subjects, KIND);
      clusters := clusters + [Lowered(p, Measured(p, index, statuses, kinds), r.readiness)];
      MoreClusters(proposals, index, r.readiness, i);
    }
    assert proposals[..|proposals|] == proposals;
    clusters := SortBy(clusters, ClusterKey);
  }

  lemma {:induction false} CompiledIs(payload: Option<Payload>, r: Records)
    ensures Compiled(payload, r) == SortBy(CompileAll(Proposals(payload), IndexOf(r), r.readiness), ClusterKey)
    ensures payload.None? ==> Compiled(payload, r) == []
  {
    hide IndexOf;
  }

  lemma {:induction false} MoreClusters(ps: seq<Proposal>, index: Index, readiness: map<string, string>, i: nat)
    ensures CompileAll([], index, readiness) == []
    ensures i < |ps| ==>
      var p := ps[i];
      var subjects := SortedIds(index.Subjects(MembersOf(p)));
      CompileAll(ps[..i + 1], index, readiness) == CompileAll(ps[..i], index, readiness)
        + [Lowered(p, Measured(p, index, TallyOver(index, subjects, STATUS), TallyOver(index, subjects, KIND)), readiness)]
  {
    hide *;
    NoneCompiled(index, readiness);
    if i < |ps| {
      CompileUnfolds(ps[i], index, readiness);
      OneMoreCompiled(ps[..i], ps[i], index, readiness);
      assert ps[..i + 1] == ps[..i] + [ps[i]];
    }
  }

  lemma {:induction false} NoneCompiled(index: Index, readiness: map<string, string>)
    ensures CompileAll([], index, readiness) == []
  {
    hide Compile;
    assert |CompileAll([], index, readiness)| == 0;
  }

  lemma {:induction false} OneMoreCompiled(ps: seq<Proposal>, p: Proposal, index: Index, readiness: map<string, string>)
    ensures CompileAll(ps + [p], index, readiness) == CompileAll(ps, index, readiness) + [Compile(p, index, readiness)]
  {
    hide Compile;
  }

  lemma {:induction false} CompileUnfolds(p: Proposal, index: Index, readiness: map<string, string>)
    ensures var subjects := SortedIds(index.Subjects(MembersOf(p)));
      Compile(p, index, readiness)
        == Lowered(p, Measured(p, index, TallyOver(index, subjects, STATUS), TallyOver(index, subjects, KIND)), readiness)
  {
    hide Lowered, Measured, TallyOver, MembersOf, SortedIds, Index.Subjects;
  }

  // ---- What a distribution counts ----

  function Says(predicat: string, o: string): Claim -> bool { (c: Claim) => c.predicat == predicat && c.object_ == o }

  function SaysOf(subjects: set<string>, predicat: string, o: string): Claim -> bool {
    (c: Claim) => c.subject in subjects && c.predicat == predicat && c.object_ == o
  }

  lemma {:induction false} TallyCounts(claims: seq<Claim>, predicat: string, counts: map<string, nat>, o: string)
    ensures CountOf(Tally(claims, predicat, counts), o) == CountOf(counts, o) + |Filter(claims, Says(predicat, o))|
    ensures o in Tally(claims, predicat, counts) <==> o in counts || |Filter(claims, Says(predicat, o))| > 0
  {
    hide Increment, CountOf;
    if claims != [] {
      var n := |claims| - 1;
      TallyCounts(claims[..n], predicat, counts, o);
      assert claims == claims[..n] + [claims[n]];
      FilterSnoc(claims[..n], claims[n], Says(predicat, o));
      CountAfter(Tally(claims[..n], predicat, counts), claims[n].object_, o);
    }
  }

  lemma {:induction false} SplitBySubject(c: Claim, subjects: set<string>, s: string, predicat: string, o: string)
    requires s !in subjects
    ensures SaysOf(subjects + {s}, predicat, o)(c) <==> SaysOf(subjects, predicat, o)(c) || (About(s)(c) && Says(predicat, o)(c))
    ensures !(SaysOf(subjects, predicat, o)(c) && About(s)(c))
  {
  }

  lemma {:induction false} OneMoreSubject(claims: seq<Claim>, subjects: set<string>, s: string, predicat: string, o: string)
    requires s !in subjects
    ensures |Filter(claims, SaysOf(subjects + {s}, predicat, o))| ==
      |Filter(claims, SaysOf(subjects, predicat, o))| + |Filter(Filter(claims, About(s)), Says(predicat, o))|
  {
    hide *;
    if claims == [] {
      NothingKept(SaysOf(subjects + {s}, predicat, o));
      NothingKept(SaysOf(subjects, predicat, o));
      NothingKept(About(s));
      NothingKept(Says(predicat, o));
    } else {
      var n := |claims| - 1;
      var earlier, c := claims[..n], claims[n];
      OneMoreSubject(earlier, subjects, s, predicat, o);
      assert claims == earlier + [c];
      SplitBySubject(c, subjects, s, predicat, o);
      FilterSnoc(earlier, c, SaysOf(subjects + {s}, predicat, o));
      FilterSnoc(earlier, c, SaysOf(subjects, predicat, o));
      FilterSnoc(earlier, c, About(s));
      if About(s)(c) {
        FilterSnoc(Filter(earlier, About(s)), c, Says(predicat, o));
      } else {
        assert Filter(earlier, About(s)) + [] == Filter(earlier, About(s));
      }
    }
  }

  lemma {:induction false} NothingKept(p: Claim -> bool)
    ensures Filter([], p) == []
  {
  }

  lemma {:induction false} NoSubjects(claims: seq<Claim>, predicat: string, o: string)
    ensures Filter(claims, SaysOf({}, predicat, o)) == []
  {
    if claims != [] { NoSubjects(claims[1..], predicat, o); }
  }

  lemma {:induction false} ClaimsOnAre(r: Records, s: string)
    ensures IndexOf(r).ClaimsOn(s) == Filter(r.claims, About(s))
  {
    hide RepositoryOf, CapabilitiesOf, PairsOf, ExternalTargets, ConflictedIn, Filter, InArchive, TypesIn;
    if s !in SubjectsIn(r.claims) { NoneAbout(r.claims, s); }
  }

  /** A distribution counts, for each value, the claims about the subjects that state it, and lists the
      values that occur. */
  lemma {:induction false} DistributionCounts(r: Records, subjects: seq<string>, predicat: string, o: string)
    requires Ascending(subjects)
    ensures var counts, n := TallyOver(IndexOf(r), subjects, predicat), |Filter(r.claims, SaysOf(Distinct(subjects), predicat, o))|;
      CountOf(counts, o) == n && (o in counts <==> n > 0)
  {
    hide *;
    if subjects == [] {
      NothingTallied(IndexOf(r), predicat, o);
      assert Distinct(subjects) == {} by { NoneDistinct(); }
      NoSubjects(r.claims, predicat, o);
    } else {
      var n := |subjects| - 1;
      var s := subjects[n];
      EarlierAscend(subjects);
      DistributionCounts(r, subjects[..n], predicat, o);
      OneMoreSubject(r.claims, Distinct(subjects[..n]), s, predicat, o);
      assert subjects == subjects[..n] + [s];
      DistinctSnoc(subjects[..n], s);
      ClaimsOnAre(r, s);
      TallyCounts(IndexOf(r).ClaimsOn(s), predicat, TallyOver(IndexOf(r), subjects[..n], predicat), o);
      LastTallied(IndexOf(r), subjects, predicat);
    }
  }

  lemma {:induction false} LastTallied(index: Index, subjects: seq<string>, predicat: string)
    requires subjects != []
    ensures var n := |subjects| - 1;
      TallyOver(index, subjects, predicat) == Tally(index.ClaimsOn(subjects[n]), predicat, TallyOver(index, subjects[..n], predicat))
  {
  }

  lemma {:induction false} NoneDistinct()
    ensures Distinct([]) == {}
  {
  }

  lemma {:induction false} NothingTallied(index: Index, predicat: string, o: string)
    ensures CountOf(TallyOver(index, [], predicat), o) == 0 && o !in TallyOver(index, [], predicat)
  {
  }

  lemma {:induction false} EarlierAscend(ids: seq<string>)
    requires Ascending(ids) && ids != []
    ensures Ascending(ids[..|ids| - 1]) && ids[|ids| - 1] !in Distinct(ids[..|ids| - 1])
  {
    var n := |ids| - 1;
    forall i | 0 <= i < n ensures ids[i] != ids[n] { LessTrichotomy(ids[i], ids[n]); }
  }

  // ---- What decides a cluster's class ----

  const LINKING: set<EdgeType> := {DuplicateOf, References, DependsOn, Supersedes}

  /** Some edge that counts as support joins two different members. */
  ghost predicate Linked(members: set<string>, edges: seq<Edge>) { exists t :: t in LINKING && LinkedBy(members, edges, t) }

  ghost predicate LinkedBy(members: set<string>, edges: seq<Edge>, t: EdgeType) {
    exists e :: e in edges && e.edgeType == t && e.source != e.target && e.source in members && e.target in members
  }

  /** A conflict over work status or kind is recorded on a subject of the group. */
  ghost predicate Conflicted(subjects: set<string>, conflicts: seq<Conflict>) {
    exists c :: c in conflicts && c.field in {STATUS, KIND} && c.subject in subjects
  }

  /** Two claims about subjects of the group give different work statuses. */
  ghost predicate Divided(subjects: set<string>, claims: seq<Claim>) {
    exists c, d :: c in claims && d in claims && States(subjects, c) && States(subjects, d) && c.object_ != d.object_
  }

  predicate States(subjects: set<string>, c: Claim) { c.subject in subjects && c.predicat == STATUS }

  /** The members and the repositories that own them. */
  function GroupSubjects(p: Proposal, artifacts: seq<Artifact>): set<string> {
    var members, repositoryOf := MembersOf(p), RepositoryOf(artifacts);
    members + set a | a in repositoryOf && a in members :: repositoryOf[a]
  }

  lemma {:induction false} SubjectsAre(p: Proposal, r: Records)
    ensures IndexOf(r).Subjects(MembersOf(p)) == GroupSubjects(p, r.artifacts)
  {
    hide MembersOf, RepositoryOf, CapabilitiesOf, PairsOf, ExternalTargets, ConflictedIn, Filter, InArchive, TypesIn, SubjectsIn;
  }

  lemma {:induction false} ConflictingIs(p: Proposal, r: Records)
    ensures StructureOf(p, IndexOf(r)).conflicting > 0 <==> Conflicted(GroupSubjects(p, r.artifacts), r.conflicts)
  {
    hide MembersOf, RepositoryOf, CapabilitiesOf, PairsOf, ExternalTargets, Filter, InArchive, TypesIn, SubjectsIn, TallyOver, SortedIds, GroupSubjects;
    SubjectsAre(p, r);
    var both := GroupSubjects(p, r.artifacts) * ConflictedIn(r.conflicts);
    assert StructureOf(p, IndexOf(r)).conflicting == |both|;
    if c :| c in r.conflicts && c.field in {STATUS, KIND} && c.subject in GroupSubjects(p, r.artifacts) { assert c.subject in both; }
    if |both| > 0 { var s :| s in both; }
  }

  lemma {:induction false} TwoKeys(m: map<string, nat>)
    ensures |m| > 1 <==> exists a, b :: a in m && b in m && a != b
  {
    assert |m.Keys| == |m|;
    if a, b :| a in m && b in m && a != b { assert {a, b} <= m.Keys; SubsetSize({a, b}, m.Keys); }
    if |m| > 1 {
      var a :| a in m.Keys;
      assert |m.Keys - {a}| > 0;
      var b :| b in m.Keys - {a};
    }
  }

  lemma {:induction false} DividedIs(p: Proposal, r: Records)
    ensures |StructureOf(p, IndexOf(r)).statuses| > 1 <==> Divided(GroupSubjects(p, r.artifacts), r.claims)
  {
    hide IndexOf, TallyOver, Filter, GroupSubjects, MembersOf;
    var subjects := GroupSubjects(p, r.artifacts);
    SubjectsAre(p, r);
    var ids := SortedIds(subjects);
    hide SortedIds;
    assert Distinct(ids) == subjects;
    var statuses := TallyOver(IndexOf(r), ids, STATUS);
    StatusesAre(p, IndexOf(r));
    TwoKeys(statuses);
    forall o ensures o in statuses <==> exists c :: c in r.claims && States(subjects, c) && c.object_ == o {
      DistributionCounts(r, ids, STATUS, o);
      Stated(r.claims, subjects, o);
    }
    TwoValues(statuses.Keys, subjects, r.claims);
  }

  lemma {:induction false} StatusesAre(p: Proposal, index: Index)
    ensures StructureOf(p, index).statuses == TallyOver(index, SortedIds(index.Subjects(MembersOf(p))), STATUS)
  {
    hide TallyOver, SortedIds, MembersOf;
  }

  lemma {:induction false} Stated(claims: seq<Claim>, subjects: set<string>, o: string)
    ensures |Filter(claims, SaysOf(subjects, STATUS, o))| > 0 <==> exists c :: c in claims && States(subjects, c) && c.object_ == o
  {
    var kept := Filter(claims, SaysOf(subjects, STATUS, o));
    if |kept| > 0 { assert kept[0] in kept; }
    if c :| c in claims && States(subjects, c) && c.object_ == o { assert c in kept; }
  }

  lemma {:induction false} TwoValues(values: set<string>, subjects: set<string>, claims: seq<Claim>)
    requires forall o :: o in values <==> exists c :: c in claims && States(subjects, c) && c.object_ == o
    ensures (exists a, b :: a in values && b in values && a != b) <==> Divided(subjects, claims)
  {
    hide States;
    if a, b :| a in values && b in values && a != b {
      var c :| c in claims && States(subjects, c) && c.object_ == a;
      var d :| d in claims && States(subjects, d) && d.object_ == b;
    }
    if Divided(subjects, claims) {
      var c, d :| c in claims && d in claims && States(subjects, c) && States(subjects, d) && c.object_ != d.object_;
      assert c.object_ in values && d.object_ in values;
    }
  }

  lemma {:induction false} IndexedPairs(r: Records, t: EdgeType)
    ensures IndexOf(r).Pairs(t) == PairsOf(r.edges, t)
  {
    hide RepositoryOf, CapabilitiesOf, ExternalTargets, ConflictedIn, Filter, InArchive, SubjectsIn;
  }

  lemma {:induction false} InternalIs(r: Records, members: set<string>, t: EdgeType)
    ensures |IndexOf(r).Internal(t, members)| > 0 <==> LinkedBy(members, r.edges, t)
  {
    hide IndexOf, Index.Pairs;
    IndexedPairs(r, t);
    var inside := IndexOf(r).Internal(t, members);
    if LinkedBy(members, r.edges, t) {
      var e :| e in r.edges && e.edgeType == t && e.source != e.target && e.source in members && e.target in members;
      PairSize(e.source, e.target);
      assert {e.source, e.target} in PairsOf(r.edges, t);
      assert {e.source, e.target} in inside;
    }
    if |inside| > 0 {
      var pair :| pair in inside;
      var e :| e in r.edges && e.edgeType == t && pair == {e.source, e.target};
      PairSize(e.source, e.target);
    }
  }

  lemma {:induction false} PairSize(a: string, b: string)
    ensures |{a, b}| == if a == b then 1 else 2
  {
    if a == b { assert {a, b} == {a}; }
  }

  lemma {:induction false} SupportCounts(p: Proposal, index: Index)
    ensures var members := MembersOf(p);
      StructureOf(p, index).Support() == |index.Internal(DuplicateOf, members)| + |index.Internal(References, members)|
        + |index.Internal(DependsOn, members)| + |index.Internal(Supersedes, members)|
    ensures StructureOf(p, index).members == |MembersOf(p)|
  {
    hide TallyOver, MembersOf, SortedIds, Index.Internal, Index.Subjects, Index.Pairs;
  }

  lemma {:induction false} LinkedIs(members: set<string>, edges: seq<Edge>)
    ensures Linked(members, edges) <==>
      (LinkedBy(members, edges, DuplicateOf) || LinkedBy(members, edges, References)
       || LinkedBy(members, edges, DependsOn) || LinkedBy(members, edges, Supersedes))
  {
    hide LinkedBy;
  }

  lemma {:induction false} SupportIs(p: Proposal, r: Records)
    ensures StructureOf(p, IndexOf(r)).Support() > 0 <==> Linked(MembersOf(p), r.edges)
    ensures StructureOf(p, IndexOf(r)).members == |MembersOf(p)|
  {
    hide *;
    var members := MembersOf(p);
    SupportCounts(p, IndexOf(r));
    InternalIs(r, members, DuplicateOf);
    InternalIs(r, members, References);
    InternalIs(r, members, DependsOn);
    InternalIs(r, members, Supersedes);
    LinkedIs(members, r.edges);
  }

  lemma {:induction false} FlagsDiffer()
    ensures CONFLICTING != DISCONNECTED && CONFLICTING != CROSS_ROOT && DISCONNECTED != CROSS_ROOT
  {
    assert CONFLICTING[0] == 'c' && DISCONNECTED[1] == 't' && CROSS_ROOT[1] == 'p';
  }

  /** The class a group's records allow it. */
  ghost function ClassAllowed(p: Proposal, r: Records): Class {
    var subjects := GroupSubjects(p, r.artifacts);
    if CONFLICTING in p.flags || Conflicted(subjects, r.conflicts) || Divided(subjects, r.claims) then Class.Weak
    else if DISCONNECTED in p.flags || (|MembersOf(p)| > 1 && !Linked(MembersOf(p), r.edges)) then Weaker(p.class_, Moderate)
    else p.class_
  }

  /** A cluster is weak when its producer or the reconciled claims find its statuses in conflict, at most
      moderate when no explicit edge joins two of its several members, and otherwise as the producer has it. */
  lemma {:induction false} ClassFollowsFromRecords(p: Proposal, r: Records)
    ensures Compile(p, IndexOf(r), r.readiness).class_ == ClassAllowed(p, r)
  {
    hide *;
    ConflictingIs(p, r);
    DividedIs(p, r);
    SupportIs(p, r);
    ClassFrom(p, StructureOf(p, IndexOf(r)), r.readiness);
    CompileIs(p, IndexOf(r), r.readiness);
    AllowedIs(p, r);
  }

  lemma {:induction false} CompileIs(p: Proposal, index: Index, readiness: map<string, string>)
    ensures Compile(p, index, readiness) == Lowered(p, StructureOf(p, index), readiness)
  {
    hide Lowered, StructureOf;
  }

  lemma {:induction false} ClassFrom(p: Proposal, s: Structure, readiness: map<string, string>)
    ensures Lowered(p, s, readiness).class_ ==
      if CONFLICTING in p.flags || s.conflicting > 0 || |s.statuses| > 1 then Class.Weak
      else if DISCONNECTED in p.flags || (s.members > 1 && s.Support() == 0) then Weaker(p.class_, Moderate)
      else p.class_
  {
    hide MembersOf, SortedIds, ConfidenceFor, Structure.Support;
    FlagsDiffer();
  }

  lemma {:induction false} AllowedIs(p: Proposal, r: Records)
    ensures var subjects := GroupSubjects(p, r.artifacts);
      ClassAllowed(p, r) ==
        if CONFLICTING in p.flags || Conflicted(subjects, r.conflicts) || Divided(subjects, r.claims) then Class.Weak
        else if DISCONNECTED in p.flags || (|MembersOf(p)| > 1 && !Linked(MembersOf(p), r.edges)) then Weaker(p.class_, Moderate)
        else p.class_
  {
    hide GroupSubjects, Conflicted, Divided, MembersOf, Linked, Weaker;
  }

  // ---- From proposals to the compiled list ----

  lemma {:induction false} CompileInsert(p: Proposal, ps: seq<Proposal>, index: Index, readiness: map<string, string>)
    requires SortedBy(ps, ProposalKey)
    ensures SortedBy(CompileAll(ps, index, readiness), ClusterKey)
    ensures CompileAll(Insert(p, ps, ProposalKey), index, readiness) ==
      Insert(Compile(p, index, readiness), CompileAll(ps, index, readiness), ClusterKey)
  {
    hide *;
    CompileSorted(ps, index, readiness);
    KeyKept(p, index, readiness);
    var c, all := Compile(p, index, readiness), CompileAll(ps, index, readiness);
    if ps == [] {
      CompileCons(p, ps, index, readiness);
      InsertFirst(p, ps, ProposalKey);
      InsertFirst(c, all, ClusterKey);
      assert [p] + [] == [p];
    } else {
      var rest := CompileAll(ps[1..], index, readiness);
      KeyKept(ps[0], index, readiness);
      assert ps == [ps[0]] + ps[1..];
      CompileCons(ps[0], ps[1..], index, readiness);
      if Leq(ProposalKey(p), ProposalKey(ps[0])) {
        InsertFirst(p, ps, ProposalKey);
        InsertFirst(c, all, ClusterKey);
        CompileCons(p, ps, index, readiness);
      } else {
        InsertLater(p, ps, ProposalKey);
        CompileInsert(p, ps[1..], index, readiness);
        assert all[1..] == rest;
        InsertLater(c, all, ClusterKey);
        CompileCons(ps[0], Insert(p, ps[1..], ProposalKey), index, readiness);
      }
    }
  }

  lemma {:induction false} CompileCons(p: Proposal, ps: seq<Proposal>, index: Index, readiness: map<string, string>)
    ensures CompileAll([p] + ps, index, readiness) == [Compile(p, index, readiness)] + CompileAll(ps, index, readiness)
  {
    hide Compile;
  }

  lemma {:induction false} CompileSorted(ps: seq<Proposal>, index: Index, readiness: map<string, string>)
    requires SortedBy(ps, ProposalKey)
    ensures SortedBy(CompileAll(ps, index, readiness), ClusterKey)
  {
    hide Compile;
    var r := CompileAll(ps, index, readiness);
    forall i, j | 0 <= i < j < |r| ensures Leq(ClusterKey(r[i]), ClusterKey(r[j])) {
      KeyKept(ps[i], index, readiness);
      KeyKept(ps[j], index, readiness);
    }
  }

  lemma {:induction false} KeyKept(p: Proposal, index: Index, readiness: map<string, string>)
    ensures ClusterKey(Compile(p, index, readiness)) == ProposalKey(p)
  {
    hide StructureOf, FlagsOf, ClassFor, SortedIds, ConfidenceFor;
  }

  lemma {:induction false} CompileSort(ps: seq<Proposal>, index: Index, readiness: map<string, string>)
    ensures SortBy(CompileAll(ps, index, readiness), ClusterKey) == CompileAll(SortBy(ps, ProposalKey), index, readiness)
  {
    hide Compile, CompileAll, SortBy;
    if ps == [] {
      assert |CompileAll(ps, index, readiness)| == 0;
    } else {
      CompileSort(ps[1..], index, readiness);
      CompileInsert(ps[0], SortBy(ps[1..], ProposalKey), index, readiness);
      assert ps == [ps[0]] + ps[1..];
      CompileCons(ps[0], ps[1..], index, readiness);
      SortStep(ps[0], ps[1..], ProposalKey);
      SortStep(Compile(ps[0], index, readiness), CompileAll(ps[1..], index, readiness), ClusterKey);
    }
  }

  lemma {:induction false} SortStep<T(!new)>(x: T, xs: seq<T>, key: T -> string)
    ensures SortBy([x] + xs, key) == Insert(x, SortBy(xs, key), key)
  {
    assert ([x] + xs)[1..] == xs;
  }

  function InOrder(payload: Option<Payload>): (r: seq<Proposal>)
    ensures multiset(r) == multiset(Proposals(payload))
  {
    SortBy(Proposals(payload), ProposalKey)
  }

  /** Every proposal becomes one cluster, in the order of their identities whatever the records say. */
  lemma {:induction false} OneClusterEach(payload: Option<Payload>, r: Records)
    ensures |Compiled(payload, r)| == |InOrder(payload)| == |Proposals(payload)|
    ensures forall i :: 0 <= i < |InOrder(payload)| ==> Compiled(payload, r)[i] == Compile(InOrder(payload)[i], IndexOf(r), r.readiness)
  {
    hide Compile, IndexOf, SortBy, Proposals;
    CompileSort(Proposals(payload), IndexOf(r), r.readiness);
  }

  lemma {:induction false} ClassAt(payload: Option<Payload>, r: Records, i: nat)
    requires i < |InOrder(payload)|
    ensures i < |Compiled(payload, r)| && Compiled(payload, r)[i].class_ == ClassAllowed(InOrder(payload)[i], r)
    ensures Compiled(payload, r)[i].candidateId == InOrder(payload)[i].candidateId
  {
    hide *;
    OneClusterEach(payload, r);
    ClassFollowsFromRecords(InOrder(payload)[i], r);
    KeyKept(InOrder(payload)[i], IndexOf(r), r.readiness);
    KeyIs(Compile(InOrder(payload)[i], IndexOf(r), r.readiness), InOrder(payload)[i]);
  }

  lemma {:induction false} KeyIs(c: Cluster, p: Proposal)
    ensures ClusterKey(c) == c.candidateId && ProposalKey(p) == p.candidateId
  {
  }

  /** No cluster is stronger than its producer made it, and none has more than candidate authority. */
  lemma {:induction false} NeverStrongerThanProposed(payload: Option<Payload>, r: Records, i: nat)
    requires i < |InOrder(payload)|
    ensures i < |Compiled(payload, r)|
    ensures var c := Compiled(payload, r)[i];
      && Rank(c.class_) <= Rank(InOrder(payload)[i].class_)
      && c.confidence.authority == Authority.Candidate
      && LevelRank(c.confidence.level) <= (if InOrder(payload)[i].class_ == Strong then 1 else 0)
  {
    hide Compiled, InOrder, IndexOf, Linked, Conflicted, Divided, GroupSubjects, StructureOf, FlagsOf, SortedIds, MembersOf, ClassFor;
    ClassAt(payload, r, i);
    OneClusterEach(payload, r);
  }

  /** Adding edges never weakens a cluster. */
  lemma {:induction false} EdgesNeverWeaken(payload: Option<Payload>, r: Records, edges: seq<Edge>, i: nat)
    requires i < |InOrder(payload)| && forall e :: e in r.edges ==> e in edges
    ensures i < |Compiled(payload, r)| && i < |Compiled(payload, r.(edges := edges))|
    ensures var before, after := Compiled(payload, r)[i], Compiled(payload, r.(edges := edges))[i];
      before.candidateId == after.candidateId && Rank(before.class_) <= Rank(after.class_)
  {
    hide Compiled, InOrder, Conflicted, Divided, GroupSubjects, MembersOf;
    ClassAt(payload, r, i);
    ClassAt(payload, r.(edges := edges), i);
    assert Linked(MembersOf(InOrder(payload)[i]), r.edges) ==> Linked(MembersOf(InOrder(payload)[i]), edges);
  }

  /** Adding claims and conflicts never strengthens one. */
  lemma {:induction false} StatementsNeverStrengthen(payload: Option<Payload>, r: Records, claims: seq<Claim>, conflicts: seq<Conflict>, i: nat)
    requires i < |InOrder(payload)|
    requires (forall c :: c in r.claims ==> c in claims) && (forall c :: c in r.conflicts ==> c in conflicts)
    ensures i < |Compiled(payload, r)| && i < |Compiled(payload, r.(claims := claims, conflicts := conflicts))|
    ensures var before, after := Compiled(payload, r)[i], Compiled(payload, r.(claims := claims, conflicts := conflicts))[i];
      before.candidateId == after.candidateId && Rank(after.class_) <= Rank(before.class_)
  {
    hide Compiled, InOrder, Linked, GroupSubjects, MembersOf, States;
    var more := r.(claims := claims, conflicts := conflicts);
    ClassAt(payload, r, i);
    ClassAt(payload, more, i);
    var subjects := GroupSubjects(InOrder(payload)[i], r.artifacts);
    assert Conflicted(subjects, r.conflicts) ==> Conflicted(subjects, conflicts);
    assert Divided(subjects, r.claims) ==> Divided(subjects, claims);
  }

  predicate SameLink(d: Edge, e: Edge) {
    d.edgeType == e.edgeType && ((d.source == e.source && d.target == e.target) || (d.source == e.target && d.target == e.source))
  }

  /** Edges drawn between no other ends of the same type. */
  ghost predicate DrawnOver(more: seq<Edge>, edges: seq<Edge>) { forall e :: e in more ==> exists d :: d in edges && SameLink(d, e) }

  lemma {:induction false} PairsCovered(edges: seq<Edge>, more: seq<Edge>, t: EdgeType)
    requires DrawnOver(more, edges)
    ensures PairsOf(more, t) <= PairsOf(edges, t)
  {
    forall p | p in PairsOf(more, t) ensures p in PairsOf(edges, t) {
      var e :| e in more && e.edgeType == t && p == {e.source, e.target};
      var d :| d in edges && SameLink(d, e);
      assert {d.source, d.target} == p;
    }
  }

  /** A group's explicit links are counted once for each pair of members, however often and whichever way
      round the edges between them are drawn. */
  lemma {:induction false} LinksAreUndirected(edges: seq<Edge>, more: seq<Edge>, t: EdgeType)
    requires DrawnOver(more, edges) && DrawnOver(edges, more)
    ensures PairsOf(edges, t) == PairsOf(more, t)
  {
    hide DrawnOver;
    PairsCovered(edges, more, t);
    PairsCovered(more, edges, t);
  }
}
