/** Topology facts lowered to durable-memory writes (publication/lowering.py). */
module Lowering {
  import opened Wrappers
  import opened Ordering
  import opened Texts
  import opened CanonicalHash
  import opened Domain
  import opened EffectIdentity

  /** An evidence record as lowering reads it. */
  datatype Support = Support(
    evidenceId: string, class_: string, contentHash: Option<string>, path: Option<string>, uri: Option<string>, revision: Option<string>,
    packetId: string, observedAt: string)

  function SupportKey(x: Support): string { x.evidenceId }

  datatype Policy = Policy(
    namespaceRoot: string, memoryClass: map<string, string>, scoreByLevel: map<Level, Double>, ceiling: map<ConflictStatus, Double>,
    means: map<Derivation, string>, kinds: map<string, string>, trust: map<Authority, Double>, maximumRefs: nat, version: string)

  datatype LoweringError = NoScore | NoCeiling | NoMethod | NoTrust | NoKind(class_: string) | NoEntity | Unstructured

  const LOWERING_VERSION: string := "lowering/v2"
  const REQUIRING: set<string> := {"inferred", "aggregated"}
  const DERIVATION_KINDS: set<string> := {"inference", "aggregation", "source_excerpt"}

  // ---- Digests ----

  predicate Blank(c: char) { c == ' ' || c == '\t' || c == '\n' || c == '\r' }

  function Trimmed(s: string): string {
    if s != "" && Blank(s[0]) then Trimmed(s[1..]) else if s != "" && Blank(s[|s| - 1]) then Trimmed(s[..|s| - 1]) else s
  }

  predicate BareHex(s: string) {
    |s| == 64 && forall i :: 0 <= i < |s| ==> 'a' <= s[i] <= 'f' || '0' <= s[i] <= '9'
  }

  /** `bare_digest`. */
  function BareDigest(value: Option<string>): Option<string> {
    if value.None? then None
    else
      var s := if "sha256:" <= value.value then value.value[7..] else value.value;
      var candidate := Lower(Trimmed(s));
      if BareHex(candidate) then Some(candidate) else None
  }

  // ---- Evidence ----

  /** The path the evidence was read at, or its address; an empty path does not count. */
  function LocatorOf(x: Support): Option<string> {
    if x.path.Some? && x.path.value != "" then x.path else x.uri
  }

  function SemanticsOf(policy: Policy, x: Support): Semantics {
    Semantics(if x.class_ in policy.kinds then policy.kinds[x.class_] else "", BareDigest(x.contentHash), LocatorOf(x))
  }

  function AllSemantics(policy: Policy, xs: seq<Support>): (r: seq<Semantics>)
    ensures |r| == |xs| && forall i :: 0 <= i < |r| ==> r[i] == SemanticsOf(policy, xs[i])
  {
    if xs == [] then [] else AllSemantics(policy, xs[..|xs| - 1]) + [SemanticsOf(policy, xs[|xs| - 1])]
  }

  /** The cited evidence that is known, each once, in ascending order of identity. */
  function Resolved(index: map<string, Support>, refs: seq<string>): seq<Support> {
    InKeyOrder(map ref | ref in index && ref in refs :: index[ref])
  }

  function Kept(policy: Policy, resolved: seq<Support>): seq<Support> {
    if |resolved| <= policy.maximumRefs then resolved else resolved[..policy.maximumRefs]
  }

  /** `_lower_evidence` and `_local_evidence_semantics`: what the write keeps of its evidence. */
  datatype Lowered = Lowered(semantics: seq<Semantics>, count: nat, resolvedIds: seq<string>, truncated: nat, derivation: Option<string>)

  function EvidenceIds(xs: seq<Support>): seq<string> {
    if xs == [] then [] else EvidenceIds(xs[..|xs| - 1]) + [xs[|xs| - 1].evidenceId]
  }

  predicate AllKnown(policy: Policy, xs: seq<Support>) { forall i :: 0 <= i < |xs| ==> xs[i].class_ in policy.kinds }

  /** The kind of evidence the compiler adds for its own derivation, when none kept supports one. */
  function DerivationAdded(semantics: seq<Semantics>, anyResolved: bool, means: string): Option<string> {
    if anyResolved && means in REQUIRING && !AnyDerivation(semantics)
    then Some(if means == "aggregated" then "aggregation" else "inference") else None
  }

  function LowerEvidence(policy: Policy, index: map<string, Support>, refs: seq<string>, means: string): Result<Lowered, LoweringError> {
    var resolved := Resolved(index, refs);
    var kept := Kept(policy, resolved);
    if !AllKnown(policy, kept) then Err(NoKind(FirstUnknown(policy, kept)))
    else
      var semantics := AllSemantics(policy, kept);
      var derivation := DerivationAdded(semantics, resolved != [], means);
      Ok(Lowered(semantics, |kept| + (if derivation.Some? then 1 else 0), EvidenceIds(resolved), |resolved| - |kept|, derivation))
  }

  function FirstUnknown(policy: Policy, xs: seq<Support>): string
    requires !AllKnown(policy, xs)
  {
    if xs[0].class_ !in policy.kinds then xs[0].class_ else FirstUnknown(policy, xs[1..])
  }

  // ---- The lowered fact ----

  function Clamped(r: Double): Double { if r < 0 then 0 else if r > DOUBLE_ONE then DOUBLE_ONE else r }

  function ScoreOf(policy: Policy, a: Confidence): Result<Double, LoweringError> {
    if a.level !in policy.scoreByLevel then Err(NoScore)
    else if a.conflictStatus !in policy.ceiling then Err(NoCeiling)
    else
      var score, ceiling := policy.scoreByLevel[a.level], policy.ceiling[a.conflictStatus];
      Ok(Clamped(if score <= ceiling then score else ceiling))
  }

  function AfterColon(s: string): string {
    if s == "" then "" else if s[0] == ':' then s[1..] else AfterColon(s[1..])
  }

  function Truncated(s: string, n: nat): string { if |s| <= n then s else s[..n] }

  function NamespaceOf(policy: Policy, owner: Option<string>): string {
    var scope := if owner.None? || owner.value == "" then "unscoped"
                 else if ':' in owner.value then AfterColon(owner.value) else owner.value;
    Truncated(policy.namespaceRoot + "/" + (if scope == "" then "unscoped" else scope), 300)
  }

  /** A fact to lower, with everything that bears on it. */
  datatype Request = Request(
    kind: string, entityIds: seq<string>, content: string, assertion: Option<Assertion>, assessment: Confidence, refs: seq<string>)

  datatype LoweredCandidate = LoweredCandidate(
    kind: string, entityIds: seq<string>, resolvedIds: seq<string>, truncated: nat, write: Write, candidateId: string, key: string)

  datatype Surroundings = Surroundings(evidence: map<string, Support>, owners: map<string, string>)

  /** `_build`. */
  function Build(codec: Codec, policy: Policy, around: Surroundings, request: Request): Result<LoweredCandidate, LoweringError>
    requires request.kind in policy.memoryClass
  {
    if request.entityIds == [] then Err(NoEntity)
    else
      var subject := request.entityIds[0];
      var owner := if subject in around.owners then Some(around.owners[subject]) else None;
      if request.assessment.derivation !in policy.means then Err(NoMethod)
      else
        var means := policy.means[request.assessment.derivation];
        var evidence := LowerEvidence(policy, around.evidence, request.refs, means);
        if evidence.Err? then Err(evidence.error)
        else
          var score := ScoreOf(policy, request.assessment);
          if score.Err? then Err(score.error)
          else if request.assessment.authority !in policy.trust then Err(NoTrust)
          else
            var fact := Fact("memory.ingest", request.kind, NamespaceOf(policy, owner), policy.memoryClass[request.kind], request.content,
                             request.assertion, request.entityIds);
            var write := Write(fact, LOWERING_VERSION, evidence.value.semantics,
                               ConfidenceClaim(score.value, means, evidence.value.count, policy.version), evidence.value.derivation);
            Ok(LoweredCandidate(request.kind, request.entityIds, evidence.value.resolvedIds, evidence.value.truncated, write, CandidateId(codec, fact),
                         IdempotencyKey(codec, write)))
  }

  // ---- What a key depends on ----

  /** The two records are the same support: the same kind of evidence from the same bytes in the same place. */
  predicate SameSupport(x: Support, y: Support) {
    x.class_ == y.class_ && BareDigest(x.contentHash) == BareDigest(y.contentHash) && LocatorOf(x) == LocatorOf(y)
  }

  ghost predicate DistinctSupport(xs: seq<Support>) {
    forall i, j :: 0 <= i < j < |xs| ==> xs[i].evidenceId != xs[j].evidenceId
  }

  /** The index and citations resolve to exactly these records. */
  ghost predicate Cites(index: map<string, Support>, refs: seq<string>, xs: seq<Support>) {
    && DistinctSupport(xs)
    && (forall i :: 0 <= i < |xs| ==> xs[i].evidenceId in index && index[xs[i].evidenceId] == xs[i] && xs[i].evidenceId in refs)
    && (forall id :: id in index && id in refs ==> index[id] in xs && index[id].evidenceId == id)
  }

  lemma {:induction false} ResolvedIsSorted(index: map<string, Support>, refs: seq<string>, xs: seq<Support>)
    requires Cites(index, refs, xs)
    ensures Resolved(index, refs) == SortBy(xs, SupportKey)
  {
    hide Resolved;
    var all := set x | x in xs;
    SortByIsListing(xs, all, SupportKey);
    ResolvedInOrder(index, refs, xs);
    ListingUnique(Resolved(index, refs), SortBy(xs, SupportKey), all, SupportKey);
  }

  lemma {:induction false} ResolvedInOrder(index: map<string, Support>, refs: seq<string>, xs: seq<Support>)
    requires Cites(index, refs, xs)
    ensures IsListing(Resolved(index, refs), (set x | x in xs), SupportKey)
  {
    var selected := map ref | ref in index && ref in refs :: index[ref];
    hide InKeyOrder;
    KeyOrderIsListing(selected, (set x | x in xs), SupportKey);
  }

  /** How often some semantics occur is how many records have them. */
  lemma {:induction false} SemanticsCount(policy: Policy, xs: seq<Support>, s: Semantics, has: Support -> bool)
    requires forall x :: has(x) <==> SemanticsOf(policy, x) == s
    ensures multiset(AllSemantics(policy, xs))[s] == |Filter(xs, has)|
  {
    hide SemanticsOf, Filter, AllSemantics;
    NoSemantics(policy, has);
    if xs != [] {
      var n := |xs| - 1;
      var earlier, last := xs[..n], xs[n];
      SemanticsCount(policy, earlier, s, has);
      FilterSnoc(earlier, last, has);
      assert xs == earlier + [last];
      LastSemantics(policy, xs);
      CountSnoc(AllSemantics(policy, earlier), SemanticsOf(policy, last), s);
    } else {
      assert xs == [];
    }
  }

  lemma {:induction false} NoSemantics(policy: Policy, has: Support -> bool)
    ensures AllSemantics(policy, []) == [] && Filter([], has) == []
  {
  }

  lemma {:induction false} LastSemantics(policy: Policy, xs: seq<Support>)
    requires xs != []
    ensures AllSemantics(policy, xs) == AllSemantics(policy, xs[..|xs| - 1]) + [SemanticsOf(policy, xs[|xs| - 1])]
  {
  }

  lemma {:induction false} CountSnoc(a: seq<Semantics>, x: Semantics, s: Semantics)
    ensures multiset(a + [x])[s] == multiset(a)[s] + if x == s then 1 else 0
  {
  }

  /** Rearranging records rearranges their semantics. */
  lemma {:induction false} SemanticsPermute(policy: Policy, xs: seq<Support>, ys: seq<Support>)
    requires multiset(xs) == multiset(ys)
    ensures multiset(AllSemantics(policy, xs)) == multiset(AllSemantics(policy, ys)) && (AllKnown(policy, xs) <==> AllKnown(policy, ys))
  {
    hide SemanticsOf;
    forall s ensures multiset(AllSemantics(policy, xs))[s] == multiset(AllSemantics(policy, ys))[s] {
      var has := x => SemanticsOf(policy, x) == s;
      SemanticsCount(policy, xs, s, has);
      SemanticsCount(policy, ys, s, has);
      FilterPermutes(xs, ys, has);
    }
    forall x ensures x in xs <==> x in ys { SameMembers(xs, ys, x); }
    KnownMembers(policy, xs);
    KnownMembers(policy, ys);
  }

  lemma {:induction false} KnownMembers(policy: Policy, xs: seq<Support>)
    ensures AllKnown(policy, xs) <==> forall x :: x in xs ==> x.class_ in policy.kinds
  {
  }

  lemma {:induction false} SameSupportSameSemantics(policy: Policy, xs: seq<Support>, ys: seq<Support>)
    requires |xs| == |ys| && forall i :: 0 <= i < |xs| ==> SameSupport(xs[i], ys[i])
    ensures AllSemantics(policy, xs) == AllSemantics(policy, ys) && (AllKnown(policy, xs) <==> AllKnown(policy, ys))
  {
  }

  predicate AnyDerivation(a: seq<Semantics>) { exists i :: 0 <= i < |a| && a[i].kind in DERIVATION_KINDS }

  lemma {:induction false} KindsOfBag(a: seq<Semantics>, b: seq<Semantics>)
    requires multiset(a) == multiset(b)
    ensures AnyDerivation(a) ==> AnyDerivation(b)
  {
    if i :| 0 <= i < |a| && a[i].kind in DERIVATION_KINDS {
      SameMembers(a, b, a[i]);
      var j :| 0 <= j < |b| && b[j] == a[i];
    }
  }

  /** What is lowered of evidence none of which is dropped depends on the records' semantics only. */
  lemma {:induction false} LoweredAlike(policy: Policy, a: map<string, Support>, ra: seq<string>, b: map<string, Support>, rb: seq<string>,
                     xs: seq<Support>, ys: seq<Support>, means: string)
    requires Cites(a, ra, xs) && Cites(b, rb, ys) && |xs| == |ys| <= policy.maximumRefs
    requires forall i :: 0 <= i < |xs| ==> SameSupport(xs[i], ys[i])
    requires AllKnown(policy, xs)
    ensures var l, m := LowerEvidence(policy, a, ra, means), LowerEvidence(policy, b, rb, means);
      && l.Ok? && m.Ok? && multiset(l.value.semantics) == multiset(m.value.semantics) && l.value.count == m.value.count
      && l.value.derivation == m.value.derivation && l.value.truncated == 0 && m.value.truncated == 0
  {
    hide Resolved, AllSemantics, SemanticsOf, SameSupport, Cites, AllKnown, BareHex;
    ResolvedIsSorted(a, ra, xs);
    ResolvedIsSorted(b, rb, ys);
    var p, q := Resolved(a, ra), Resolved(b, rb);
    SemanticsPermute(policy, p, xs);
    SemanticsPermute(policy, q, ys);
    SameSupportSameSemantics(policy, xs, ys);
    KindsOfBag(AllSemantics(policy, p), AllSemantics(policy, q));
    KindsOfBag(AllSemantics(policy, q), AllSemantics(policy, p));
  }

  /** Without truncation, reissuing the evidence changes nothing: whatever the identities, revisions, packets
      and times of its records and the order they are cited in, the same support gives the same key. */
  lemma {:induction false} ReissueKeepsKey(
      codec: Codec, policy: Policy, a: Surroundings, b: Surroundings, p: Request, q: Request, xs: seq<Support>, ys: seq<Support>)
    requires codec.Faithful() && p.kind in policy.memoryClass && q == p.(refs := q.refs) && a.owners == b.owners
    requires Cites(a.evidence, p.refs, xs) && Cites(b.evidence, q.refs, ys) && |xs| == |ys| <= policy.maximumRefs
    requires AllKnown(policy, xs) && forall i :: 0 <= i < |xs| ==> SameSupport(xs[i], ys[i])
    ensures var l, m := Build(codec, policy, a, p), Build(codec, policy, b, q);
      if l.Ok? then m.Ok? && l.value.key == m.value.key && l.value.candidateId == m.value.candidateId else m == l
  {
    hide LowerEvidence, Cites, SameSupport, ScoreOf, NamespaceOf, CandidateId, IdempotencyKey, AllKnown;
    if p.assessment.derivation in policy.means {
      LoweredAlike(policy, a.evidence, p.refs, b.evidence, q.refs, xs, ys, policy.means[p.assessment.derivation]);
    }
    var l, m := Build(codec, policy, a, p), Build(codec, policy, b, q);
    if l.Ok? { KeysEqualExactlyWhen(codec, l.value.write, m.value.write); }
  }

  /** Two lowered writes have one key exactly when they state one fact with one confidence and derivation
      on the same kept evidence. */
  lemma {:induction false} LoweredKeysEqualExactlyWhen(codec: Codec, policy: Policy, a: Surroundings, b: Surroundings, p: Request, q: Request)
    requires codec.Faithful() && p.kind in policy.memoryClass && q.kind in policy.memoryClass
    requires Build(codec, policy, a, p).Ok? && Build(codec, policy, b, q).Ok?
    ensures var w, v := Build(codec, policy, a, p).value, Build(codec, policy, b, q).value;
      && (w.candidateId == v.candidateId <==> w.write.fact == v.write.fact)
      && (w.key == v.key <==>
            w.write.fact == v.write.fact && w.write.confidence == v.write.confidence && w.write.derivation == v.write.derivation
            && multiset(w.write.evidence) == multiset(v.write.evidence))
  {
    hide LowerEvidence, ScoreOf, NamespaceOf, CandidateId, IdempotencyKey;
    var w, v := Build(codec, policy, a, p).value, Build(codec, policy, b, q).value;
    KeysEqualExactlyWhen(codec, w.write, v.write);
    if w.candidateId == v.candidateId { CandidateIdIdentifies(codec, w.write.fact, v.write.fact); }
  }

  // ---- Under truncation ----

  /** What a write keeps of these records, whichever way they are listed. */
  function KeptSemantics(policy: Policy, xs: seq<Support>): seq<Semantics> {
    AllSemantics(policy, Kept(policy, SortBy(xs, SupportKey)))
  }

  lemma {:induction false} LoweredAre(policy: Policy, index: map<string, Support>, refs: seq<string>, xs: seq<Support>, means: string)
    requires Cites(index, refs, xs) && LowerEvidence(policy, index, refs, means).Ok?
    ensures var l, kept := LowerEvidence(policy, index, refs, means).value, KeptSemantics(policy, xs);
      l.semantics == kept && l.derivation == DerivationAdded(kept, xs != [], means) && l.count == |kept| + (if l.derivation.Some? then 1 else 0)
  {
    hide Resolved, AllSemantics, SemanticsOf, Cites, AllKnown, SortBy, DerivationAdded;
    ResolvedIsSorted(index, refs, xs);
  }

  lemma {:induction false} SameBagLoweredAlike(a: seq<Semantics>, b: seq<Semantics>, any: bool, means: string)
    requires multiset(a) == multiset(b)
    ensures DerivationAdded(a, any, means) == DerivationAdded(b, any, means) && |a| == |b|
  {
    hide AnyDerivation;
    KindsOfBag(a, b);
    KindsOfBag(b, a);
    assert |multiset(a)| == |a| && |multiset(b)| == |b|;
  }

  /** Truncated or not, evidence that is reissued under other identities, revisions, packets, times and order
      of citation gives the same key exactly when what is kept of it, once put in order of identity, is the
      same bag of semantics. */
  lemma {:induction false} ReissueKeepsKeyExactlyWhen(
      codec: Codec, policy: Policy, a: Surroundings, b: Surroundings, p: Request, q: Request, xs: seq<Support>, ys: seq<Support>)
    requires codec.Faithful() && p.kind in policy.memoryClass && q == p.(refs := q.refs) && a.owners == b.owners
    requires Cites(a.evidence, p.refs, xs) && Cites(b.evidence, q.refs, ys) && (xs == [] <==> ys == [])
    requires Build(codec, policy, a, p).Ok? && Build(codec, policy, b, q).Ok?
    ensures Build(codec, policy, a, p).value.key == Build(codec, policy, b, q).value.key <==>
      multiset(KeptSemantics(policy, xs)) == multiset(KeptSemantics(policy, ys))
  {
    hide LowerEvidence, Cites, ScoreOf, NamespaceOf, CandidateId, IdempotencyKey, KeptSemantics, DerivationAdded;
    var means := policy.means[p.assessment.derivation];
    LoweredAre(policy, a.evidence, p.refs, xs, means);
    LoweredAre(policy, b.evidence, q.refs, ys, means);
    LoweredKeysEqualExactlyWhen(codec, policy, a, b, p, q);
    if multiset(KeptSemantics(policy, xs)) == multiset(KeptSemantics(policy, ys)) {
      SameBagLoweredAlike(KeptSemantics(policy, xs), KeptSemantics(policy, ys), xs != [], means);
    }
  }

  const FIRST: Support := Support("evidence:a", "observed", None, Some("one"), None, None, "packet", "")
  const SECOND: Support := Support("evidence:b", "observed", None, Some("two"), None, None, "packet", "")

  /** The same two records, their identities exchanged. */
  function Exchanged(): map<string, Support> { map["evidence:a" := SECOND.(evidenceId := "evidence:a"), "evidence:b" := FIRST.(evidenceId := "evidence:b")] }

  function Original(): map<string, Support> { map["evidence:a" := FIRST, "evidence:b" := SECOND] }

  /** With room for one record only, merely exchanging the names of two records that differ changes what is
      kept, and so the key. */
  lemma {:induction false} TruncationBindsIdentities(codec: Codec, policy: Policy, p: Request)
    requires codec.Faithful() && policy.maximumRefs == 1 && p.kind in policy.memoryClass && p.refs == ["evidence:a", "evidence:b"]
    requires Build(codec, policy, Surroundings(Original(), map[]), p).Ok? && Build(codec, policy, Surroundings(Exchanged(), map[]), p).Ok?
    ensures Build(codec, policy, Surroundings(Original(), map[]), p).value.key != Build(codec, policy, Surroundings(Exchanged(), map[]), p).value.key
  {
    hide Build, SemanticsOf, CandidateId, IdempotencyKey, Original, Exchanged;
    var a, b := Surroundings(Original(), map[]), Surroundings(Exchanged(), map[]);
    LoweredKeysEqualExactlyWhen(codec, policy, a, b, p, p);
    OriginalIs();
    FirstIsKept(codec, policy, Original(), p, [FIRST, SECOND]);
    FirstIsKept(codec, policy, Exchanged(), p, [SECOND.(evidenceId := "evidence:a"), FIRST.(evidenceId := "evidence:b")]);
    DifferentPaths(policy);
    var x, y := SemanticsOf(policy, FIRST), SemanticsOf(policy, SECOND.(evidenceId := "evidence:a"));
    assert multiset([x])[x] == 1 && multiset([y])[x] == 0;
  }

  function SmallPolicy(): Policy {
    Policy(
      "topology", map["claim" := "semantic"], map[Low := 1], map[NoConflict := 1], map[Declared := "source_asserted"],
      map["observed" := "source_excerpt"], map[Source := 1], 1, "1.0.0")
  }

  function SmallRequest(): Request {
    Request("claim", ["repo:a"], "text", None, Confidence(Low, Direct, Declared, Source, Complete, NoConflict), ["evidence:a", "evidence:b"])
  }

  lemma {:induction false} SmallFits()
    ensures var policy, p := SmallPolicy(), SmallRequest();
      && policy.maximumRefs == 1 && p.kind in policy.memoryClass && p.refs == ["evidence:a", "evidence:b"] && p.entityIds != []
      && p.assessment.derivation in policy.means && p.assessment.authority in policy.trust
      && p.assessment.level in policy.scoreByLevel && p.assessment.conflictStatus in policy.ceiling && "observed" in policy.kinds
  {
  }

  /** A policy and a request for which both writes are lowered, and their keys differ. */
  lemma {:induction false} TruncationWitness(codec: Codec) returns (policy: Policy, p: Request)
    requires codec.Faithful()
    ensures policy.maximumRefs == 1 && p.kind in policy.memoryClass && p.refs == ["evidence:a", "evidence:b"]
    ensures var l, m := Build(codec, policy, Surroundings(Original(), map[]), p), Build(codec, policy, Surroundings(Exchanged(), map[]), p);
      l.Ok? && m.Ok? && l.value.key != m.value.key
  {
    hide *;
    policy, p := SmallPolicy(), SmallRequest();
    SmallFits();
    BothLowered(policy, p.refs);
    BuildSucceeds(codec, policy, Surroundings(Original(), map[]), p);
    BuildSucceeds(codec, policy, Surroundings(Exchanged(), map[]), p);
    TruncationBindsIdentities(codec, policy, p);
  }

  lemma {:induction false} BuildSucceeds(codec: Codec, policy: Policy, around: Surroundings, p: Request)
    requires p.kind in policy.memoryClass && p.entityIds != [] && p.assessment.derivation in policy.means && p.assessment.authority in policy.trust
    requires p.assessment.level in policy.scoreByLevel && p.assessment.conflictStatus in policy.ceiling
    requires LowerEvidence(policy, around.evidence, p.refs, policy.means[p.assessment.derivation]).Ok?
    ensures Build(codec, policy, around, p).Ok?
  {
    hide LowerEvidence, NamespaceOf, CandidateId, IdempotencyKey;
  }

  lemma {:induction false} BothLowered(policy: Policy, refs: seq<string>)
    requires policy.maximumRefs == 1 && refs == ["evidence:a", "evidence:b"] && "observed" in policy.kinds
    ensures forall means :: LowerEvidence(policy, Original(), refs, means).Ok? && LowerEvidence(policy, Exchanged(), refs, means).Ok?
  {
    hide LowerEvidence, Original, Exchanged;
    OriginalIs();
    OneLowered(policy, Original(), refs, [FIRST, SECOND]);
    OneLowered(policy, Exchanged(), refs, [SECOND.(evidenceId := "evidence:a"), FIRST.(evidenceId := "evidence:b")]);
  }

  lemma {:induction false} OneLowered(policy: Policy, index: map<string, Support>, refs: seq<string>, xs: seq<Support>)
    requires policy.maximumRefs == 1 && refs == ["evidence:a", "evidence:b"]
    requires |xs| == 2 && xs[0].evidenceId == "evidence:a" && xs[1].evidenceId == "evidence:b" && xs[0].class_ in policy.kinds
    requires index == map["evidence:a" := xs[0], "evidence:b" := xs[1]]
    ensures forall means :: LowerEvidence(policy, index, refs, means).Ok?
  {
    hide LowerEvidence, Resolved, Cites, SortBy;
    TwoCited(index, refs, xs);
    ResolvedIsSorted(index, refs, xs);
    TwoSorted(xs);
    KnownKept(policy, index, refs, xs);
  }

  lemma {:induction false} KnownKept(policy: Policy, index: map<string, Support>, refs: seq<string>, xs: seq<Support>)
    requires |xs| == 2 && Resolved(index, refs) == xs && policy.maximumRefs == 1 && xs[0].class_ in policy.kinds
    ensures forall means :: LowerEvidence(policy, index, refs, means).Ok?
  {
    hide Resolved, AllSemantics, EvidenceIds, DerivationAdded;
    assert Kept(policy, xs) == [xs[0]];
  }

  lemma {:induction false} OriginalIs()
    ensures Original() == map["evidence:a" := FIRST, "evidence:b" := SECOND]
    ensures Exchanged() == map["evidence:a" := SECOND.(evidenceId := "evidence:a"), "evidence:b" := FIRST.(evidenceId := "evidence:b")]
  {
  }

  lemma {:induction false} DifferentPaths(policy: Policy)
    ensures SemanticsOf(policy, FIRST) != SemanticsOf(policy, SECOND.(evidenceId := "evidence:a"))
  {
    assert "one"[0] != "two"[0];
  }

  lemma {:induction false} FirstIsKept(codec: Codec, policy: Policy, index: map<string, Support>, p: Request, xs: seq<Support>)
    requires policy.maximumRefs == 1 && p.kind in policy.memoryClass && p.refs == ["evidence:a", "evidence:b"]
    requires |xs| == 2 && xs[0].evidenceId == "evidence:a" && xs[1].evidenceId == "evidence:b"
    requires index == map["evidence:a" := xs[0], "evidence:b" := xs[1]]
    ensures var l := Build(codec, policy, Surroundings(index, map[]), p); l.Ok? ==> l.value.write.evidence == [SemanticsOf(policy, xs[0])]
  {
    hide LowerEvidence, ScoreOf, NamespaceOf, CandidateId, IdempotencyKey, SemanticsOf;
    FirstIsLowered(policy, index, p.refs, xs);
  }

  lemma {:induction false} FirstIsLowered(policy: Policy, index: map<string, Support>, refs: seq<string>, xs: seq<Support>)
    requires policy.maximumRefs == 1 && refs == ["evidence:a", "evidence:b"]
    requires |xs| == 2 && xs[0].evidenceId == "evidence:a" && xs[1].evidenceId == "evidence:b"
    requires index == map["evidence:a" := xs[0], "evidence:b" := xs[1]]
    ensures forall means :: var l := LowerEvidence(policy, index, refs, means); l.Ok? ==> l.value.semantics == [SemanticsOf(policy, xs[0])]
  {
    hide LowerEvidence, SemanticsOf, Resolved, Cites, SortBy;
    TwoCited(index, refs, xs);
    ResolvedIsSorted(index, refs, xs);
    TwoSorted(xs);
    OneKept(policy, index, refs, xs);
  }

  lemma {:induction false} TwoCited(index: map<string, Support>, refs: seq<string>, xs: seq<Support>)
    requires |xs| == 2 && xs[0].evidenceId == "evidence:a" && xs[1].evidenceId == "evidence:b" && refs == ["evidence:a", "evidence:b"]
    requires index == map["evidence:a" := xs[0], "evidence:b" := xs[1]]
    ensures Cites(index, refs, xs)
  {
    assert "evidence:a"[9] != "evidence:b"[9];
    assert refs[0] in refs && refs[1] in refs;
  }

  lemma {:induction false} TwoSorted(xs: seq<Support>)
    requires |xs| == 2 && xs[0].evidenceId == "evidence:a" && xs[1].evidenceId == "evidence:b"
    ensures SortBy(xs, SupportKey) == xs
  {
    var a, b := "evidence:a", "evidence:b";
    CommonStart("evidence:", "a", "b");
    assert a == "evidence:" + "a" && b == "evidence:" + "b";
    assert Leq("a", "b");
    SortPair(xs[0], xs[1]);
    assert xs == [xs[0], xs[1]];
  }

  lemma {:induction false} SortPair(x: Support, y: Support)
    requires Leq(x.evidenceId, y.evidenceId)
    ensures SortBy([x, y], SupportKey) == [x, y]
  {
    hide Leq;
    assert [x, y][1..] == [y] && [y][1..] == [];
    assert SortBy([y], SupportKey) == [y];
    InsertFirst(x, [y], SupportKey);
  }

  lemma {:induction false} CommonStart(p: string, a: string, b: string)
    ensures Leq(p + a, p + b) <==> Leq(a, b)
  {
    if p == "" {
      assert p + a == a && p + b == b;
    } else {
      assert (p + a)[1..] == p[1..] + a && (p + b)[1..] == p[1..] + b;
      CommonStart(p[1..], a, b);
    }
  }

  lemma {:induction false} OneKept(policy: Policy, index: map<string, Support>, refs: seq<string>, xs: seq<Support>)
    requires |xs| == 2 && Resolved(index, refs) == xs && policy.maximumRefs == 1
    ensures forall means :: var l := LowerEvidence(policy, index, refs, means); l.Ok? ==> l.value.semantics == [SemanticsOf(policy, xs[0])]
  {
    hide Resolved, SemanticsOf;
    assert Kept(policy, xs) == [xs[0]];
    assert AllSemantics(policy, [xs[0]]) == [SemanticsOf(policy, xs[0])];
  }
}
