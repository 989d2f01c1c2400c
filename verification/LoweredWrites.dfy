/** What a lowered write says and rests on, read off its request, the policy and the evidence
    (publication/lowering.py). */
module LoweredWrites {
  import opened Wrappers
  import opened Ordering
  import opened Texts
  import opened CanonicalHash
  import opened Domain
  import opened EffectIdentity
  import opened Lowering

  /** The identities of the known evidence a request cites. */
  ghost function KnownRefs(evidence: map<string, Lowering.Support>, refs: seq<string>): set<string> {
    set ref | ref in refs && ref in evidence
  }

  /** The evidence a write keeps: the known records cited, in order of identity, as many as the policy allows. */
  ghost function KeptRefs(policy: Policy, evidence: map<string, Lowering.Support>, refs: seq<string>): (r: seq<string>)
    ensures |r| == if |KnownRefs(evidence, refs)| <= policy.maximumRefs then |KnownRefs(evidence, refs)| else policy.maximumRefs
  {
    var ids := SortedIds(KnownRefs(evidence, refs));
    if |ids| <= policy.maximumRefs then ids else ids[..policy.maximumRefs]
  }

  lemma {:induction false} ResolvedAre(index: map<string, Lowering.Support>, refs: seq<string>)
    ensures var ids, r := SortedIds(KnownRefs(index, refs)), Resolved(index, refs);
      |r| == |ids| && forall i :: 0 <= i < |r| ==> ids[i] in index && r[i] == index[ids[i]]
  {
    var selected := map ref | ref in index && ref in refs :: index[ref];
    assert selected.Keys == KnownRefs(index, refs);
  }

  lemma {:induction false} KeptAre(policy: Policy, index: map<string, Lowering.Support>, refs: seq<string>)
    ensures var ids, kept := KeptRefs(policy, index, refs), Kept(policy, Resolved(index, refs));
      |kept| == |ids| && forall i :: 0 <= i < |kept| ==> ids[i] in index && kept[i] == index[ids[i]]
  {
    hide Resolved, KnownRefs;
    ResolvedAre(index, refs);
  }

  // ---- When a fact can be lowered ----

  /** The policy has an answer to everything the fact raises. */
  ghost predicate Lowerable(policy: Policy, around: Surroundings, p: Request) {
    && p.entityIds != [] && p.assessment.derivation in policy.means && p.assessment.level in policy.scoreByLevel
    && p.assessment.conflictStatus in policy.ceiling && p.assessment.authority in policy.trust
    && (forall id :: id in KeptRefs(policy, around.evidence, p.refs) ==> id in around.evidence && around.evidence[id].class_ in policy.kinds)
  }

  lemma {:induction false} KnownExactly(policy: Policy, index: map<string, Lowering.Support>, refs: seq<string>)
    ensures AllKnown(policy, Kept(policy, Resolved(index, refs))) <==>
      forall id :: id in KeptRefs(policy, index, refs) ==> id in index && index[id].class_ in policy.kinds
  {
    hide Resolved, KeptRefs, Kept;
    KeptAre(policy, index, refs);
    var ids, kept := KeptRefs(policy, index, refs), Kept(policy, Resolved(index, refs));
    if forall id :: id in ids ==> id in index && index[id].class_ in policy.kinds {
      forall i | 0 <= i < |kept| ensures kept[i].class_ in policy.kinds {
        assert ids[i] in ids;
      }
    }
  }

  /** A fact is lowered exactly when the policy can answer for it. */
  lemma {:induction false} LoweredExactlyWhen(codec: Codec, policy: Policy, around: Surroundings, p: Request)
    requires p.kind in policy.memoryClass
    ensures Build(codec, policy, around, p).Ok? <==> Lowerable(policy, around, p)
  {
    hide Resolved, Kept, KeptRefs, AllKnown, AllSemantics, EvidenceIds, DerivationAdded, NamespaceOf, CandidateId, IdempotencyKey, Clamped;
    KnownExactly(policy, around.evidence, p.refs);
  }

  // ---- Confidence ----

  /** The score is the greatest from zero to one that is neither above what the level gives nor above the
      ceiling of the conflict; zero when there is none. */
  lemma {:induction false} ScoreIsCapped(codec: Codec, policy: Policy, around: Surroundings, p: Request, r: Double)
    requires p.kind in policy.memoryClass && Build(codec, policy, around, p).Ok?
    ensures p.assessment.level in policy.scoreByLevel && p.assessment.conflictStatus in policy.ceiling
    ensures var score, given, ceiling :=
        Build(codec, policy, around, p).value.write.confidence.score, policy.scoreByLevel[p.assessment.level],
        policy.ceiling[p.assessment.conflictStatus];
      && 0 <= score <= DOUBLE_ONE
      && (if given < 0 || ceiling < 0 then score == 0 else score <= given && score <= ceiling)
      && (0 <= r <= DOUBLE_ONE && r <= given && r <= ceiling ==> r <= score)
  {
    hide LowerEvidence, NamespaceOf, CandidateId, IdempotencyKey;
  }

  // ---- Evidence ----

  /** Evidence of one of these kinds already accounts for a derivation. */
  ghost predicate Derives(kind: string) { kind == "inference" || kind == "aggregation" || kind == "source_excerpt" }

  lemma {:induction false} EvidenceIdsAre(xs: seq<Lowering.Support>)
    ensures |EvidenceIds(xs)| == |xs| && forall i :: 0 <= i < |xs| ==> EvidenceIds(xs)[i] == xs[i].evidenceId
  {
    if xs != [] { EvidenceIdsAre(xs[..|xs| - 1]); }
  }

  /** A write cites exactly the known evidence of its request, and keeps the first of it by identity: each item
      with the kind its class has under the policy, and what is cut off is counted. */
  lemma {:induction false} WriteKeepsItsEvidence(codec: Codec, policy: Policy, around: Surroundings, p: Request)
    requires p.kind in policy.memoryClass && Build(codec, policy, around, p).Ok?
    requires forall id :: id in around.evidence ==> around.evidence[id].evidenceId == id
    ensures var l, known, kept :=
        Build(codec, policy, around, p).value, KnownRefs(around.evidence, p.refs), KeptRefs(policy, around.evidence, p.refs);
      && l.resolvedIds == SortedIds(known) && |l.write.evidence| == |kept| && l.truncated == |known| - |kept|
      && (forall i :: 0 <= i < |kept| ==>
            kept[i] in around.evidence && around.evidence[kept[i]].class_ in policy.kinds
            && l.write.evidence[i].kind == policy.kinds[around.evidence[kept[i]].class_])
      && l.write.confidence.evidenceCount == |kept| + (if l.write.derivation.Some? then 1 else 0)
  {
    hide Resolved, Kept, KeptRefs, KnownRefs, EvidenceIds, DerivationAdded, NamespaceOf, CandidateId, IdempotencyKey, ScoreOf, BareDigest, LocatorOf;
    KnownExactly(policy, around.evidence, p.refs);
    KeptAre(policy, around.evidence, p.refs);
    ResolvedAre(around.evidence, p.refs);
    EvidenceIdsAre(Resolved(around.evidence, p.refs));
    var l, kept := Build(codec, policy, around, p).value, KeptRefs(policy, around.evidence, p.refs);
    assert l.resolvedIds == SortedIds(KnownRefs(around.evidence, p.refs));
    forall i | 0 <= i < |kept| ensures kept[i] in kept {
    }
  }

  /** Whether any known evidence is cited decides whether a write names any. */
  lemma {:induction false} NamesEvidenceExactlyWhen(codec: Codec, policy: Policy, around: Surroundings, p: Request)
    requires p.kind in policy.memoryClass && Build(codec, policy, around, p).Ok?
    ensures Build(codec, policy, around, p).value.resolvedIds == [] <==> KnownRefs(around.evidence, p.refs) == {}
  {
    hide Resolved, Kept, KnownRefs, EvidenceIds, DerivationAdded, NamespaceOf, CandidateId, IdempotencyKey, ScoreOf, AllSemantics, AllKnown;
    ResolvedAre(around.evidence, p.refs);
    EvidenceIdsAre(Resolved(around.evidence, p.refs));
  }

  /** The compiler adds its own derivation exactly to a fact that was inferred or aggregated from known
      evidence none of which, as far as it is kept, accounts for that. */
  lemma {:induction false} DerivationAddedExactlyWhen(codec: Codec, policy: Policy, around: Surroundings, p: Request)
    requires p.kind in policy.memoryClass && Build(codec, policy, around, p).Ok?
    ensures p.assessment.derivation in policy.means
    ensures var w, means := Build(codec, policy, around, p).value.write, policy.means[p.assessment.derivation];
      && (w.derivation == Some("aggregation") || w.derivation == Some("inference") || w.derivation == None)
      && (w.derivation == Some("aggregation") <==> means == "aggregated" && NeedsDerivation(w, around, p))
      && (w.derivation == Some("inference") <==> means == "inferred" && NeedsDerivation(w, around, p))
  {
    hide Resolved, KnownRefs, LowerEvidence, NamespaceOf, CandidateId, IdempotencyKey, ScoreOf, DerivationAdded, Derives;
    ResolvedAre(around.evidence, p.refs);
    var w, means := Build(codec, policy, around, p).value.write, policy.means[p.assessment.derivation];
    LoweredDerivation(policy, around.evidence, p.refs, means);
    AddedExactly(w.evidence, Resolved(around.evidence, p.refs) != [], means);
  }

  lemma {:induction false} LoweredDerivation(policy: Policy, index: map<string, Lowering.Support>, refs: seq<string>, means: string)
    requires LowerEvidence(policy, index, refs, means).Ok?
    ensures var l := LowerEvidence(policy, index, refs, means).value;
      l.derivation == DerivationAdded(l.semantics, Resolved(index, refs) != [], means)
  {
    hide Resolved, Kept, AllKnown, AllSemantics, EvidenceIds, DerivationAdded;
  }

  lemma {:induction false} AddedExactly(a: seq<Semantics>, any: bool, means: string)
    ensures var added, needed := DerivationAdded(a, any, means), any && forall i :: 0 <= i < |a| ==> !Derives(a[i].kind);
      && (added == Some("aggregation") || added == Some("inference") || added == None)
      && (added == Some("aggregation") <==> means == "aggregated" && needed)
      && (added == Some("inference") <==> means == "inferred" && needed)
  {
    assert "aggregation"[0] == 'a' && "inference"[0] == 'i' && "aggregated"[0] == 'a' && "inferred"[0] == 'i';
    assert AnyDerivation(a) <==> exists i :: 0 <= i < |a| && Derives(a[i].kind);
  }

  ghost predicate NeedsDerivation(w: Write, around: Surroundings, p: Request) {
    KnownRefs(around.evidence, p.refs) != {} && forall i :: 0 <= i < |w.evidence| ==> !Derives(w.evidence[i].kind)
  }

  // ---- What is written ----

  /** A write states the fact it was asked to state, in the memory its kind belongs to. */
  lemma {:induction false} WriteStatesItsRequest(codec: Codec, policy: Policy, around: Surroundings, p: Request)
    requires p.kind in policy.memoryClass && Build(codec, policy, around, p).Ok?
    ensures p.assessment.derivation in policy.means
    ensures var l := Build(codec, policy, around, p).value;
      && l.kind == l.write.fact.kind == p.kind && l.entityIds == l.write.fact.entityIds == p.entityIds
      && l.write.fact.operation == "memory.ingest" && l.write.fact.content == p.content && l.write.fact.assertion == p.assertion
      && l.write.fact.memoryClass == policy.memoryClass[p.kind] && l.write.confidence.means == policy.means[p.assessment.derivation]
      && l.write.confidence.policyVersion == policy.version
      && l.candidateId == CandidateId(codec, l.write.fact) && l.key == IdempotencyKey(codec, l.write)
  {
    hide LowerEvidence, ScoreOf, NamespaceOf, CandidateId, IdempotencyKey;
  }

  lemma {:induction false} AfterFirstColon(scheme: string, name: string)
    requires ':' !in scheme
    ensures AfterColon(scheme + ":" + name) == name
  {
    var s := scheme + ":" + name;
    if scheme == "" {
      assert s[1..] == name;
    } else {
      assert s[0] == scheme[0] && scheme[0] in scheme;
      assert s[1..] == scheme[1..] + ":" + name;
      AfterFirstColon(scheme[1..], name);
    }
  }

  /** A write goes to the part of the namespace that its owner is called by, without the owner's scheme; a fact
      nobody owns is unscoped. */
  lemma {:induction false} NamespaceIsTheOwners(
      codec: Codec, policy: Policy, around: Surroundings, p: Request, scheme: string, name: string)
    requires p.kind in policy.memoryClass && Build(codec, policy, around, p).Ok?
    requires ':' !in scheme
    ensures p.entityIds != []
    ensures var namespace := Build(codec, policy, around, p).value.write.fact.namespace;
      && (p.entityIds[0] in around.owners && around.owners[p.entityIds[0]] == scheme + ":" + name ==>
            namespace == Truncated(policy.namespaceRoot + "/" + (if name == "" then "unscoped" else name), 300))
      && (p.entityIds[0] !in around.owners ==> namespace == Truncated(policy.namespaceRoot + "/" + "unscoped", 300))
  {
    hide LowerEvidence, ScoreOf, CandidateId, IdempotencyKey, AfterColon;
    AfterFirstColon(scheme, name);
    var owner := scheme + ":" + name;
    assert owner[|scheme|] == ':';
  }

  // ---- Digests and locators ----

  ghost predicate IsDigest(d: string) { |d| == 64 && forall i :: 0 <= i < |d| ==> '0' <= d[i] <= '9' || 'a' <= d[i] <= 'f' }

  ghost predicate AllBlank(s: string) { forall i :: 0 <= i < |s| ==> s[i] == ' ' || s[i] == '\t' || s[i] == '\n' || s[i] == '\r' }

  ghost predicate Around(s: string, before: string, core: string, after: string) {
    s == before + core + after && AllBlank(before) && AllBlank(after)
  }

  /** The value is this digest, in whatever case, with or without its prefix and blanks around it. */
  ghost predicate Denotes(value: string, d: string) {
    IsDigest(d) && exists rest, before, core, after :: (value == rest || value == "sha256:" + rest) && Around(rest, before, core, after) && Lower(core) == d
  }

  lemma {:induction false} LowerAt(s: string)
    ensures |Lower(s)| == |s|
    ensures forall i :: 0 <= i < |s| ==> Lower(s)[i] == if 'A' <= s[i] <= 'Z' then ((s[i] as int) + 32) as char else s[i]
  {
    if s != "" { LowerAt(s[1..]); }
  }

  lemma {:induction false} Trims(before: string, core: string, after: string)
    requires AllBlank(before) && AllBlank(after) && core != "" && !Blank(core[0]) && !Blank(core[|core| - 1])
    ensures Trimmed(before + core + after) == core
    decreases |before| + |after|
  {
    var s := before + core + after;
    if before != "" {
      assert s[1..] == before[1..] + core + after;
      Trims(before[1..], core, after);
    } else if after != "" {
      assert s[..|s| - 1] == before + core + after[..|after| - 1];
      Trims(before, core, after[..|after| - 1]);
    } else {
      assert s == core;
    }
  }

  lemma {:induction false} TrimSplits(s: string) returns (before: string, after: string)
    ensures Around(s, before, Trimmed(s), after)
  {
    before, after := "", "";
    if s != "" && Blank(s[0]) {
      before, after := TrimSplits(s[1..]);
      before := [s[0]] + before;
      assert s == [s[0]] + s[1..];
    } else if s != "" && Blank(s[|s| - 1]) {
      before, after := TrimSplits(s[..|s| - 1]);
      after := after + [s[|s| - 1]];
      assert s == s[..|s| - 1] + [s[|s| - 1]];
    }
  }

  /** A content hash is kept as a bare digest exactly when it denotes one. */
  lemma {:induction false} DigestExactlyWhen(value: string, d: string)
    ensures BareDigest(Some(value)) == Some(d) <==> Denotes(value, d)
    ensures BareDigest(None) == None
  {
    hide Lower, Trimmed, Blank;
    var rest := if "sha256:" <= value then value[7..] else value;
    if BareDigest(Some(value)) == Some(d) {
      var before, after := TrimSplits(rest);
      assert value == rest || value == "sha256:" + rest;
      assert Around(rest, before, Trimmed(rest), after) && Lower(Trimmed(rest)) == d;
    }
    if Denotes(value, d) {
      var own, before, core, after :|
        (value == own || value == "sha256:" + own) && Around(own, before, core, after) && Lower(core) == d;
      DigestEnds(before, core, after, d);
      assert own == before + core + after;
      assert value == "sha256:" + own ==> value[7..] == own;
      assert value == own ==> !("sha256:" <= value);
      assert rest == own;
    }
  }

  lemma {:induction false} DigestEnds(before: string, core: string, after: string, d: string)
    requires AllBlank(before) && AllBlank(after) && Lower(core) == d && IsDigest(d)
    ensures Trimmed(before + core + after) == core && before + core + after != "" && (before + core + after)[0] != 's'
  {
    LowerAt(core);
    assert d[0] == Lower(core)[0] && d[63] == Lower(core)[63];
    Trims(before, core, after);
    if before != "" { assert (before + core + after)[0] == before[0]; } else { assert (before + core + after)[0] == core[0]; }
  }

  /** An item is kept with the digest its content hash denotes, if any, and located by the path it was read at or,
      where that is missing or empty, by its address. */
  ghost predicate KeptFaithfully(x: Lowering.Support, kept: Semantics) {
    && (forall d :: kept.digest == Some(d) <==> x.contentHash.Some? && Denotes(x.contentHash.value, d))
    && (if x.path == None || x.path == Some("") then kept.locator == x.uri else kept.locator == x.path)
  }

  lemma {:induction false} SemanticsAreFaithful(policy: Policy, x: Lowering.Support)
    ensures KeptFaithfully(x, SemanticsOf(policy, x))
  {
    hide Denotes, BareDigest;
    forall d ensures BareDigest(x.contentHash) == Some(d) <==> x.contentHash.Some? && Denotes(x.contentHash.value, d) {
      if x.contentHash.Some? { DigestExactlyWhen(x.contentHash.value, d); } else { DigestExactlyWhen("", d); }
    }
  }

  /** Everything a write keeps is kept faithfully. */
  lemma {:induction false} WriteIsFaithful(codec: Codec, policy: Policy, around: Surroundings, p: Request, i: nat)
    requires p.kind in policy.memoryClass && Build(codec, policy, around, p).Ok? && i < |KeptRefs(policy, around.evidence, p.refs)|
    ensures var w, kept := Build(codec, policy, around, p).value.write, KeptRefs(policy, around.evidence, p.refs);
      i < |w.evidence| && kept[i] in around.evidence && KeptFaithfully(around.evidence[kept[i]], w.evidence[i])
  {
    hide Resolved, Kept, KeptRefs, EvidenceIds, DerivationAdded, NamespaceOf, CandidateId, IdempotencyKey, ScoreOf, SemanticsOf, KeptFaithfully, AllKnown;
    KeptAre(policy, around.evidence, p.refs);
    SemanticsAreFaithful(policy, around.evidence[KeptRefs(policy, around.evidence, p.refs)[i]]);
  }
}
