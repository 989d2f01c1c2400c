/** The identity of a durable write (publication/identity.py) and of the evidence it rests on
    (publication/lowering.py). */
module EffectIdentity {
  import opened Wrappers
  import opened Ordering
  import opened CanonicalHash
  import opened Identities

  /** `PUBLICATION_EXCLUDED_FIELDS`: the volatile fields and the publication timestamps. */
  const EXCLUDED: set<string> := {
    "created_at", "checked_at", "generated_at", "committed_at", "frozen_at", "run_id", "stage_id", "trace_id", "workflow_id",
    "artifact_hash", "semantic_hash", "packet_id", "receipt_id", "calibrated_at", "observed_at", "published_at", "source_observed_at",
    "transformed_at", "valid_from", "plan_id" }

  datatype Assertion = Assertion(subject: string, predicat: string, object_: string)

  datatype Fact = Fact(
    operation: string, kind: string, namespace: string, memoryClass: string, content: string, assertion: Option<Assertion>, entityIds: seq<string>)

  /** One supporting evidence item, as it bears on the write. */
  datatype Semantics = Semantics(kind: string, digest: Option<string>, locator: Option<string>)

  datatype ConfidenceClaim = ConfidenceClaim(score: Double, means: string, evidenceCount: nat, policyVersion: string)

  datatype Write = Write(fact: Fact, version: string, evidence: seq<Semantics>, confidence: ConfidenceClaim, derivation: Option<string>)

  // ---- The hashed dictionaries ----

  const FACT_KEYS: seq<string> := ["operation", "candidate_kind", "namespace", "memory_class", "content", "source_topology_entity_ids"]
  const ASSERTION_KEYS: seq<string> := ["subject", "predicate", "object"]
  const SEMANTICS_KEYS: seq<string> := ["evidence_kind", "source_content_digest", "stable_source_locator"]
  const CONFIDENCE_KEYS: seq<string> := ["score", "method", "evidence_count", "confidence_policy_version"]
  const EFFECT_KEYS: seq<string> := ["domain", "candidate_id", "lowering_contract_version", "derivation_kind"]

  lemma {:induction false} FactKeysAreGood()
    ensures GoodKeysFor(FACT_KEYS, EXCLUDED) && "assertion" !in FACT_KEYS && "assertion" !in EXCLUDED
  {
  }

  lemma {:induction false} AssertionKeysAreGood()
    ensures GoodKeysFor(ASSERTION_KEYS, EXCLUDED)
  {
  }

  lemma {:induction false} SemanticsKeysAreGood()
    ensures GoodKeysFor(SEMANTICS_KEYS, EXCLUDED)
  {
  }

  lemma {:induction false} ConfidenceKeysAreGood()
    ensures GoodKeysFor(CONFIDENCE_KEYS, EXCLUDED)
  {
  }

  lemma {:induction false} EffectKeysAreGood()
    ensures GoodKeysFor(EFFECT_KEYS, EXCLUDED)
    ensures "local_evidence_semantics" !in EFFECT_KEYS && "local_evidence_semantics" !in EXCLUDED
    ensures "confidence_semantics" !in EFFECT_KEYS && "confidence_semantics" !in EXCLUDED && "confidence_semantics" != "local_evidence_semantics"
  {
  }

  function Maybe(o: Option<string>): Part { match o case None => Missing case Some(s) => Text(s) }

  function AssertionParts(a: Assertion): seq<Part> { [Text(a.subject), Text(a.predicat), Text(a.object_)] }

  function AssertionValue(o: Option<Assertion>): Value {
    match o case None => NONE case Some(a) => Dict(Fields(ASSERTION_KEYS, AssertionParts(a)))
  }

  function FactParts(f: Fact): seq<Part> {
    [Text(f.operation), Text(f.kind), Text(f.namespace), Text(f.memoryClass), Text(f.content), Texts(f.entityIds)]
  }

  /** `candidate_identity`. */
  function FactFields(f: Fact): seq<Field> {
    Fields(FACT_KEYS, FactParts(f)) + [Field("assertion", AssertionValue(f.assertion))]
  }

  function SemanticsParts(s: Semantics): seq<Part> { [Text(s.kind), Maybe(s.digest), Maybe(s.locator)] }

  /** `evidence_semantics`. */
  function SemanticsFields(s: Semantics): seq<Field> { Fields(SEMANTICS_KEYS, SemanticsParts(s)) }

  function ConfidenceParts(c: ConfidenceClaim): seq<Part> { [Amount(c.score), Text(c.means), Number(c.evidenceCount), Text(c.policyVersion)] }

  lemma {:induction false} MoreFieldsWellFormed(fields: seq<Field>, key: string, value: Value)
    requires WellFormed(Dict(fields)) && WellFormed(value) && forall i :: 0 <= i < |fields| ==> fields[i].key != key
    ensures WellFormed(Dict(fields + [Field(key, value)]))
  {
    hide WellFormed;
    var all := fields + [Field(key, value)];
    FieldsOfWellFormed(fields);
    forall i | 0 <= i < |all| ensures WellFormed(all[i].value) { }
    DictWellFormed(all);
  }

  lemma {:induction false} FieldsOfWellFormed(fields: seq<Field>)
    requires WellFormed(Dict(fields))
    ensures DistinctKeys(fields) && forall i :: 0 <= i < |fields| ==> WellFormed(fields[i].value)
  {
  }

  lemma {:induction false} DictWellFormed(fields: seq<Field>)
    requires DistinctKeys(fields) && forall i :: 0 <= i < |fields| ==> WellFormed(fields[i].value)
    ensures WellFormed(Dict(fields))
  {
  }

  lemma {:induction false} FactWellFormed(f: Fact)
    ensures WellFormed(Dict(FactFields(f)))
  {
    FactKeysAreGood();
    AssertionKeysAreGood();
    FieldsWellFormed(FACT_KEYS, FactParts(f));
    if f.assertion.Some? { FieldsWellFormed(ASSERTION_KEYS, AssertionParts(f.assertion.value)); }
    MoreFieldsWellFormed(Fields(FACT_KEYS, FactParts(f)), "assertion", AssertionValue(f.assertion));
  }

  lemma {:induction false} SemanticsWellFormed(s: Semantics)
    ensures WellFormed(Dict(SemanticsFields(s)))
  {
    SemanticsKeysAreGood();
    FieldsWellFormed(SEMANTICS_KEYS, SemanticsParts(s));
  }

  /** `candidate_id`. */
  function CandidateId(codec: Codec, f: Fact): string {
    FactWellFormed(f);
    "publication-candidate:" + Digest(codec, Dict(FactFields(f)), EXCLUDED)
  }

  function SemanticsHash(codec: Codec, s: Semantics): string {
    SemanticsWellFormed(s);
    SemanticHash(codec, Dict(SemanticsFields(s)), EXCLUDED)
  }

  /** The key the evidence is sorted by. */
  function EvidenceOrder(codec: Codec): Semantics -> string { s => SemanticsHash(codec, s) }

  function SemanticsValues(evidence: seq<Semantics>): (r: seq<Value>)
    ensures |r| == |evidence| && forall i :: 0 <= i < |r| ==> r[i] == Dict(SemanticsFields(evidence[i]))
  {
    seq(|evidence|, i requires 0 <= i < |evidence| => Dict(SemanticsFields(evidence[i])))
  }

  function EffectParts(codec: Codec, w: Write): seq<Part> {
    [Text("l9.memory-effect-id/v3"), Text(CandidateId(codec, w.fact)), Text(w.version), Maybe(w.derivation)]
  }

  /** The effect's dictionary, its evidence given in some order. */
  function EffectFields(codec: Codec, w: Write, evidence: seq<Semantics>): seq<Field> {
    Fields(EFFECT_KEYS, EffectParts(codec, w)) + [Field("local_evidence_semantics", Listing(SemanticsValues(evidence)))]
    + [Field("confidence_semantics", Dict(Fields(CONFIDENCE_KEYS, ConfidenceParts(w.confidence))))]
  }

  lemma {:induction false} EffectWellFormed(codec: Codec, w: Write, evidence: seq<Semantics>)
    ensures WellFormed(Dict(EffectFields(codec, w, evidence)))
  {
    hide CandidateId, SemanticsFields;
    EffectKeysAreGood();
    ConfidenceKeysAreGood();
    forall i | 0 <= i < |evidence| { SemanticsWellFormed(evidence[i]); }
    FieldsWellFormed(EFFECT_KEYS, EffectParts(codec, w));
    FieldsWellFormed(CONFIDENCE_KEYS, ConfidenceParts(w.confidence));
    var f := Fields(EFFECT_KEYS, EffectParts(codec, w));
    var list := Listing(SemanticsValues(evidence));
    MoreFieldsWellFormed(f, "local_evidence_semantics", list);
    MoreFieldsWellFormed(f + [Field("local_evidence_semantics", list)], "confidence_semantics", Dict(Fields(CONFIDENCE_KEYS, ConfidenceParts(w.confidence))));
  }

  /** `idempotency_key`. */
  function IdempotencyKey(codec: Codec, w: Write): string {
    var evidence := SortBy(w.evidence, EvidenceOrder(codec));
    EffectWellFormed(codec, w, evidence);
    "l9-topology-publication/v3:" + Digest(codec, Dict(EffectFields(codec, w, evidence)), EXCLUDED)
  }

  // ---- When keys agree ----

  lemma {:induction false} SemanticsTold(codec: Codec, s: Semantics, t: Semantics)
    requires Delete(Canonical(codec, Dict(SemanticsFields(s))), EXCLUDED) == Delete(Canonical(codec, Dict(SemanticsFields(t))), EXCLUDED)
    ensures s == t
  {
    hide Delete, Canonical;
    SemanticsKeysAreGood();
    var a, b := SemanticsParts(s), SemanticsParts(t);
    FieldsTellApart(codec, SEMANTICS_KEYS, a, b, EXCLUDED);
    assert a[0] == b[0] && a[1] == b[1] && a[2] == b[2];
  }

  lemma {:induction false} SemanticsHashTellsApart(codec: Codec, s: Semantics, t: Semantics)
    requires codec.Faithful() && SemanticsHash(codec, s) == SemanticsHash(codec, t)
    ensures s == t
  {
    hide Digest, SemanticsFields, Delete, Canonical;
    SemanticsWellFormed(s);
    SemanticsWellFormed(t);
    SameTail("sha256:", Digest(codec, Dict(SemanticsFields(s)), EXCLUDED), Digest(codec, Dict(SemanticsFields(t)), EXCLUDED));
    SameDigest(codec, Dict(SemanticsFields(s)), Dict(SemanticsFields(t)), EXCLUDED);
    SemanticsTold(codec, s, t);
  }

  lemma {:induction false} AssertionTold(codec: Codec, a: Option<Assertion>, b: Option<Assertion>)
    requires Delete(Canonical(codec, AssertionValue(a)), EXCLUDED) == Delete(Canonical(codec, AssertionValue(b)), EXCLUDED)
    ensures a == b
  {
    if a.Some? && b.Some? {
      AssertionKeysAreGood();
      var x, y := AssertionParts(a.value), AssertionParts(b.value);
      FieldsTellApart(codec, ASSERTION_KEYS, x, y, EXCLUDED);
      assert x[0] == y[0] && x[1] == y[1] && x[2] == y[2];
    }
  }

  lemma {:induction false} PartsTold(codec: Codec, keys: seq<string>, a: seq<Part>, b: seq<Part>, f: seq<Field>, g: seq<Field>)
    requires GoodKeysFor(keys, EXCLUDED) && |a| == |b| == |keys| && WellFormed(Dict(f)) && WellFormed(Dict(g))
    requires Fields(keys, a) <= f && Fields(keys, b) <= g
    requires Delete(Canonical(codec, Dict(f)), EXCLUDED) == Delete(Canonical(codec, Dict(g)), EXCLUDED)
    ensures a == b
  {
    hide Delete, Canonical, WellFormed;
    var x, y := Fields(keys, a), Fields(keys, b);
    forall i | 0 <= i < |keys| ensures a[i] == b[i] {
      assert x[i] == f[i] && y[i] == g[i];
      SameCleanedSameField(codec, f, g, EXCLUDED, f[i], g[i]);
      SamePart(codec, a[i], b[i], EXCLUDED);
    }
  }

  /** Candidates have one identity exactly when they state one fact. */
  lemma {:induction false} CandidateIdIdentifies(codec: Codec, f: Fact, g: Fact)
    requires codec.Faithful() && CandidateId(codec, f) == CandidateId(codec, g)
    ensures f == g
  {
    hide Digest, Delete, Canonical, WellFormed, AssertionValue;
    var x, y := FactFields(f), FactFields(g);
    FactWellFormed(f);
    FactWellFormed(g);
    FactKeysAreGood();
    SameTail("publication-candidate:", Digest(codec, Dict(x), EXCLUDED), Digest(codec, Dict(y), EXCLUDED));
    SameDigest(codec, Dict(x), Dict(y), EXCLUDED);
    var a, b := FactParts(f), FactParts(g);
    PartsTold(codec, FACT_KEYS, a, b, x, y);
    assert a[0] == b[0] && a[1] == b[1] && a[2] == b[2] && a[3] == b[3] && a[4] == b[4] && a[5] == b[5];
    SameCleanedSameField(codec, x, y, EXCLUDED, x[6], y[6]);
    AssertionTold(codec, f.assertion, g.assertion);
  }

  lemma {:induction false} EvidenceTold(codec: Codec, a: seq<Semantics>, b: seq<Semantics>)
    requires Delete(Canonical(codec, Listing(SemanticsValues(a))), EXCLUDED) == Delete(Canonical(codec, Listing(SemanticsValues(b))), EXCLUDED)
    ensures a == b
  {
    hide SemanticsFields;
    var x, y := CanonicalItems(codec, SemanticsValues(a)), CanonicalItems(codec, SemanticsValues(b));
    assert DeleteItems(x, EXCLUDED) == DeleteItems(y, EXCLUDED);
    assert |a| == |DeleteItems(x, EXCLUDED)| == |DeleteItems(y, EXCLUDED)| == |b|;
    forall i | 0 <= i < |a| ensures a[i] == b[i] {
      assert DeleteItems(x, EXCLUDED)[i] == DeleteItems(y, EXCLUDED)[i];
      SemanticsTold(codec, a[i], b[i]);
    }
  }

  lemma {:induction false} ConfidenceTold(codec: Codec, a: ConfidenceClaim, b: ConfidenceClaim)
    requires Delete(Canonical(codec, Dict(Fields(CONFIDENCE_KEYS, ConfidenceParts(a)))), EXCLUDED)
      == Delete(Canonical(codec, Dict(Fields(CONFIDENCE_KEYS, ConfidenceParts(b)))), EXCLUDED)
    ensures a == b
  {
    hide Delete, Canonical;
    ConfidenceKeysAreGood();
    var x, y := ConfidenceParts(a), ConfidenceParts(b);
    FieldsTellApart(codec, CONFIDENCE_KEYS, x, y, EXCLUDED);
    assert x[0] == y[0] && x[1] == y[1] && x[2] == y[2] && x[3] == y[3];
  }

  /** Sorting the evidence forgets its order and nothing else. */
  lemma {:induction false} SortedEvidence(codec: Codec, a: seq<Semantics>, b: seq<Semantics>)
    requires codec.Faithful()
    ensures SortBy(a, EvidenceOrder(codec)) == SortBy(b, EvidenceOrder(codec)) <==> multiset(a) == multiset(b)
  {
    hide SemanticsHash;
    if multiset(a) == multiset(b) {
      forall i, j | 0 <= i < |a| && 0 <= j < |a| && EvidenceOrder(codec)(a[i]) == EvidenceOrder(codec)(a[j]) ensures a[i] == a[j] {
        SemanticsHashTellsApart(codec, a[i], a[j]);
      }
      SortByPermutes(a, b, EvidenceOrder(codec));
    }
  }

  /** Two writes have one key exactly when they state one fact, under one lowering contract, with one
      derivation and confidence claim, on the same evidence in whatever order. */
  lemma {:induction false} KeysEqualExactlyWhen(codec: Codec, w: Write, v: Write)
    requires codec.Faithful()
    ensures IdempotencyKey(codec, w) == IdempotencyKey(codec, v) <==>
      w.fact == v.fact && w.version == v.version && w.derivation == v.derivation && w.confidence == v.confidence
      && multiset(w.evidence) == multiset(v.evidence)
  {
    SortedEvidence(codec, w.evidence, v.evidence);
    if IdempotencyKey(codec, w) == IdempotencyKey(codec, v) { KeyTold(codec, w, v); }
  }

  lemma {:induction false} KeyTold(codec: Codec, w: Write, v: Write)
    requires codec.Faithful() && IdempotencyKey(codec, w) == IdempotencyKey(codec, v)
    ensures w.fact == v.fact && w.version == v.version && w.derivation == v.derivation && w.confidence == v.confidence
    ensures SortBy(w.evidence, EvidenceOrder(codec)) == SortBy(v.evidence, EvidenceOrder(codec))
  {
    hide Digest, Delete, Canonical, WellFormed, CandidateId, SortBy;
    var a, b := SortBy(w.evidence, EvidenceOrder(codec)), SortBy(v.evidence, EvidenceOrder(codec));
    var x, y := EffectFields(codec, w, a), EffectFields(codec, v, b);
    EffectWellFormed(codec, w, a);
    EffectWellFormed(codec, v, b);
    EffectKeysAreGood();
    SameTail("l9-topology-publication/v3:", Digest(codec, Dict(x), EXCLUDED), Digest(codec, Dict(y), EXCLUDED));
    SameDigest(codec, Dict(x), Dict(y), EXCLUDED);
    var p, q := EffectParts(codec, w), EffectParts(codec, v);
    PartsTold(codec, EFFECT_KEYS, p, q, x, y);
    assert p[1] == q[1] && p[2] == q[2] && p[3] == q[3];
    CandidateIdIdentifies(codec, w.fact, v.fact);
    SameCleanedSameField(codec, x, y, EXCLUDED, x[4], y[4]);
    EvidenceTold(codec, a, b);
    SameCleanedSameField(codec, x, y, EXCLUDED, x[5], y[5]);
    ConfidenceTold(codec, w.confidence, v.confidence);
  }
}
