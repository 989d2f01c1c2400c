/** Validation receipts and their identity (packets/validation_receipt.py, and the one line of
    scanners/repository_model_scanner.py that finalises a receipt from the whole record). */
module Receipts {
  import opened Ordering
  import opened CanonicalHash

  datatype Receipt = Receipt(
    packetType: string,
    packetVersion: string,
    receiptId: string,
    subjectPacketId: string,
    subjectSemanticHash: string,
    validator: Value,
    status: string,
    schemaResults: Value,
    invariantResults: Value,
    evidenceResults: Value,
    crossReferenceResults: Value,
    createdAt: string,
    semanticHash: string)
  {
    /** The nested records are real records: keys distinct, and none of them absent. */
    ghost predicate WellTyped() {
      && validator != NONE && WellFormed(validator)
      && schemaResults != NONE && WellFormed(schemaResults)
      && invariantResults != NONE && WellFormed(invariantResults)
      && evidenceResults != NONE && WellFormed(evidenceResults)
      && crossReferenceResults != NONE && WellFormed(crossReferenceResults)
    }
  }

  datatype Verdict = Valid | HashMismatch(expected: string, calculated: string) | IdMismatch(expectedId: string, got: string)

  function Text(s: string): Value { Raw(Str(s)) }

  /** `validation_receipt_semantic_view`. */
  function SemanticView(r: Receipt): seq<Field> {
    [ Field("packet_type", Text(r.packetType)),
      Field("packet_version", Text(r.packetVersion)),
      Field("subject_packet_id", Text(r.subjectPacketId)),
      Field("subject_semantic_hash", Text(r.subjectSemanticHash)),
      Field("validator", r.validator),
      Field("status", Text(r.status)),
      Field("schema_results", r.schemaResults),
      Field("invariant_results", r.invariantResults),
      Field("evidence_results", r.evidenceResults),
      Field("cross_reference_results", r.crossReferenceResults) ]
  }

  /** Only the record has these; every one of them is volatile. */
  function OwnFields(r: Receipt): seq<Field> {
    [ Field("receipt_id", Text(r.receiptId)),
      Field("created_at", Instant(r.createdAt)),
      Field("semantic_hash", Text(r.semanticHash)) ]
  }

  /** The whole record. */
  function WholeRecord(r: Receipt): seq<Field> {
    SemanticView(r) + OwnFields(r)
  }

  lemma {:induction false} KeysAreDistinct(r: Receipt)
    requires r.WellTyped()
    ensures WellFormed(Dict(SemanticView(r))) && WellFormed(Model(WholeRecord(r)))
  {
    hide SemanticView, OwnFields;
    ReceiptKeysDiffer();
    ViewKeyed(r);
    OwnKeyed(r);
    TellApart(SemanticView(r), VIEW_KEYS);
    JoinKeyed(SemanticView(r), OwnFields(r), VIEW_KEYS, OWN_KEYS);
    TellApart(WholeRecord(r), VIEW_KEYS + OWN_KEYS);
  }

  const VIEW_KEYS: seq<string> := [
    "packet_type", "packet_version", "subject_packet_id", "subject_semantic_hash", "validator", "status", "schema_results",
    "invariant_results", "evidence_results", "cross_reference_results" ]

  const OWN_KEYS: seq<string> := ["receipt_id", "created_at", "semantic_hash"]

  lemma {:induction false} ReceiptKeysDiffer()
    ensures AllDifferent(VIEW_KEYS) && AllDifferent(VIEW_KEYS + OWN_KEYS)
  {
    assert VIEW_KEYS == (VIEW_KEYS + OWN_KEYS)[..|VIEW_KEYS|];
  }

  lemma {:induction false} ViewKeyed(r: Receipt)
    requires r.WellTyped()
    ensures Keyed(SemanticView(r), VIEW_KEYS)
  {
  }

  lemma {:induction false} OwnKeyed(r: Receipt)
    ensures Keyed(OwnFields(r), OWN_KEYS)
  {
  }

  /** `semantic_hash(validation_receipt_semantic_view(r))`, without its prefix. */
  function ViewDigest(codec: Codec, r: Receipt): string
    requires r.WellTyped()
  {
    KeysAreDistinct(r);
    Digest(codec, Dict(SemanticView(r)), VOLATILE)
  }

  /** `semantic_hash(r)`, without its prefix. */
  function RecordDigest(codec: Codec, r: Receipt): string
    requires r.WellTyped()
  {
    KeysAreDistinct(r);
    Digest(codec, Model(WholeRecord(r)), VOLATILE)
  }

  function Stamp(r: Receipt, digest: string): Receipt {
    r.(receiptId := "receipt:" + digest, semanticHash := "sha256:" + digest)
  }

  /** `finalize_validation_receipt`. */
  function Finalize(codec: Codec, candidate: Receipt): Receipt
    requires candidate.WellTyped()
  {
    Stamp(candidate, ViewDigest(codec, candidate))
  }

  /** The scanner's finalisation, which hashes the whole candidate. */
  function FinalizeFromRecord(codec: Codec, candidate: Receipt): Receipt
    requires candidate.WellTyped()
  {
    Stamp(candidate, RecordDigest(codec, candidate))
  }

  /** `validate_validation_receipt`. */
  function Validate(codec: Codec, r: Receipt): Verdict
    requires r.WellTyped()
  {
    var calculated := ViewDigest(codec, r);
    if r.semanticHash != "sha256:" + calculated then HashMismatch(r.semanticHash, "sha256:" + calculated)
    else if r.receiptId != "receipt:" + calculated then IdMismatch("receipt:" + calculated, r.receiptId)
    else Valid
  }

  /** Hashing a whole receipt and hashing its semantic view agree, for every receipt. */
  lemma {:induction false} RecordAndViewAgree(codec: Codec, r: Receipt)
    requires r.WellTyped()
    ensures RecordDigest(codec, r) == ViewDigest(codec, r)
  {
    hide SemanticView, OwnFields, VOLATILE, Digest, WellFormed;
    KeysAreDistinct(r);
    var whole, view := WholeRecord(r), SemanticView(r);
    ViewIsPresent(r);
    forall f | f in whole && f !in view ensures f.key in VOLATILE {
      OwnFieldsAreVolatile(r, f);
    }
    ModelDigestIsViewDigest(codec, whole, view, VOLATILE);
  }

  lemma {:induction false} OwnFieldsAreVolatile(r: Receipt, f: Field)
    requires f in OwnFields(r)
    ensures f.key in VOLATILE
  {
  }

  lemma {:induction false} ViewIsPresent(r: Receipt)
    requires r.WellTyped()
    ensures forall f :: f in SemanticView(r) ==> f.value != NONE
  {
    hide WellFormed;
  }

  /** Either finalisation produces the same receipt, and it passes validation. */
  lemma {:induction false} EitherFinalisationValidates(codec: Codec, candidate: Receipt)
    requires candidate.WellTyped()
    ensures Finalize(codec, candidate) == FinalizeFromRecord(codec, candidate)
    ensures Validate(codec, Finalize(codec, candidate)) == Valid
  {
    RecordAndViewAgree(codec, candidate);
    assert SemanticView(Finalize(codec, candidate)) == SemanticView(candidate);
  }

  /** A receipt is valid exactly when finalising it again changes nothing. */
  lemma {:induction false} ValidExactlyWhenFinal(codec: Codec, r: Receipt)
    requires r.WellTyped()
    ensures Validate(codec, r) == Valid <==> Finalize(codec, r) == r
  {
    assert forall s: string, t: string :: "sha256:" + s == "sha256:" + t ==> s == t by {
      forall s: string, t: string | "sha256:" + s == "sha256:" + t ensures s == t {
        assert s == ("sha256:" + s)[7..] && t == ("sha256:" + t)[7..];
      }
    }
  }

  /** The receipt with another one's recorded content. */
  function WithContentOf(r: Receipt, other: Receipt): Receipt {
    other.(receiptId := r.receiptId, semanticHash := r.semanticHash, createdAt := r.createdAt)
  }

  /** Under a faithful digest, a valid receipt whose content was replaced stays valid exactly when
      the replacement is the same once canonical and cleaned of volatile fields. */
  lemma {:induction false} ReplacedContentValidates(codec: Codec, r: Receipt, other: Receipt)
    requires codec.Faithful() && r.WellTyped() && other.WellTyped() && Validate(codec, r) == Valid
    ensures Validate(codec, WithContentOf(r, other)) == Valid <==>
      Delete(Canonical(codec, Dict(SemanticView(r))), VOLATILE) ==
      Delete(Canonical(codec, Dict(SemanticView(other))), VOLATILE)
  {
    KeysAreDistinct(r);
    KeysAreDistinct(other);
    var swapped := WithContentOf(r, other);
    assert SemanticView(swapped) == SemanticView(other);
    SameDigest(codec, Dict(SemanticView(r)), Dict(SemanticView(other)), VOLATILE);
    var d, e := ViewDigest(codec, r), ViewDigest(codec, other);
    assert ("sha256:" + d)[7..] == d && ("sha256:" + e)[7..] == e;
  }

  // ---- What the digest of a receipt binds ----

  /** The receipts say the same but for volatile fields inside their records. */
  ghost predicate SameContent(codec: Codec, r: Receipt, q: Receipt) {
    && r.packetType == q.packetType && r.packetVersion == q.packetVersion && r.subjectPacketId == q.subjectPacketId
    && r.subjectSemanticHash == q.subjectSemanticHash && r.status == q.status
    && Cleaned(codec, r.validator, VOLATILE) == Cleaned(codec, q.validator, VOLATILE)
    && Cleaned(codec, r.schemaResults, VOLATILE) == Cleaned(codec, q.schemaResults, VOLATILE)
    && Cleaned(codec, r.invariantResults, VOLATILE) == Cleaned(codec, q.invariantResults, VOLATILE)
    && Cleaned(codec, r.evidenceResults, VOLATILE) == Cleaned(codec, q.evidenceResults, VOLATILE)
    && Cleaned(codec, r.crossReferenceResults, VOLATILE) == Cleaned(codec, q.crossReferenceResults, VOLATILE)
  }

  lemma {:induction false} ViewKeysStable()
    ensures forall i :: 0 <= i < |VIEW_KEYS| ==> VIEW_KEYS[i] !in VOLATILE
  {
  }

  lemma {:induction false} TextsAlike(codec: Codec, s: string, t: string)
    ensures Cleaned(codec, Text(s), VOLATILE) == Cleaned(codec, Text(t), VOLATILE) <==> s == t
  {
  }

  ghost predicate AlikeAt(codec: Codec, a: seq<Field>, b: seq<Field>, i: nat)
    requires i < |a| == |b|
  {
    Cleaned(codec, a[i].value, VOLATILE) == Cleaned(codec, b[i].value, VOLATILE)
  }

  lemma {:induction false} ViewsAlike(codec: Codec, r: Receipt, q: Receipt)
    ensures FieldsCleanAlike(codec, SemanticView(r), SemanticView(q), VOLATILE) <==> SameContent(codec, r, q)
  {
    hide VOLATILE, Cleaned, Text;
    ViewKeysStable();
    TextsAlike(codec, r.packetType, q.packetType);
    TextsAlike(codec, r.packetVersion, q.packetVersion);
    TextsAlike(codec, r.subjectPacketId, q.subjectPacketId);
    TextsAlike(codec, r.subjectSemanticHash, q.subjectSemanticHash);
    TextsAlike(codec, r.status, q.status);
    var x, y := SemanticView(r), SemanticView(q);
    assert forall i :: 0 <= i < 10 ==> x[i].key == VIEW_KEYS[i];
    assert FieldsCleanAlike(codec, x, y, VOLATILE) <==>
      && AlikeAt(codec, x, y, 0) && AlikeAt(codec, x, y, 1) && AlikeAt(codec, x, y, 2) && AlikeAt(codec, x, y, 3) && AlikeAt(codec, x, y, 4)
      && AlikeAt(codec, x, y, 5) && AlikeAt(codec, x, y, 6) && AlikeAt(codec, x, y, 7) && AlikeAt(codec, x, y, 8) && AlikeAt(codec, x, y, 9);
  }

  /** Two receipts have one digest exactly when they say the same: no field of the ten is left out of it or
      stands in for another. */
  lemma {:induction false} DigestBindsExactly(codec: Codec, r: Receipt, q: Receipt)
    requires codec.Faithful() && r.WellTyped() && q.WellTyped()
    ensures ViewDigest(codec, r) == ViewDigest(codec, q) <==> SameContent(codec, r, q)
  {
    hide SemanticView, SameContent, VOLATILE, FieldsCleanAlike, CanonicalFields, DeleteEntries, Digest, VIEW_KEYS;
    KeysAreDistinct(r);
    KeysAreDistinct(q);
    ReceiptKeysDiffer();
    ViewKeyed(r);
    ViewKeyed(q);
    SameDigest(codec, Dict(SemanticView(r)), Dict(SemanticView(q)), VOLATILE);
    RecordsCleanAlike(codec, SemanticView(r), SemanticView(q), VIEW_KEYS, false, VOLATILE);
    ViewsAlike(codec, r, q);
  }
}
