/** Exactly what the semantic hash of a packet binds (packets/corpus_intelligence.py,
    packets/topology_packet.py). */
module PacketDigests {
  import opened Wrappers
  import opened CanonicalHash
  import opened Receipts
  import opened Bundles

  ghost predicate AlikeAt(codec: Codec, a: seq<Field>, b: seq<Field>, i: nat)
    requires i < |a| == |b|
  {
    Cleaned(codec, a[i].value, VOLATILE) == Cleaned(codec, b[i].value, VOLATILE)
  }

  /** The values are the same once canonical and rid of volatile fields. */
  ghost predicate Alike(codec: Codec, v: Value, w: Value) { Cleaned(codec, v, VOLATILE) == Cleaned(codec, w, VOLATILE) }

  lemma {:induction false} JoinedAlike(codec: Codec, a: seq<Field>, b: seq<Field>, c: seq<Field>, d: seq<Field>)
    requires |a| == |c| && |b| == |d|
    ensures FieldsCleanAlike(codec, a + b, c + d, VOLATILE) <==> FieldsCleanAlike(codec, a, c, VOLATILE) && FieldsCleanAlike(codec, b, d, VOLATILE)
  {
    hide VOLATILE, Cleaned;
    var x, y := a + b, c + d;
    if FieldsCleanAlike(codec, x, y, VOLATILE) {
      forall i | 0 <= i < |a| && a[i].key !in VOLATILE ensures Cleaned(codec, a[i].value, VOLATILE) == Cleaned(codec, c[i].value, VOLATILE) {
        assert x[i] == a[i] && y[i] == c[i];
      }
      forall i | 0 <= i < |b| && b[i].key !in VOLATILE ensures Cleaned(codec, b[i].value, VOLATILE) == Cleaned(codec, d[i].value, VOLATILE) {
        assert x[|a| + i] == b[i] && y[|a| + i] == d[i];
      }
    }
    if FieldsCleanAlike(codec, a, c, VOLATILE) && FieldsCleanAlike(codec, b, d, VOLATILE) {
      forall i | 0 <= i < |x| && x[i].key !in VOLATILE ensures Cleaned(codec, x[i].value, VOLATILE) == Cleaned(codec, y[i].value, VOLATILE) {
        if i < |a| { assert x[i] == a[i] && y[i] == c[i]; } else { assert x[i] == b[i - |a|] && y[i] == d[i - |a|]; }
      }
    }
  }

  // ---- Topology packets ----

  /** The packets declare the same things, with the same hashes, from the same sources. */
  ghost predicate SameTopology(codec: Codec, p: TopologyPacket, q: TopologyPacket) {
    && p.packetVersion == q.packetVersion && p.schemaHash == q.schemaHash && Alike(codec, p.producer, q.producer)
    && Alike(codec, p.profile, q.profile) && Alike(codec, p.inputs, q.inputs) && Alike(codec, MapValue(p.policyHashes), MapValue(q.policyHashes))
    && Alike(codec, MapValue(p.payloadRefs), MapValue(q.payloadRefs)) && Alike(codec, MapValue(p.payloadHashes), MapValue(q.payloadHashes))
    && Alike(codec, p.lineage, q.lineage)
  }

  lemma {:induction false} TopologyKeysStable()
    ensures forall i :: 0 <= i < |TOPOLOGY_HEAD_KEYS| ==> TOPOLOGY_HEAD_KEYS[i] !in VOLATILE
    ensures forall i :: 0 <= i < |TOPOLOGY_TAIL_KEYS| ==> TOPOLOGY_TAIL_KEYS[i] !in VOLATILE
  {
  }

  lemma {:induction false} TopologyHeadAlike(codec: Codec, p: TopologyPacket, q: TopologyPacket)
    ensures FieldsCleanAlike(codec, TopologyHead(p), TopologyHead(q), VOLATILE) <==>
      && p.packetVersion == q.packetVersion && Alike(codec, p.producer, q.producer) && Alike(codec, p.profile, q.profile)
      && Alike(codec, p.inputs, q.inputs)
  {
    hide VOLATILE, Cleaned, Receipts.Text;
    TopologyKeysStable();
    TextsCleanAlike(codec, p.packetVersion, q.packetVersion);
    var x, y := TopologyHead(p), TopologyHead(q);
    assert forall i :: 0 <= i < 5 ==> x[i].key == TOPOLOGY_HEAD_KEYS[i];
    assert FieldsCleanAlike(codec, x, y, VOLATILE) <==>
      AlikeAt(codec, x, y, 0) && AlikeAt(codec, x, y, 1) && AlikeAt(codec, x, y, 2) && AlikeAt(codec, x, y, 3) && AlikeAt(codec, x, y, 4);
  }

  lemma {:induction false} TopologyTailAlike(codec: Codec, p: TopologyPacket, q: TopologyPacket)
    ensures FieldsCleanAlike(codec, TopologyTail(p), TopologyTail(q), VOLATILE) <==>
      && p.schemaHash == q.schemaHash && Alike(codec, MapValue(p.policyHashes), MapValue(q.policyHashes))
      && Alike(codec, MapValue(p.payloadRefs), MapValue(q.payloadRefs)) && Alike(codec, MapValue(p.payloadHashes), MapValue(q.payloadHashes))
      && Alike(codec, p.lineage, q.lineage)
  {
    hide VOLATILE, Cleaned, Receipts.Text, MapValue;
    TopologyKeysStable();
    TextsCleanAlike(codec, p.schemaHash, q.schemaHash);
    var x, y := TopologyTail(p), TopologyTail(q);
    assert forall i :: 0 <= i < 5 ==> x[i].key == TOPOLOGY_TAIL_KEYS[i];
    assert FieldsCleanAlike(codec, x, y, VOLATILE) <==>
      AlikeAt(codec, x, y, 0) && AlikeAt(codec, x, y, 1) && AlikeAt(codec, x, y, 2) && AlikeAt(codec, x, y, 3) && AlikeAt(codec, x, y, 4);
  }

  lemma {:induction false} TopologyParts(p: TopologyPacket)
    ensures |TopologyHead(p)| == |TopologyTail(p)| == 5
  {
    hide MapValue;
  }

  lemma {:induction false} TopologyViewsAlike(codec: Codec, p: TopologyPacket, q: TopologyPacket)
    ensures |TopologyView(p)| == |TopologyView(q)|
    ensures FieldsCleanAlike(codec, TopologyView(p), TopologyView(q), VOLATILE) <==> SameTopology(codec, p, q)
  {
    hide VOLATILE, Alike, MapValue, TopologyHead, TopologyTail, FieldsCleanAlike;
    TopologyParts(p);
    TopologyParts(q);
    TopologyHeadAlike(codec, p, q);
    TopologyTailAlike(codec, p, q);
    JoinedAlike(codec, TopologyHead(p), TopologyTail(p), TopologyHead(q), TopologyTail(q));
  }

  lemma {:induction false} TopologyViewKeyed(p: TopologyPacket)
    requires p.WellTyped()
    ensures Keyed(TopologyView(p), TOPOLOGY_HEAD_KEYS + TOPOLOGY_TAIL_KEYS)
  {
    hide TopologyHead, TopologyTail, WellFormed, MapValue, Keyed;
    TopologyHeadKeyed(p);
    TopologyTailKeyed(p);
    JoinKeyed(TopologyHead(p), TopologyTail(p), TOPOLOGY_HEAD_KEYS, TOPOLOGY_TAIL_KEYS);
  }

  /** Two topology packets have one semantic hash exactly when they are the same in what they declare: its
      identity, receipt and own hashes are left out, and nothing else is. */
  lemma {:induction false} TopologyDigestBindsExactly(codec: Codec, p: TopologyPacket, q: TopologyPacket)
    requires codec.Faithful() && p.WellTyped() && q.WellTyped()
    ensures TopologyDigest(codec, p) == TopologyDigest(codec, q) <==> SameTopology(codec, p, q)
  {
    hide VOLATILE, TopologyView, SameTopology, FieldsCleanAlike, Digest, WellFormed, TopologyPacket.WellTyped, Codec.Faithful, Keyed;
    TopologyViewWellFormed(p);
    TopologyViewWellFormed(q);
    TopologyViewKeyed(p);
    TopologyViewKeyed(q);
    TopologyKeysDiffer();
    TopologyViewsAlike(codec, p, q);
    SameDigest(codec, Dict(TopologyView(p)), Dict(TopologyView(q)), VOLATILE);
    DictsCleanAlike(codec, TopologyView(p), TopologyView(q), TOPOLOGY_HEAD_KEYS + TOPOLOGY_TAIL_KEYS);
  }

  // ---- Corpus packets ----

  /** The packets declare the same things, and were made from the same packets but for their identity and hashes. */
  ghost predicate SameCorpusPacket(codec: Codec, p: CorpusPacket, q: CorpusPacket) {
    && p.packetVersion == q.packetVersion && p.schemaHash == q.schemaHash && Alike(codec, p.producer, q.producer)
    && Alike(codec, p.profile, q.profile) && SameInputs(p.inputs, q.inputs) && SameCorpus(codec, p.corpus, q.corpus)
    && (p.domainsNotRun.Some? && q.domainsNotRun.Some? ==> Alike(codec, p.domainsNotRun.value, q.domainsNotRun.value))
    && Alike(codec, MapValue(p.payloadRefs), MapValue(q.payloadRefs)) && Alike(codec, MapValue(p.payloadHashes), MapValue(q.payloadHashes))
    && Alike(codec, p.lineage, q.lineage)
  }

  lemma {:induction false} HeadAlike(codec: Codec, p: CorpusPacket, q: CorpusPacket)
    requires codec.Faithful() && p.WellTyped() && q.WellTyped()
    ensures FieldsCleanAlike(codec, CorpusHead(p), CorpusHead(q), VOLATILE) <==>
      && p.packetVersion == q.packetVersion && Alike(codec, p.producer, q.producer) && Alike(codec, p.profile, q.profile)
      && SameInputs(p.inputs, q.inputs) && SameCorpus(codec, p.corpus, q.corpus)
  {
    hide VOLATILE, Cleaned, Receipts.Text, InputsValue, CorpusValue, SameInputs, SameCorpus, WellFormed, CorpusPacket.WellTyped;
    HeadKeysStable();
    CoverageWellFormed(p);
    CoverageWellFormed(q);
    TextsCleanAlike(codec, p.packetVersion, q.packetVersion);
    InputsCleanAlike(codec, p.inputs, q.inputs);
    CorporaCleanAlike(codec, p.corpus, q.corpus);
    var x, y := CorpusHead(p), CorpusHead(q);
    assert forall i :: 0 <= i < 6 ==> x[i].key == HEAD_KEYS[i];
    assert FieldsCleanAlike(codec, x, y, VOLATILE) <==>
      && AlikeAt(codec, x, y, 0) && AlikeAt(codec, x, y, 1) && AlikeAt(codec, x, y, 2) && AlikeAt(codec, x, y, 3) && AlikeAt(codec, x, y, 4)
      && AlikeAt(codec, x, y, 5);
  }

  lemma {:induction false} HeadKeysStable()
    ensures forall i :: 0 <= i < |HEAD_KEYS| ==> HEAD_KEYS[i] !in VOLATILE
    ensures forall i :: 0 <= i < |TAIL_KEYS| ==> TAIL_KEYS[i] !in VOLATILE
    ensures "domains_not_run" !in VOLATILE
  {
  }

  lemma {:induction false} TailAlike(codec: Codec, p: CorpusPacket, q: CorpusPacket)
    ensures FieldsCleanAlike(codec, CorpusTail(p), CorpusTail(q), VOLATILE) <==>
      && p.schemaHash == q.schemaHash && Alike(codec, MapValue(p.payloadRefs), MapValue(q.payloadRefs))
      && Alike(codec, MapValue(p.payloadHashes), MapValue(q.payloadHashes)) && Alike(codec, p.lineage, q.lineage)
  {
    hide VOLATILE, Cleaned, Receipts.Text, MapValue;
    HeadKeysStable();
    TextsCleanAlike(codec, p.schemaHash, q.schemaHash);
    var x, y := CorpusTail(p), CorpusTail(q);
    assert forall i :: 0 <= i < 4 ==> x[i].key == TAIL_KEYS[i];
    assert FieldsCleanAlike(codec, x, y, VOLATILE) <==>
      AlikeAt(codec, x, y, 0) && AlikeAt(codec, x, y, 1) && AlikeAt(codec, x, y, 2) && AlikeAt(codec, x, y, 3);
  }

  lemma {:induction false} MiddleAlike(codec: Codec, p: CorpusPacket, q: CorpusPacket)
    requires p.WellTyped() && q.WellTyped() && p.packetVersion == q.packetVersion
    ensures |CorpusMiddle(p)| == |CorpusMiddle(q)|
    ensures FieldsCleanAlike(codec, CorpusMiddle(p), CorpusMiddle(q), VOLATILE) <==>
      (p.domainsNotRun.Some? && q.domainsNotRun.Some? ==> Alike(codec, p.domainsNotRun.value, q.domainsNotRun.value))
  {
    hide VOLATILE, Cleaned, WellFormed;
    HeadKeysStable();
    if p.packetVersion == "1.1.0" {
      assert FieldsCleanAlike(codec, CorpusMiddle(p), CorpusMiddle(q), VOLATILE) <==> AlikeAt(codec, CorpusMiddle(p), CorpusMiddle(q), 0);
    }
  }

  lemma {:induction false} CorpusViewsAlike(codec: Codec, p: CorpusPacket, q: CorpusPacket)
    requires codec.Faithful() && p.WellTyped() && q.WellTyped() && p.packetVersion == q.packetVersion
    ensures |CorpusView(p)| == |CorpusView(q)|
    ensures FieldsCleanAlike(codec, CorpusView(p), CorpusView(q), VOLATILE) <==> SameCorpusPacket(codec, p, q)
  {
    hide VOLATILE, Cleaned, MapValue, SameInputs, SameCorpus, CorpusHead, CorpusMiddle, CorpusTail, FieldsCleanAlike, Alike, WellFormed, Codec.Faithful;
    ViewParts(p);
    ViewParts(q);
    MiddleAlike(codec, p, q);
    HeadAlike(codec, p, q);
    TailAlike(codec, p, q);
    JoinedAlike(codec, CorpusHead(p), CorpusMiddle(p), CorpusHead(q), CorpusMiddle(q));
    JoinedAlike(codec, CorpusHead(p) + CorpusMiddle(p), CorpusTail(p), CorpusHead(q) + CorpusMiddle(q), CorpusTail(q));
  }

  lemma {:induction false} ViewParts(p: CorpusPacket)
    ensures |CorpusHead(p)| == 6 && |CorpusTail(p)| == 4
    ensures CorpusHead(p)[1] == Field("packet_version", Receipts.Text(p.packetVersion))
  {
    hide MapValue, InputsValue, CorpusValue;
  }

  /** Packets of one digest are of one version. */
  lemma {:induction false} VersionIsBound(codec: Codec, p: CorpusPacket, q: CorpusPacket)
    requires codec.Faithful() && p.WellTyped() && q.WellTyped() && CorpusDigest(codec, p) == CorpusDigest(codec, q)
    ensures p.packetVersion == q.packetVersion
  {
    hide VOLATILE, Digest, WellFormed, CorpusHead, CorpusMiddle, CorpusTail, Receipts.Text, Cleaned, Codec.Faithful;
    CoverageWellFormed(p);
    CoverageWellFormed(q);
    CorpusViewWellFormed(p);
    CorpusViewWellFormed(q);
    ViewParts(p);
    ViewParts(q);
    assert CorpusView(p)[1] == CorpusHead(p)[1] && CorpusView(q)[1] == CorpusHead(q)[1];
    VersionIsStable();
    var x, y := Field("packet_version", Receipts.Text(p.packetVersion)), Field("packet_version", Receipts.Text(q.packetVersion));
    SameDigestSameField(codec, CorpusView(p), CorpusView(q), VOLATILE, x, y);
    CleanedIs(codec, x.value);
    CleanedIs(codec, y.value);
    TextsCleanAlike(codec, p.packetVersion, q.packetVersion);
  }

  lemma {:induction false} VersionIsStable()
    ensures "packet_version" !in VOLATILE
  {
  }

  lemma {:induction false} CleanedIs(codec: Codec, v: Value)
    ensures Cleaned(codec, v, VOLATILE) == Delete(Canonical(codec, v), VOLATILE)
  {
  }

  /** Two corpus packets have one semantic hash exactly when they are the same in what they declare and were made
      from the same packets but for identity and hashes. */
  lemma {:induction false} CorpusDigestBindsExactly(codec: Codec, p: CorpusPacket, q: CorpusPacket)
    requires codec.Faithful() && p.WellTyped() && q.WellTyped()
    ensures CorpusDigest(codec, p) == CorpusDigest(codec, q) <==> SameCorpusPacket(codec, p, q)
  {
    hide VOLATILE, CorpusView, SameCorpusPacket, FieldsCleanAlike, Digest, WellFormed, CorpusPacket.WellTyped, Codec.Faithful, Keyed, CorpusKeys;
    if CorpusDigest(codec, p) == CorpusDigest(codec, q) { VersionIsBound(codec, p, q); }
    SameVersion(codec, p, q);
    if p.packetVersion == q.packetVersion {
      CoverageWellFormed(p);
      CoverageWellFormed(q);
      CorpusViewWellFormed(p);
      CorpusViewWellFormed(q);
      CorpusViewKeyed(p);
      CorpusViewKeyed(q);
      CorpusKeysDiffer(p);
      SameKeys(p, q);
      CorpusViewsAlike(codec, p, q);
      SameDigest(codec, Dict(CorpusView(p)), Dict(CorpusView(q)), VOLATILE);
      DictsCleanAlike(codec, CorpusView(p), CorpusView(q), CorpusKeys(p));
    }
  }

  lemma {:induction false} SameVersion(codec: Codec, p: CorpusPacket, q: CorpusPacket)
    ensures SameCorpusPacket(codec, p, q) ==> p.packetVersion == q.packetVersion
  {
    hide SameInputs, SameCorpus, Alike;
  }
}
