/** Exactly which bundles the loaders accept, and as what (packets/loader.py, packets/corpus_bundle.py). */
module BundleAcceptance {
  import opened Wrappers
  import opened Texts
  import opened CanonicalHash
  import opened Receipts
  import opened Bundles

  // ---- Paths ----

  /** The path names something elsewhere: an address or a name of its own. */
  ghost predicate NamesElsewhere(path: string) {
    (exists scheme, rest :: path == scheme + "://" + rest) || exists name :: path == "urn:" + name
  }

  /** The path names a file of the bundle and nothing outside it. */
  ghost predicate Within(lib: Library, files: Directory, path: string) {
    !NamesElsewhere(path) && !lib.escapes(path) && path in files
  }

  lemma {:induction false} OccursMeans(needle: string, s: string)
    ensures Occurs(needle, s) <==> exists a, b :: s == a + needle + b
  {
    if needle <= s {
      assert s == "" + needle + s[|needle|..];
    } else if s != "" && |s| >= |needle| {
      OccursMeans(needle, s[1..]);
      if a, b :| s[1..] == a + needle + b { assert s == ([s[0]] + a) + needle + b; }
      if a, b :| s == a + needle + b {
        assert a == "" ==> s == needle + b;
        assert s[1..] == a[1..] + needle + b;
      }
    }
  }

  lemma {:induction false} ElsewhereMeans(path: string)
    ensures Remote(path) <==> NamesElsewhere(path)
  {
    OccursMeans("://", path);
    if "urn:" <= path { assert path == "urn:" + path[4..]; }
  }

  // ---- The manifest ----

  /** The bundle holds the member, with the hash and size it is listed with. */
  ghost predicate RightAbout(lib: Library, files: Directory, m: FileEntry) {
    Within(lib, files, m.path) && ArtifactHash(lib.codec, files[m.path]) == m.contentHash && |files[m.path]| == m.size
  }

  lemma {:induction false} RightMeans(lib: Library, files: Directory, m: FileEntry)
    ensures HeldAsListed(lib, files, m) <==> RightAbout(lib, files, m)
  {
    hide Remote, NamesElsewhere, ArtifactHash;
    ElsewhereMeans(m.path);
  }

  /** The bundle holds a manifest that reads as this one and is right about every member it lists. */
  ghost predicate Manifests(lib: Library, files: Directory, manifest: Manifest) {
    && Decodes(lib, files, "manifest.json", lib.manifestOf, manifest)
    && (forall i :: 0 <= i < |manifest.files| ==> RightAbout(lib, files, manifest.files[i]))
    && manifest.artifactHash == SemanticHash(lib.codec, FilesValue(manifest.files), VOLATILE)
  }

  /** The file is there, parses, and validates as this record. */
  ghost predicate Decodes<T(!new)>(lib: Library, files: Directory, path: string, validate: Json -> Option<T>, record: T) {
    path in files && lib.parse(files[path]).Some? && validate(lib.parse(files[path]).value) == Some(record)
  }

  lemma {:induction false} DecodesMeans<T(!new)>(lib: Library, files: Directory, path: string, validate: Json -> Option<T>, record: T)
    ensures Decodes(lib, files, path, validate, record) <==>
      ReadJson(lib, files, path).Some? && validate(ReadJson(lib, files, path).value) == Some(record)
  {
  }

  lemma {:induction false} ManifestsMeans(lib: Library, files: Directory, manifest: Manifest)
    ensures ManifestVerdict(lib, files) == Ok(manifest) <==> Manifests(lib, files, manifest)
  {
    hide ManifestVerdict, HeldAsListed, RightAbout, SemanticHash, FilesValue, ReadJson, Decodes;
    forall i | 0 <= i < |manifest.files| { RightMeans(lib, files, manifest.files[i]); }
    DecodesMeans(lib, files, "manifest.json", lib.manifestOf, manifest);
    ManifestAcceptedExactlyWhen(lib, files, manifest);
  }

  // ---- Corpus bundles ----

  /** The manifest names this packet by its identity and its semantic hash, which is the one recomputed. */
  ghost predicate NamesCorpus(lib: Library, manifest: Manifest, packet: CorpusPacket)
    requires packet.WellTyped()
  {
    && manifest.packetId == packet.packetId
    && manifest.semanticHash == packet.semanticHash == "sha256:" + CorpusDigest(lib.codec, packet)
  }

  /** The packet, its manifest and its payload are in the bundle and agree. */
  ghost predicate Carries(lib: Library, files: Directory, manifest: Manifest, packet: CorpusPacket, p: CorpusPacket) {
    && Manifests(lib, files, manifest) && Decodes(lib, files, "packet.json", lib.packetOf, packet)
    && packet.WellTyped() && NamesCorpus(lib, manifest, packet)
    && (forall d :: d in lib.domains ==> Bound(lib, files, packet, d))
    && lib.payloadOf(ParsedDomains(lib, files, packet)).Some?
    && p == packet.(payload := lib.payloadOf(ParsedDomains(lib, files, packet)))
  }

  lemma {:induction false} PayloadMeans(lib: Library, files: Directory, packet: CorpusPacket)
    ensures PayloadVerdict(lib, files, packet).Ok? <==>
      (forall d :: d in lib.domains ==> Bound(lib, files, packet, d)) && lib.payloadOf(ParsedDomains(lib, files, packet)).Some?
    ensures PayloadVerdict(lib, files, packet).Ok? ==>
      lib.payloadOf(ParsedDomains(lib, files, packet)) == Some(PayloadVerdict(lib, files, packet).value)
  {
    hide ReadDomains, Bound, ParsedDomains;
    ReadsExactlyTheBound(lib, files, packet, lib.domains, map[]);
    if forall d :: d in lib.domains ==> Bound(lib, files, packet, d) { PartsAreParsed(lib, files, packet); }
  }

  lemma {:induction false} PartsAreParsed(lib: Library, files: Directory, packet: CorpusPacket)
    requires forall d :: d in lib.domains ==> Bound(lib, files, packet, d)
    ensures ReadDomains(lib, files, packet, lib.domains, map[]) == Ok(ParsedDomains(lib, files, packet))
  {
    hide ReadDomains, ArtifactHash;
    ReadsExactlyTheBound(lib, files, packet, lib.domains, map[]);
    assert ReadDomains(lib, files, packet, lib.domains, map[]).value == ParsedDomains(lib, files, packet);
  }

  /** A corpus bundle is accepted, as some packet, exactly when it carries that packet. */
  lemma {:induction false} CorpusAcceptedExactlyWhen(lib: Library, files: Directory, p: CorpusPacket)
    requires lib.Faithful()
    ensures CorpusVerdict(lib, files) == Ok(p) <==> exists manifest, packet :: Carries(lib, files, manifest, packet, p)
  {
    hide ManifestVerdict, PayloadVerdict, CorpusDigest, ReadJson, Manifests, Decodes, Bound, ParsedDomains, ApartAndStable, Sorted;
    forall manifest ensures ManifestVerdict(lib, files) == Ok(manifest) <==> Manifests(lib, files, manifest) {
      ManifestsMeans(lib, files, manifest);
    }
    forall packet ensures Decodes(lib, files, "packet.json", lib.packetOf, packet) <==>
        ReadJson(lib, files, "packet.json").Some? && lib.packetOf(ReadJson(lib, files, "packet.json").value) == Some(packet)
    {
      DecodesMeans(lib, files, "packet.json", lib.packetOf, packet);
    }
    forall packet { PayloadMeans(lib, files, packet); }
    if CorpusVerdict(lib, files) == Ok(p) {
      var manifest := ManifestVerdict(lib, files).value;
      var packet := lib.packetOf(ReadJson(lib, files, "packet.json").value).value;
      assert Carries(lib, files, manifest, packet, p);
    }
  }

  /** A packet is rendered exactly when it has a payload and declares, for every domain of it, the hash of what
      is to be written; the error otherwise names exactly the domains where it does not. */
  lemma {:induction false} RenderedExactlyWhen(lib: Library, p: CorpusPacket, createdAt: string)
    requires p.payload.Some? ==> PayloadTyped(p.payload.value, lib.domains)
    ensures Rendered(lib, p, createdAt).Ok? <==> p.payload.Some? && forall d :: d in p.payload.value ==> Finished(lib, p, d)
    ensures Rendered(lib, p, createdAt).Err? ==>
      match Rendered(lib, p, createdAt).error
      case NoPayload => p.payload.None?
      case UnfinalizedDomains(domains) => p.payload.Some? && forall d :: d in domains <==> d in p.payload.value && !Finished(lib, p, d)
  {
    hide Members, ManifestOf, ArtifactHash;
    if p.payload.Some? {
      var bytes := PayloadBytes(lib.codec, p.payload.value);
      var mismatched := set d | d in bytes && (d !in p.payloadHashes || p.payloadHashes[d] != ArtifactHash(lib.codec, bytes[d]));
      forall d ensures d in mismatched <==> d in p.payload.value && !Finished(lib, p, d) {
      }
    }
  }

  /** The packet declares the hash of the domain as it will be written. */
  ghost predicate Finished(lib: Library, p: CorpusPacket, d: string)
    requires p.payload.Some? && PayloadTyped(p.payload.value, lib.domains)
  {
    d in p.payload.value && d in p.payloadHashes
    && p.payloadHashes[d] == ArtifactHash(lib.codec, lib.codec.text(Canonical(lib.codec, p.payload.value[d])) + "\n")
  }

  // ---- Topology bundles ----

  ghost predicate NamesTopology(lib: Library, manifest: Manifest, packet: TopologyPacket)
    requires packet.WellTyped()
  {
    && manifest.packetId == packet.packetId
    && manifest.semanticHash == packet.semanticHash == "sha256:" + TopologyDigest(lib.codec, packet)
  }

  /** A declared domain is in the bundle with the hash the packet gives it. */
  ghost predicate DomainHeld(lib: Library, files: Directory, packet: TopologyPacket, d: string) {
    d in packet.payloadRefs ==>
      && Within(lib, files, packet.payloadRefs[d]) && d in packet.payloadHashes
      && ArtifactHash(lib.codec, files[packet.payloadRefs[d]]) == packet.payloadHashes[d] && lib.parse(files[packet.payloadRefs[d]]).Some?
  }

  /** The records of a domain: those of its file, or none when it is not declared. */
  ghost predicate ReadsAs(lib: Library, files: Directory, packet: TopologyPacket, d: string, records: map<string, Json>) {
    && d in records
    && if d in packet.payloadRefs then packet.payloadRefs[d] in files && lib.parse(files[packet.payloadRefs[d]]) == Some(records[d])
       else records[d] == Arr([])
  }

  /** The receipt the packet refers to is in the bundle, is valid, passed and is about this very packet. */
  ghost predicate Vouches(lib: Library, files: Directory, packet: TopologyPacket, receipt: Receipt) {
    && packet.receiptRef.Some? && Within(lib, files, packet.receiptRef.value)
    && Decodes(lib, files, packet.receiptRef.value, lib.receiptOf, receipt)
    && receipt.WellTyped() && Validate(lib.codec, receipt) == Valid && receipt.status == "passed"
    && receipt.subjectPacketId == packet.packetId && receipt.subjectSemanticHash == packet.semanticHash
  }

  ghost predicate CarriesTopology(lib: Library, files: Directory, manifest: Manifest, p: LoadedTopology) {
    && Manifests(lib, files, manifest) && Decodes(lib, files, "packet.json", lib.topologyOf, p.packet)
    && p.packet.WellTyped() && NamesTopology(lib, manifest, p.packet)
    && p.records.Keys == (set d | d in TOPOLOGY_DOMAINS)
    && (forall d :: d in TOPOLOGY_DOMAINS ==> DomainHeld(lib, files, p.packet, d) && ReadsAs(lib, files, p.packet, d, p.records))
    && Vouches(lib, files, p.packet, p.receipt)
  }

  lemma {:induction false} WithinMeans(lib: Library, files: Directory, path: string)
    ensures Unresolved(lib, files, path).None? <==> Within(lib, files, path)
  {
    hide Remote, NamesElsewhere;
    ElsewhereMeans(path);
  }

  lemma {:induction false} RecordsMean(lib: Library, files: Directory, packet: TopologyPacket, records: map<string, Json>)
    ensures ReadRecords(lib, files, packet, TOPOLOGY_DOMAINS, map[]) == Ok(records) <==>
      && records.Keys == (set d | d in TOPOLOGY_DOMAINS)
      && forall d :: d in TOPOLOGY_DOMAINS ==> DomainHeld(lib, files, packet, d) && ReadsAs(lib, files, packet, d, records)
  {
    hide ReadRecords, TOPOLOGY_DOMAINS, Within, Unresolved, ArtifactHash, RecordBound, DomainHeld, ReadsAs;
    RecordsReadExactlyTheBound(lib, files, packet, TOPOLOGY_DOMAINS, map[]);
    forall d ensures RecordBound(lib, files, packet, d) <==> DomainHeld(lib, files, packet, d) { HeldMeans(lib, files, packet, d); }
    var read := ReadRecords(lib, files, packet, TOPOLOGY_DOMAINS, map[]);
    if read.Ok? {
      forall d | d in TOPOLOGY_DOMAINS
        ensures ReadsAs(lib, files, packet, d, read.value)
        ensures ReadsAs(lib, files, packet, d, records) ==> d in records && records[d] == read.value[d]
      {
        ReadsMean(lib, files, packet, d, read.value);
        ReadsMean(lib, files, packet, d, records);
      }
      if records.Keys == (set d | d in TOPOLOGY_DOMAINS) && (forall d :: d in TOPOLOGY_DOMAINS ==> ReadsAs(lib, files, packet, d, records)) {
        assert records == read.value;
      }
    }
  }

  lemma {:induction false} HeldMeans(lib: Library, files: Directory, packet: TopologyPacket, d: string)
    ensures RecordBound(lib, files, packet, d) <==> DomainHeld(lib, files, packet, d)
  {
    hide Within, Unresolved, ArtifactHash;
    if d in packet.payloadRefs { WithinMeans(lib, files, packet.payloadRefs[d]); }
    assert forall path :: Within(lib, files, path) ==> path in files by { WithinHolds(lib, files); }
  }

  lemma {:induction false} WithinHolds(lib: Library, files: Directory)
    ensures forall path :: Within(lib, files, path) ==> path in files
  {
  }

  lemma {:induction false} ReadsMean(lib: Library, files: Directory, packet: TopologyPacket, d: string, records: map<string, Json>)
    requires d in TOPOLOGY_DOMAINS && RecordBound(lib, files, packet, d)
    ensures ReadsAs(lib, files, packet, d, records) <==>
      d in records && records[d] == if d in packet.payloadRefs then lib.parse(files[packet.payloadRefs[d]]).value else Arr([])
  {
    hide TOPOLOGY_DOMAINS, ArtifactHash, Remote;
  }

  lemma {:induction false} ReceiptMeans(lib: Library, files: Directory, packet: TopologyPacket, receipt: Receipt)
    requires lib.Faithful()
    ensures ReceiptVerdict(lib, files, packet) == Ok(receipt) <==> Vouches(lib, files, packet, receipt)
  {
    hide Unresolved, Within, Decodes, ReadJson, Validate, ApartAndStable, Sorted;
    if packet.receiptRef.Some? {
      WithinMeans(lib, files, packet.receiptRef.value);
      DecodesMeans(lib, files, packet.receiptRef.value, lib.receiptOf, receipt);
    }
  }

  /** A topology bundle is accepted, as some packet with its records and receipt, exactly when it carries them. */
  lemma {:induction false} TopologyAcceptedExactlyWhen(lib: Library, files: Directory, p: LoadedTopology)
    requires lib.Faithful()
    ensures TopologyVerdict(lib, files) == Ok(p) <==> exists manifest :: CarriesTopology(lib, files, manifest, p)
  {
    hide ManifestVerdict, ReadRecords, ReceiptVerdict, TopologyDigest, ReadJson, Manifests, Decodes, DomainHeld, ReadsAs, Vouches, ApartAndStable, Sorted,
         TOPOLOGY_DOMAINS;
    forall manifest ensures ManifestVerdict(lib, files) == Ok(manifest) <==> Manifests(lib, files, manifest) {
      ManifestsMeans(lib, files, manifest);
    }
    DecodesMeans(lib, files, "packet.json", lib.topologyOf, p.packet);
    RecordsMean(lib, files, p.packet, p.records);
    ReceiptMeans(lib, files, p.packet, p.receipt);
    if TopologyVerdict(lib, files) == Ok(p) {
      assert CarriesTopology(lib, files, ManifestVerdict(lib, files).value, p);
    }
  }
}
