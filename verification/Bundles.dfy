/** Packet bundles: rendering, loading and what an accepted bundle is bound to
    (packets/corpus_bundle.py, packets/loader.py).

A bundle directory is a map from member path to bytes. JSON parsing, record validation and the question
whether a path leaves the bundle are library code, supplied by a `Library`. */
module Bundles {
  import opened Wrappers
  import opened Ordering
  import opened Texts
  import opened CanonicalHash
  import opened Receipts

  type Directory = map<string, string>
  /** A payload: each domain's records. */
  type Payload = map<string, Value>

  /** The payload domains of a corpus packet. */
  const CORPUS_FIELDS: seq<string> := [
    "document_work_signals", "exact_duplicate_relations", "semantic_pair_relations", "topic_candidates",
    "project_candidates", "consolidation_candidates", "readiness_evidence", "reasoning_candidates",
    "reasoning_evidence_pack_refs"
  ]

  const CORPUS_TYPE := "l9.corpus-intelligence"

  datatype FileEntry = FileEntry(path: string, mediaType: string, contentHash: string, size: nat)

  datatype Manifest = Manifest(
    packetId: string, packetType: string, packetVersion: string, semanticHash: string, artifactHash: string,
    files: seq<FileEntry>, createdAt: string)

  datatype PacketRef = PacketRef(
    packetId: string, packetType: string, packetVersion: string, uri: string, semanticHash: string, artifactHash: Option<string>,
    validationStatus: string, subjectId: Option<string>, sourceRevision: Option<string>)

  /** A corpus root, bound to the packet that observed it. */
  datatype RootRef = RootRef(rootId: string, identityClass: string, sourceRevision: string, packet: PacketRef, repositoryId: Option<string>)

  datatype Corpus = Corpus(corpusId: string, snapshotId: string, analysisId: string, roots: seq<RootRef>, coverage: Value)

  const MODEL_TYPE := "l9.repository-model"

  datatype CorpusPacket = CorpusPacket(
    packetVersion: string, packetId: string, producer: Value, profile: Value, inputs: seq<PacketRef>, corpus: Corpus,
    validation: Value, domainsNotRun: Option<Value>, schemaHash: string, semanticHash: string,
    artifactHash: Option<string>, payloadRefs: map<string, string>, payloadHashes: map<string, string>,
    payload: Option<Payload>, lineage: Value, createdAt: string)
  {
    /** What record validation has already established. */
    ghost predicate WellTyped() {
      && WellFormed(producer) && WellFormed(profile) && WellFormed(corpus.coverage) && corpus.coverage != NONE && WellFormed(lineage)
      && (forall i :: 0 <= i < |inputs| ==> inputs[i].packetType == MODEL_TYPE)
      && (forall i, j :: 0 <= i < j < |corpus.roots| ==> corpus.roots[i].rootId != corpus.roots[j].rootId)
      && (forall i :: 0 <= i < |corpus.roots| ==> corpus.roots[i].packet.packetType == MODEL_TYPE && Declared(corpus.roots[i].packet.packetId))
      && (domainsNotRun.Some? <==> packetVersion == "1.1.0")
      && (domainsNotRun.Some? ==> WellFormed(domainsNotRun.value))
    }

    /** The packet is one of the inputs. */
    ghost predicate Declared(id: string) { exists i :: 0 <= i < |inputs| && inputs[i].packetId == id }
  }

  ghost predicate PayloadTyped(p: Payload, domains: seq<string>) {
    && p.Keys == (set d | d in domains)
    && forall d :: d in p ==> WellFormed(p[d])
  }

  datatype TopologyPacket = TopologyPacket(
    packetVersion: string, packetId: string, producer: Value, profile: Value, inputs: Value, schemaHash: string,
    policyHashes: map<string, string>, payloadRefs: map<string, string>, payloadHashes: map<string, string>,
    receiptRef: Option<string>, semanticHash: string, lineage: Value)
  {
    ghost predicate WellTyped() {
      WellFormed(producer) && WellFormed(profile) && WellFormed(inputs) && WellFormed(lineage)
    }
  }

  /** The path names something elsewhere. */
  predicate Remote(path: string) { Occurs("://", path) || "urn:" <= path }

  /** Domains whose members have different local paths and whose names are hashed rather than stripped. */
  ghost predicate ApartAndStable(domains: seq<string>) {
    && (forall i, j :: 0 <= i < j < |domains| ==> PayloadPath(domains[i]) != PayloadPath(domains[j]))
    && (forall i :: 0 <= i < |domains| ==> !Remote(PayloadPath(domains[i])))
    && (forall i :: 0 <= i < |domains| ==> domains[i] !in VOLATILE)
  }

  datatype Library = Library(
    codec: Codec,
    domains: seq<string>,
    escapes: string -> bool,
    parse: string -> Option<Json>,
    packetJson: CorpusPacket -> Json, packetOf: Json -> Option<CorpusPacket>,
    manifestJson: Manifest -> Json, manifestOf: Json -> Option<Manifest>,
    payloadOf: map<string, Json> -> Option<Payload>,
    topologyOf: Json -> Option<TopologyPacket>,
    receiptOf: Json -> Option<Receipt>)
  {
    /** Parsing inverts printing, validation only returns well-typed records, and the members a bundle is
        rendered with stay inside it. */
    ghost predicate Faithful() {
      && codec.Faithful()
      && ApartAndStable(domains)
      && !escapes("packet.json") && (forall i :: 0 <= i < |domains| ==> !escapes(PayloadPath(domains[i])))
      && (forall j :: Sorted(j) ==> parse(codec.text(j) + "\n") == Some(j))
      && (forall j :: packetOf(j).Some? ==> packetOf(j).value.WellTyped())
      && (forall j :: topologyOf(j).Some? ==> topologyOf(j).value.WellTyped())
      && (forall j :: receiptOf(j).Some? ==> receiptOf(j).value.WellTyped())
    }

    /** Validation reads this packet's own serialisation, and that of any manifest, back as it was. */
    ghost predicate ReadsBack(p: CorpusPacket)
      requires p.payload.Some?
    {
      && (forall m: Manifest :: Sorted(manifestJson(m)) && manifestOf(manifestJson(m)) == Some(m))
      && Sorted(packetJson(p.(payload := None))) && packetOf(packetJson(p.(payload := None))) == Some(p.(payload := None))
      && payloadOf(PayloadJson(codec, p.payload.value)) == p.payload
    }
  }

  datatype LoadError =
    | RemoteMember(member: string)
    | EscapingMember(member: string)
    | Unreadable(member: string)
    | MemberHashMismatch(member: string)
    | MemberSizeMismatch(member: string)
    | ArtifactHashMismatch
    | PacketIdMismatch
    | ManifestSemanticHashMismatch
    | MissingRef(domain: string)
    | MissingHash(domain: string)
    | PayloadHashMismatch(domain: string)
    | InvalidPayload
    | SemanticHashMismatch
    | NoReceipt
    | InvalidReceipt(verdict: Verdict)
    | ReceiptNotPassed(status: string)
    | ForeignReceipt

  datatype RenderError = NoPayload | UnfinalizedDomains(domains: set<string>)

  // ---- Hashes of members and views ----

  /** `artifact_hash`. */
  function ArtifactHash(codec: Codec, content: string): string {
    "sha256:" + codec.hex(content)
  }

  lemma {:induction false} ArtifactHashBindsContent(codec: Codec, a: string, b: string)
    requires codec.Faithful() && ArtifactHash(codec, a) == ArtifactHash(codec, b)
    ensures a == b
  {
    assert ("sha256:" + codec.hex(a))[7..] == codec.hex(a);
    assert ("sha256:" + codec.hex(b))[7..] == codec.hex(b);
  }

  function TextFields(m: map<string, string>, keys: seq<string>): (r: seq<Field>)
    requires forall k :: k in keys ==> k in m
    ensures |r| == |keys|
    ensures forall i :: 0 <= i < |keys| ==> r[i] == Field(keys[i], Text(m[keys[i]]))
  {
    if keys == [] then [] else [Field(keys[0], Text(m[keys[0]]))] + TextFields(m, keys[1..])
  }

  function MapFields(m: map<string, string>): seq<Field> {
    TextFields(m, SortedIds(m.Keys))
  }

  /** A dictionary of strings, as data. */
  function MapValue(m: map<string, string>): (v: Value)
    ensures WellFormed(v)
  {
    MapFieldsDistinct(m);
    Dict(MapFields(m))
  }

  lemma {:induction false} MapFieldsDistinct(m: map<string, string>)
    ensures WellFormed(Dict(MapFields(m)))
  {
    var keys, fields := SortedIds(m.Keys), MapFields(m);
    forall i, j | 0 <= i < j < |fields| ensures fields[i].key != fields[j].key {
      assert Less(keys[i], keys[j]);
    }
  }

  function CorpusHead(p: CorpusPacket): seq<Field> {
    [ Field("packet_type", Text(CORPUS_TYPE)), Field("packet_version", Text(p.packetVersion)),
      Field("producer", p.producer), Field("profile", p.profile), Field("inputs", InputsValue(p.inputs)), Field("corpus", CorpusValue(p.corpus)) ]
  }

  function Maybe(s: Option<string>): Value { if s.None? then NONE else Text(s.value) }

  function RefFields(r: PacketRef): seq<Field> {
    [ Field("packet_id", Text(r.packetId)), Field("packet_type", Text(r.packetType)), Field("packet_version", Text(r.packetVersion)),
      Field("uri", Text(r.uri)), Field("semantic_hash", Text(r.semanticHash)), Field("artifact_hash", Maybe(r.artifactHash)),
      Field("validation_status", Text(r.validationStatus)), Field("subject_id", Maybe(r.subjectId)),
      Field("source_revision", Maybe(r.sourceRevision)) ]
  }

  function RefValue(r: PacketRef): Value { Model(RefFields(r)) }

  function RefValues(refs: seq<PacketRef>): seq<Value> { seq(|refs|, i requires 0 <= i < |refs| => RefValue(refs[i])) }

  function InputsFields(refs: seq<PacketRef>): seq<Field> { [Field("repository_model_packets", Listing(RefValues(refs)))] }

  function InputsValue(refs: seq<PacketRef>): Value { Model(InputsFields(refs)) }

  function RootFields(r: RootRef): seq<Field> {
    [ Field("root_id", Text(r.rootId)), Field("identity_class", Text(r.identityClass)), Field("source_revision", Text(r.sourceRevision)),
      Field("repository_model_packet", RefValue(r.packet)), Field("repository_id", Maybe(r.repositoryId)) ]
  }

  function RootValues(roots: seq<RootRef>): seq<Value> { seq(|roots|, i requires 0 <= i < |roots| => Model(RootFields(roots[i]))) }

  function CorpusFields(c: Corpus): seq<Field> {
    [ Field("corpus_id", Text(c.corpusId)), Field("corpus_source_snapshot_id", Text(c.snapshotId)),
      Field("corpus_analysis_id", Text(c.analysisId)), Field("root_refs", Listing(RootValues(c.roots))), Field("coverage", c.coverage) ]
  }

  function CorpusValue(c: Corpus): Value { Model(CorpusFields(c)) }

  const REF_KEYS: seq<string> := [
    "packet_id", "packet_type", "packet_version", "uri", "semantic_hash", "artifact_hash", "validation_status", "subject_id", "source_revision" ]
  const INPUTS_KEYS: seq<string> := ["repository_model_packets"]
  const ROOT_KEYS: seq<string> := ["root_id", "identity_class", "source_revision", "repository_model_packet", "repository_id"]
  const CORPUS_KEYS: seq<string> := ["corpus_id", "corpus_source_snapshot_id", "corpus_analysis_id", "root_refs", "coverage"]

  lemma {:induction false} RefKeysDiffer()
    ensures AllDifferent(REF_KEYS)
  {
  }

  lemma {:induction false} RootKeysDiffer()
    ensures AllDifferent(ROOT_KEYS) && AllDifferent(CORPUS_KEYS) && AllDifferent(INPUTS_KEYS)
  {
  }

  lemma {:induction false} RefWellFormed(r: PacketRef)
    ensures Keyed(RefFields(r), REF_KEYS) && WellFormed(RefValue(r))
  {
    RefKeysDiffer();
    TellApart(RefFields(r), REF_KEYS);
  }

  lemma {:induction false} RefsWellFormed(refs: seq<PacketRef>)
    ensures WellFormed(Listing(RefValues(refs)))
  {
    hide RefValue;
    forall i | 0 <= i < |refs| ensures WellFormed(RefValues(refs)[i]) { RefWellFormed(refs[i]); }
  }

  lemma {:induction false} InputsWellFormed(refs: seq<PacketRef>)
    ensures Keyed(InputsFields(refs), INPUTS_KEYS) && WellFormed(InputsValue(refs))
  {
    hide RefValues;
    RefsWellFormed(refs);
    TellApart(InputsFields(refs), INPUTS_KEYS);
  }

  lemma {:induction false} RootWellFormed(r: RootRef)
    ensures Keyed(RootFields(r), ROOT_KEYS) && WellFormed(Model(RootFields(r)))
  {
    hide RefValue;
    RootKeysDiffer();
    RefWellFormed(r.packet);
    TellApart(RootFields(r), ROOT_KEYS);
  }

  lemma {:induction false} RootsWellFormed(roots: seq<RootRef>)
    ensures WellFormed(Listing(RootValues(roots)))
  {
    hide RootFields;
    forall i | 0 <= i < |roots| ensures WellFormed(RootValues(roots)[i]) { RootWellFormed(roots[i]); }
  }

  lemma {:induction false} CorpusWellFormed(c: Corpus)
    requires WellFormed(c.coverage)
    ensures Keyed(CorpusFields(c), CORPUS_KEYS) && WellFormed(CorpusValue(c))
  {
    hide RootValues;
    RootKeysDiffer();
    RootsWellFormed(c.roots);
    TellApart(CorpusFields(c), CORPUS_KEYS);
  }

  function CorpusTail(p: CorpusPacket): seq<Field> {
    [ Field("schema_hash", Text(p.schemaHash)), Field("payload_refs", MapValue(p.payloadRefs)),
      Field("payload_hashes", MapValue(p.payloadHashes)), Field("lineage", p.lineage) ]
  }

  /** Only a 1.1.0 packet states which domains were not run. */
  function CorpusMiddle(p: CorpusPacket): seq<Field>
    requires p.packetVersion == "1.1.0" ==> p.domainsNotRun.Some?
  {
    if p.packetVersion == "1.1.0" then [Field("domains_not_run", p.domainsNotRun.value)] else []
  }

  /** `corpus_intelligence_semantic_view`. */
  function CorpusView(p: CorpusPacket): seq<Field>
    requires p.packetVersion == "1.1.0" ==> p.domainsNotRun.Some?
  {
    CorpusHead(p) + CorpusMiddle(p) + CorpusTail(p)
  }

  lemma {:induction false} CorpusViewWellFormed(p: CorpusPacket)
    requires p.WellTyped()
    ensures WellFormed(Dict(CorpusView(p)))
    ensures Field("payload_hashes", MapValue(p.payloadHashes)) in CorpusView(p)
  {
    hide CorpusHead, CorpusMiddle, CorpusTail, WellFormed, Keyed, MapValue, CorpusKeys;
    CorpusViewKeyed(p);
    CorpusKeysDiffer(p);
    TellApart(CorpusView(p), CorpusKeys(p));
    CorpusTailKeyed(p);
  }

  const HEAD_KEYS: seq<string> := ["packet_type", "packet_version", "producer", "profile", "inputs", "corpus"]
  const TAIL_KEYS: seq<string> := ["schema_hash", "payload_refs", "payload_hashes", "lineage"]

  function MiddleKeys(p: CorpusPacket): seq<string> { if p.packetVersion == "1.1.0" then ["domains_not_run"] else [] }

  function CorpusKeys(p: CorpusPacket): seq<string> { HEAD_KEYS + MiddleKeys(p) + TAIL_KEYS }

  lemma {:induction false} CorpusKeysDiffer(p: CorpusPacket)
    ensures AllDifferent(CorpusKeys(p))
  {
  }

  lemma {:induction false} CorpusViewKeyed(p: CorpusPacket)
    requires p.WellTyped()
    ensures Keyed(CorpusView(p), CorpusKeys(p))
  {
    hide CorpusHead, CorpusMiddle, CorpusTail, WellFormed, Keyed, MapValue;
    CorpusHeadKeyed(p);
    CorpusMiddleKeyed(p);
    CorpusTailKeyed(p);
    JoinKeyed(CorpusHead(p), CorpusMiddle(p), HEAD_KEYS, MiddleKeys(p));
    JoinKeyed(CorpusHead(p) + CorpusMiddle(p), CorpusTail(p), HEAD_KEYS + MiddleKeys(p), TAIL_KEYS);
  }

  lemma {:induction false} CorpusHeadKeyed(p: CorpusPacket)
    requires p.WellTyped()
    ensures Keyed(CorpusHead(p), HEAD_KEYS)
  {
    hide InputsValue, CorpusValue;
    InputsWellFormed(p.inputs);
    CorpusWellFormed(p.corpus);
  }

  lemma {:induction false} CorpusMiddleKeyed(p: CorpusPacket)
    requires p.WellTyped()
    ensures Keyed(CorpusMiddle(p), MiddleKeys(p))
  {
  }

  lemma {:induction false} CorpusTailKeyed(p: CorpusPacket)
    requires p.WellTyped()
    ensures Keyed(CorpusTail(p), TAIL_KEYS)
    ensures Field("payload_hashes", MapValue(p.payloadHashes)) in CorpusTail(p)
  {
    hide MapValue;
    assert CorpusTail(p)[2] in CorpusTail(p);
  }

  /** `calculate_corpus_semantic_hash`, without its prefix. */
  function CorpusDigest(codec: Codec, p: CorpusPacket): string
    requires p.WellTyped()
  {
    CorpusViewWellFormed(p);
    Digest(codec, Dict(CorpusView(p)), VOLATILE)
  }

  function TopologyHead(p: TopologyPacket): seq<Field> {
    [ Field("packet_type", Text("l9.topology")), Field("packet_version", Text(p.packetVersion)),
      Field("producer", p.producer), Field("profile", p.profile), Field("inputs", p.inputs) ]
  }

  function TopologyTail(p: TopologyPacket): seq<Field> {
    [ Field("schema_hash", Text(p.schemaHash)), Field("policy_hashes", MapValue(p.policyHashes)),
      Field("payload_refs", MapValue(p.payloadRefs)), Field("payload_hashes", MapValue(p.payloadHashes)),
      Field("lineage", p.lineage) ]
  }

  /** `topology_packet_semantic_view`. */
  function TopologyView(p: TopologyPacket): seq<Field> {
    TopologyHead(p) + TopologyTail(p)
  }

  const TOPOLOGY_HEAD_KEYS: seq<string> := ["packet_type", "packet_version", "producer", "profile", "inputs"]
  const TOPOLOGY_TAIL_KEYS: seq<string> := ["schema_hash", "policy_hashes", "payload_refs", "payload_hashes", "lineage"]

  lemma {:induction false} TopologyKeysDiffer()
    ensures AllDifferent(TOPOLOGY_HEAD_KEYS + TOPOLOGY_TAIL_KEYS)
  {
  }

  lemma {:induction false} TopologyViewWellFormed(p: TopologyPacket)
    requires p.WellTyped()
    ensures WellFormed(Dict(TopologyView(p)))
    ensures Field("payload_hashes", MapValue(p.payloadHashes)) in TopologyView(p)
    ensures Field("payload_refs", MapValue(p.payloadRefs)) in TopologyView(p)
  {
    hide TopologyHead, TopologyTail, WellFormed, MapValue;
    TopologyKeysDiffer();
    TopologyHeadKeyed(p);
    TopologyTailKeyed(p);
    JoinKeyed(TopologyHead(p), TopologyTail(p), TOPOLOGY_HEAD_KEYS, TOPOLOGY_TAIL_KEYS);
    TellApart(TopologyView(p), TOPOLOGY_HEAD_KEYS + TOPOLOGY_TAIL_KEYS);
  }

  lemma {:induction false} TopologyHeadKeyed(p: TopologyPacket)
    requires p.WellTyped()
    ensures Keyed(TopologyHead(p), TOPOLOGY_HEAD_KEYS)
  {
  }

  lemma {:induction false} TopologyTailKeyed(p: TopologyPacket)
    requires p.WellTyped()
    ensures Keyed(TopologyTail(p), TOPOLOGY_TAIL_KEYS)
    ensures Field("payload_hashes", MapValue(p.payloadHashes)) in TopologyTail(p)
    ensures Field("payload_refs", MapValue(p.payloadRefs)) in TopologyTail(p)
  {
    hide MapValue;
    assert TopologyTail(p)[2] in TopologyTail(p);
    assert TopologyTail(p)[3] in TopologyTail(p);
  }

  /** `calculate_topology_semantic_hash`, without its prefix. */
  function TopologyDigest(codec: Codec, p: TopologyPacket): string
    requires p.WellTyped()
  {
    TopologyViewWellFormed(p);
    Digest(codec, Dict(TopologyView(p)), VOLATILE)
  }

  // ---- Rendering a corpus bundle ----

  /** `corpus_payload_path`. */
  function PayloadPath(domain: string): string {
    "payload/" + Dashed(domain) + ".json"
  }

  function PayloadJson(codec: Codec, p: Payload): map<string, Json> {
    map d | d in p :: Canonical(codec, p[d])
  }

  /** `corpus_payload_bytes`. */
  function PayloadBytes(codec: Codec, p: Payload): map<string, string> {
    map d | d in p :: CanonicalText(codec, p[d]) + "\n"
  }

  function PayloadHashes(codec: Codec, p: Payload): map<string, string> {
    map d | d in p :: ArtifactHash(codec, PayloadBytes(codec, p)[d])
  }

  function PayloadRefs(domains: seq<string>): map<string, string> {
    map d | d in domains :: PayloadPath(d)
  }

  /** `finalize_corpus_intelligence_packet`. */
  function Finalized(lib: Library, p: CorpusPacket): CorpusPacket
    requires p.WellTyped() && p.payload.Some?
  {
    var candidate := p.(payloadRefs := PayloadRefs(lib.domains), payloadHashes := PayloadHashes(lib.codec, p.payload.value),
                        packetId := "packet:pending", semanticHash := "sha256:pending");
    var digest := CorpusDigest(lib.codec, candidate);
    candidate.(packetId := "packet:" + digest, semanticHash := "sha256:" + digest)
  }

  function FilesValue(files: seq<FileEntry>): (v: Value)
    ensures WellFormed(v)
  {
    Listing(FileItems(files))
  }

  function FileItems(files: seq<FileEntry>): (r: seq<Value>)
    ensures |r| == |files|
    ensures forall i :: 0 <= i < |r| ==> WellFormed(r[i])
  {
    if files == [] then []
    else
      var f := files[0];
      var fields := [Field("path", Text(f.path)), Field("media_type", Text(f.mediaType)),
                     Field("content_hash", Text(f.contentHash)), Field("size_bytes", Raw(Int(f.size)))];
      TellApart(fields, ["path", "media_type", "content_hash", "size_bytes"]);
      [Model(fields)] + FileItems(files[1..])
  }

  /** The members a manifest lists, in path order. */
  function Entries(codec: Codec, files: Directory, paths: seq<string>): (r: seq<FileEntry>)
    requires forall p :: p in paths ==> p in files
    ensures |r| == |paths|
    ensures forall i :: 0 <= i < |r| ==>
      r[i] == FileEntry(paths[i], "application/json", ArtifactHash(codec, files[paths[i]]), |files[paths[i]]|)
  {
    if paths == [] then []
    else
      [FileEntry(paths[0], "application/json", ArtifactHash(codec, files[paths[0]]), |files[paths[0]]|)]
      + Entries(codec, files, paths[1..])
  }

  /** The payload members of a bundle. */
  function PayloadMembers(bytes: map<string, string>, domains: seq<string>): Directory
    requires forall d :: d in domains ==> d in bytes
  {
    if domains == [] then map[]
    else PayloadMembers(bytes, domains[1..])[PayloadPath(domains[0]) := bytes[domains[0]]]
  }

  lemma {:induction false} PathsAreApart(i: nat, j: nat)
    requires i < j < 9
    ensures PayloadPath(CORPUS_FIELDS[i]) != PayloadPath(CORPUS_FIELDS[j])
  {
    CorpusFieldsDiffer();
    PathShowsField(CORPUS_FIELDS[i]);
    PathShowsField(CORPUS_FIELDS[j]);
  }

  /** A domain's path shows how long its name is and its third character. */
  lemma {:induction false} PathShowsField(d: string)
    requires |d| > 2 && d[2] != '_'
    ensures |PayloadPath(d)| == 13 + |d| && PayloadPath(d)[10] == d[2]
  {
  }

  /** The corpus packet's own domains are such a layout. */
  lemma {:induction false} CorpusFieldsApartAndStable()
    ensures ApartAndStable(CORPUS_FIELDS)
  {
    forall i, j | 0 <= i < j < |CORPUS_FIELDS| ensures PayloadPath(CORPUS_FIELDS[i]) != PayloadPath(CORPUS_FIELDS[j]) {
      PathsAreApart(i, j);
    }
    forall i | 0 <= i < |CORPUS_FIELDS| ensures CORPUS_FIELDS[i] !in VOLATILE {
      VolatileAreShort(CORPUS_FIELDS[i]);
    }
    hide CORPUS_FIELDS, Remote;
    forall i | 0 <= i < |CORPUS_FIELDS| ensures !Remote(PayloadPath(CORPUS_FIELDS[i])) {
      FieldsHaveNoColon(i);
      PathIsLocal(CORPUS_FIELDS[i]);
    }
  }

  lemma {:induction false} FieldsHaveNoColon(i: nat)
    requires i < |CORPUS_FIELDS|
    ensures ':' !in CORPUS_FIELDS[i]
  {
  }

  lemma {:induction false} PathIsLocal(d: string)
    requires ':' !in d
    ensures !Remote(PayloadPath(d))
  {
    var dashed := Dashed(d);
    assert forall k :: 0 <= k < |dashed| && dashed[k] == ':' ==> d[k] == ':';
    assert ':' !in dashed && ':' !in "payload/" && ':' !in ".json";
    NoColonNoScheme(PayloadPath(d));
    assert PayloadPath(d)[0] == 'p';
  }

  lemma {:induction false} NoColonNoScheme(s: string)
    requires ':' !in s
    ensures !Occurs("://", s)
  {
    if s != "" {
      assert s[0] in s && "://"[0] == ':';
      NoColonNoScheme(s[1..]);
    }
  }

  lemma {:induction false} VolatileAreShort(key: string)
    ensures key in VOLATILE ==> |key| <= 14
  {
  }

  /** No two domains have names of one length and one third character. */
  lemma {:induction false} CorpusFieldsDiffer()
    ensures forall i :: 0 <= i < 9 ==> |CORPUS_FIELDS[i]| > 2 && CORPUS_FIELDS[i][2] != '_'
    ensures forall i, j :: 0 <= i < j < 9 ==> |CORPUS_FIELDS[i]| != |CORPUS_FIELDS[j]| || CORPUS_FIELDS[i][2] != CORPUS_FIELDS[j][2]
  {
  }

  function Members(lib: Library, p: CorpusPacket): Directory
    requires p.payload.Some? && PayloadTyped(p.payload.value, lib.domains)
  {
    PayloadMembers(PayloadBytes(lib.codec, p.payload.value), lib.domains)
      ["packet.json" := lib.codec.text(lib.packetJson(p.(payload := None))) + "\n"]
  }

  function ManifestOf(lib: Library, p: CorpusPacket, createdAt: string): Manifest
    requires p.payload.Some? && PayloadTyped(p.payload.value, lib.domains)
  {
    var members := Members(lib, p);
    var entries := Entries(lib.codec, members, SortedIds(members.Keys));
    Manifest(p.packetId, CORPUS_TYPE, p.packetVersion, p.semanticHash,
             SemanticHash(lib.codec, FilesValue(entries), VOLATILE), entries, createdAt)
  }

  /** `build_corpus_intelligence_bundle_artifacts`, as the directory the artifacts are written to. */
  function Rendered(lib: Library, p: CorpusPacket, createdAt: string): Result<Directory, RenderError>
    requires p.payload.Some? ==> PayloadTyped(p.payload.value, lib.domains)
  {
    if p.payload.None? then Err(NoPayload)
    else
      var bytes := PayloadBytes(lib.codec, p.payload.value);
      var mismatched := set d | d in bytes && (d !in p.payloadHashes || p.payloadHashes[d] != ArtifactHash(lib.codec, bytes[d]));
      if mismatched != {} then Err(UnfinalizedDomains(mismatched))
      else Ok(Members(lib, p)["manifest.json" := lib.codec.text(lib.manifestJson(ManifestOf(lib, p, createdAt))) + "\n"])
  }

  // ---- Loading ----

  function ReadJson(lib: Library, files: Directory, path: string): Option<Json> {
    if path in files then lib.parse(files[path]) else None
  }

  /** `_resolve_member`: why the path names no member of the bundle, if it does not. */
  function Unresolved(lib: Library, files: Directory, path: string): (r: Option<LoadError>)
    ensures r.None? ==> path in files
  {
    if Remote(path) then Some(RemoteMember(path))
    else if lib.escapes(path) then Some(EscapingMember(path))
    else if path !in files then Some(Unreadable(path))
    else None
  }

  /** The first member that is not in the bundle or differs from what the manifest says of it. */
  function FirstBadMember(lib: Library, files: Directory, members: seq<FileEntry>): Option<LoadError> {
    if members == [] then None
    else
      var m := members[0];
      if Unresolved(lib, files, m.path).Some? then Unresolved(lib, files, m.path)
      else if ArtifactHash(lib.codec, files[m.path]) != m.contentHash then Some(MemberHashMismatch(m.path))
      else if |files[m.path]| != m.size then Some(MemberSizeMismatch(m.path))
      else FirstBadMember(lib, files, members[1..])
  }

  /** The bundle holds the member as listed. */
  predicate HeldAsListed(lib: Library, files: Directory, m: FileEntry) {
    !Remote(m.path) && !lib.escapes(m.path) && m.path in files
    && ArtifactHash(lib.codec, files[m.path]) == m.contentHash && |files[m.path]| == m.size
  }

  lemma {:induction false} NoBadMemberExactlyWhenHeld(lib: Library, files: Directory, members: seq<FileEntry>)
    ensures FirstBadMember(lib, files, members).None? <==> forall i :: 0 <= i < |members| ==> HeldAsListed(lib, files, members[i])
  {
    hide Remote, ArtifactHash;
    if members != [] {
      NoBadMemberExactlyWhenHeld(lib, files, members[1..]);
      assert members == [members[0]] + members[1..];
    }
  }

  /** A bundle's manifest is accepted exactly when it can be read, every member it lists is in the bundle
      with its hash and size, and the artifact hash is that of the list. */
  lemma {:induction false} ManifestAcceptedExactlyWhen(lib: Library, files: Directory, manifest: Manifest)
    ensures ManifestVerdict(lib, files) == Ok(manifest) <==>
      && ReadJson(lib, files, "manifest.json").Some? && lib.manifestOf(ReadJson(lib, files, "manifest.json").value) == Some(manifest)
      && (forall i :: 0 <= i < |manifest.files| ==> HeldAsListed(lib, files, manifest.files[i]))
      && manifest.artifactHash == SemanticHash(lib.codec, FilesValue(manifest.files), VOLATILE)
  {
    hide FirstBadMember, HeldAsListed, SemanticHash, FilesValue, ReadJson;
    NoBadMemberExactlyWhenHeld(lib, files, manifest.files);
  }

  function ManifestVerdict(lib: Library, files: Directory): Result<Manifest, LoadError> {
    var json := ReadJson(lib, files, "manifest.json");
    if json.None? || lib.manifestOf(json.value).None? then Err(Unreadable("manifest.json"))
    else
      var manifest := lib.manifestOf(json.value).value;
      var bad := FirstBadMember(lib, files, manifest.files);
      if bad.Some? then Err(bad.value)
      else if manifest.artifactHash != SemanticHash(lib.codec, FilesValue(manifest.files), VOLATILE) then Err(ArtifactHashMismatch)
      else Ok(manifest)
  }

  /** `verify_bundle_manifest`. */
  method VerifyBundleManifest(lib: Library, files: Directory) returns (r: Result<Manifest, LoadError>)
    ensures r == ManifestVerdict(lib, files)
  {
    var json := ReadJson(lib, files, "manifest.json");
    if json.None? || lib.manifestOf(json.value).None? {
      return Err(Unreadable("manifest.json"));
    }
    var manifest := lib.manifestOf(json.value).value;
    for i := 0 to |manifest.files|
      invariant FirstBadMember(lib, files, manifest.files) == FirstBadMember(lib, files, manifest.files[i..])
    {
      var m := manifest.files[i];
      var unresolved := Unresolved(lib, files, m.path);
      if unresolved.Some? { return Err(unresolved.value); }
      if ArtifactHash(lib.codec, files[m.path]) != m.contentHash { return Err(MemberHashMismatch(m.path)); }
      if |files[m.path]| != m.size { return Err(MemberSizeMismatch(m.path)); }
    }
    if manifest.artifactHash != SemanticHash(lib.codec, FilesValue(manifest.files), VOLATILE) {
      return Err(ArtifactHashMismatch);
    }
    r := Ok(manifest);
  }

  /** Read the domains one after another into `parts`, refusing at the first that is not as declared. */
  function ReadDomains(lib: Library, files: Directory, p: CorpusPacket, domains: seq<string>, parts: map<string, Json>)
    : Result<map<string, Json>, LoadError>
  {
    if domains == [] then Ok(parts)
    else
      var d := domains[0];
      if d !in p.payloadRefs then Err(MissingRef(d))
      else if p.payloadRefs[d] !in files then Err(Unreadable(p.payloadRefs[d]))
      else if d !in p.payloadHashes then Err(MissingHash(d))
      else if ArtifactHash(lib.codec, files[p.payloadRefs[d]]) != p.payloadHashes[d] then Err(PayloadHashMismatch(d))
      else if lib.parse(files[p.payloadRefs[d]]).None? then Err(Unreadable(p.payloadRefs[d]))
      else ReadDomains(lib, files, p, domains[1..], parts[d := lib.parse(files[p.payloadRefs[d]]).value])
  }

  function PayloadVerdict(lib: Library, files: Directory, p: CorpusPacket): Result<Payload, LoadError> {
    var parts := ReadDomains(lib, files, p, lib.domains, map[]);
    if parts.Err? then Err(parts.error)
    else if lib.payloadOf(parts.value).None? then Err(InvalidPayload)
    else Ok(lib.payloadOf(parts.value).value)
  }

  /** `_read_payload`. */
  method ReadPayload(lib: Library, files: Directory, p: CorpusPacket) returns (r: Result<Payload, LoadError>)
    ensures r == PayloadVerdict(lib, files, p)
  {
    var parts: map<string, Json> := map[];
    for i := 0 to |lib.domains|
      invariant ReadDomains(lib, files, p, lib.domains, map[]) == ReadDomains(lib, files, p, lib.domains[i..], parts)
    {
      var d := lib.domains[i];
      if d !in p.payloadRefs { return Err(MissingRef(d)); }
      var reference := p.payloadRefs[d];
      if reference !in files { return Err(Unreadable(reference)); }
      if d !in p.payloadHashes { return Err(MissingHash(d)); }
      if ArtifactHash(lib.codec, files[reference]) != p.payloadHashes[d] { return Err(PayloadHashMismatch(d)); }
      var json := lib.parse(files[reference]);
      if json.None? { return Err(Unreadable(reference)); }
      parts := parts[d := json.value];
    }
    if lib.payloadOf(parts).None? { return Err(InvalidPayload); }
    r := Ok(lib.payloadOf(parts).value);
  }

  /** The packet `load_corpus_intelligence_bundle` returns, or why it refuses. */
  function CorpusVerdict(lib: Library, files: Directory): Result<CorpusPacket, LoadError>
    requires lib.Faithful()
  {
    var manifest := ManifestVerdict(lib, files);
    var json := ReadJson(lib, files, "packet.json");
    if manifest.Err? then Err(manifest.error)
    else if json.None? || lib.packetOf(json.value).None? then Err(Unreadable("packet.json"))
    else
      var packet := lib.packetOf(json.value).value;
      if manifest.value.packetId != packet.packetId then Err(PacketIdMismatch)
      else if manifest.value.semanticHash != packet.semanticHash then Err(ManifestSemanticHashMismatch)
      else
        var payload := PayloadVerdict(lib, files, packet);
        if payload.Err? then Err(payload.error)
        else if "sha256:" + CorpusDigest(lib.codec, packet) != packet.semanticHash then Err(SemanticHashMismatch)
        else Ok(packet.(payload := Some(payload.value)))
  }

  /** `load_corpus_intelligence_bundle`. */
  method LoadCorpusBundle(lib: Library, files: Directory) returns (r: Result<CorpusPacket, LoadError>)
    requires lib.Faithful()
    ensures r == CorpusVerdict(lib, files)
  {
    var manifest := VerifyBundleManifest(lib, files);
    if manifest.Err? { return Err(manifest.error); }
    var json := ReadJson(lib, files, "packet.json");
    if json.None? || lib.packetOf(json.value).None? { return Err(Unreadable("packet.json")); }
    var packet := lib.packetOf(json.value).value;
    if manifest.value.packetId != packet.packetId { return Err(PacketIdMismatch); }
    if manifest.value.semanticHash != packet.semanticHash { return Err(ManifestSemanticHashMismatch); }
    var payload := ReadPayload(lib, files, packet);
    if payload.Err? { return Err(payload.error); }
    if "sha256:" + CorpusDigest(lib.codec, packet) != packet.semanticHash { return Err(SemanticHashMismatch); }
    r := Ok(packet.(payload := Some(payload.value)));
  }

  /** What a topology bundle holds once loaded: an absent domain reads as no records. */
  datatype LoadedTopology = LoadedTopology(packet: TopologyPacket, records: map<string, Json>, receipt: Receipt)

  const TOPOLOGY_DOMAINS: seq<string> := [
    "repository_records", "artifact_records", "capability_records", "semantic_claims", "edge_records", "flow_records",
    "graph_records", "risks", "maturity", "impact_indexes", "corpus_records", "root_records", "candidate_relations",
    "candidate_clusters", "readiness_evidence", "topology_reasoning_candidates", "evidence", "diagnostics", "unknowns",
    "conflicts"
  ]

  function ReadRecords(lib: Library, files: Directory, p: TopologyPacket, domains: seq<string>, records: map<string, Json>)
    : Result<map<string, Json>, LoadError>
  {
    if domains == [] then Ok(records)
    else
      var d := domains[0];
      if d !in p.payloadRefs then ReadRecords(lib, files, p, domains[1..], records[d := Arr([])])
      else if Unresolved(lib, files, p.payloadRefs[d]).Some? then Err(Unresolved(lib, files, p.payloadRefs[d]).value)
      else if d !in p.payloadHashes then Err(MissingHash(d))
      else if ArtifactHash(lib.codec, files[p.payloadRefs[d]]) != p.payloadHashes[d] then Err(PayloadHashMismatch(d))
      else if lib.parse(files[p.payloadRefs[d]]).None? then Err(Unreadable(p.payloadRefs[d]))
      else ReadRecords(lib, files, p, domains[1..], records[d := lib.parse(files[p.payloadRefs[d]]).value])
  }

  function ReceiptVerdict(lib: Library, files: Directory, p: TopologyPacket): Result<Receipt, LoadError>
    requires lib.Faithful()
  {
    if p.receiptRef.None? then Err(NoReceipt)
    else if Unresolved(lib, files, p.receiptRef.value).Some? then Err(Unresolved(lib, files, p.receiptRef.value).value)
    else
      var json := ReadJson(lib, files, p.receiptRef.value);
      if json.None? || lib.receiptOf(json.value).None? then Err(Unreadable(p.receiptRef.value))
      else
        var receipt := lib.receiptOf(json.value).value;
        if Validate(lib.codec, receipt) != Valid then Err(InvalidReceipt(Validate(lib.codec, receipt)))
        else if receipt.status != "passed" then Err(ReceiptNotPassed(receipt.status))
        else if receipt.subjectPacketId != p.packetId || receipt.subjectSemanticHash != p.semanticHash then Err(ForeignReceipt)
        else Ok(receipt)
  }

  /** What `load_topology_bundle` returns, or why it refuses. */
  function TopologyVerdict(lib: Library, files: Directory): Result<LoadedTopology, LoadError>
    requires lib.Faithful()
  {
    var manifest := ManifestVerdict(lib, files);
    var json := ReadJson(lib, files, "packet.json");
    if manifest.Err? then Err(manifest.error)
    else if json.None? || lib.topologyOf(json.value).None? then Err(Unreadable("packet.json"))
    else
      var packet := lib.topologyOf(json.value).value;
      if packet.packetId != manifest.value.packetId then Err(PacketIdMismatch)
      else if packet.semanticHash != manifest.value.semanticHash then Err(ManifestSemanticHashMismatch)
      else if "sha256:" + TopologyDigest(lib.codec, packet) != packet.semanticHash then Err(SemanticHashMismatch)
      else
        var records := ReadRecords(lib, files, packet, TOPOLOGY_DOMAINS, map[]);
        var receipt := ReceiptVerdict(lib, files, packet);
        if records.Err? then Err(records.error)
        else if receipt.Err? then Err(receipt.error)
        else Ok(LoadedTopology(packet, records.value, receipt.value))
  }

  /** The inner `load_records`, domain by domain. */
  method ReadTopologyRecords(lib: Library, files: Directory, p: TopologyPacket) returns (r: Result<map<string, Json>, LoadError>)
    ensures r == ReadRecords(lib, files, p, TOPOLOGY_DOMAINS, map[])
  {
    hide Unresolved, ArtifactHash, TOPOLOGY_DOMAINS;
    var records: map<string, Json> := map[];
    for i := 0 to |TOPOLOGY_DOMAINS|
      invariant ReadRecords(lib, files, p, TOPOLOGY_DOMAINS, map[]) == ReadRecords(lib, files, p, TOPOLOGY_DOMAINS[i..], records)
    {
      var d := TOPOLOGY_DOMAINS[i];
      if d !in p.payloadRefs {
        records := records[d := Arr([])];
      } else {
        var reference := p.payloadRefs[d];
        var unresolved := Unresolved(lib, files, reference);
        if unresolved.Some? { return Err(unresolved.value); }
        if d !in p.payloadHashes { return Err(MissingHash(d)); }
        if ArtifactHash(lib.codec, files[reference]) != p.payloadHashes[d] { return Err(PayloadHashMismatch(d)); }
        var json := lib.parse(files[reference]);
        if json.None? { return Err(Unreadable(reference)); }
        records := records[d := json.value];
      }
    }
    r := Ok(records);
  }

  /** `load_topology_bundle`. */
  method LoadTopologyBundle(lib: Library, files: Directory) returns (r: Result<LoadedTopology, LoadError>)
    requires lib.Faithful()
    ensures r == TopologyVerdict(lib, files)
  {
    var manifest := VerifyBundleManifest(lib, files);
    if manifest.Err? { return Err(manifest.error); }
    var json := ReadJson(lib, files, "packet.json");
    if json.None? || lib.topologyOf(json.value).None? { return Err(Unreadable("packet.json")); }
    var packet := lib.topologyOf(json.value).value;
    if packet.packetId != manifest.value.packetId { return Err(PacketIdMismatch); }
    if packet.semanticHash != manifest.value.semanticHash { return Err(ManifestSemanticHashMismatch); }
    if "sha256:" + TopologyDigest(lib.codec, packet) != packet.semanticHash { return Err(SemanticHashMismatch); }
    var records := ReadTopologyRecords(lib, files, packet);
    if records.Err? { return Err(records.error); }
    var receipt := ReceiptVerdict(lib, files, packet);
    if receipt.Err? { return Err(receipt.error); }
    r := Ok(LoadedTopology(packet, records.value, receipt.value));
  }

  // ---- A finalized packet's bundle is accepted ----

  lemma {:induction false} MembersHoldDomains(bytes: map<string, string>, domains: seq<string>, path: string)
    requires forall d :: d in domains ==> d in bytes
    requires forall i, j :: 0 <= i < j < |domains| ==> PayloadPath(domains[i]) != PayloadPath(domains[j])
    ensures path in PayloadMembers(bytes, domains) <==> exists i :: 0 <= i < |domains| && path == PayloadPath(domains[i])
    ensures forall i :: 0 <= i < |domains| && path == PayloadPath(domains[i]) ==>
      path in PayloadMembers(bytes, domains) && PayloadMembers(bytes, domains)[path] == bytes[domains[i]]
  {
    if domains != [] {
      MembersHoldDomains(bytes, domains[1..], path);
      if path == PayloadPath(domains[0]) {
        assert PayloadMembers(bytes, domains)[path] == bytes[domains[0]];
      } else {
        forall i | 0 <= i < |domains| && path == PayloadPath(domains[i])
          ensures path in PayloadMembers(bytes, domains) && PayloadMembers(bytes, domains)[path] == bytes[domains[i]]
        {
          assert domains[1..][i - 1] == domains[i];
        }
      }
    }
  }

  lemma {:induction false} PayloadPathsAreNested(d: string)
    ensures PayloadPath(d) != "packet.json" && PayloadPath(d) != "manifest.json"
  {
    assert PayloadPath(d)[0] == 'p' && PayloadPath(d)[2] == 'y';
    assert "packet.json"[2] == 'c' && "manifest.json"[0] == 'm';
  }

  lemma {:induction false} EntriesVerify(lib: Library, members: Directory, files: Directory, paths: seq<string>)
    requires forall p :: p in paths ==> p in members && p in files && files[p] == members[p] && !Remote(p) && !lib.escapes(p)
    ensures FirstBadMember(lib, files, Entries(lib.codec, members, paths)) == None
  {
    hide Remote;
    if paths != [] {
      EntriesVerify(lib, members, files, paths[1..]);
      assert paths[0] in paths;
      assert Entries(lib.codec, members, paths)[1..] == Entries(lib.codec, members, paths[1..]);
    }
  }

  /** Every domain still to be read is present in the directory and as the packet declares it. */
  ghost predicate Bound(lib: Library, files: Directory, p: CorpusPacket, d: string) {
    && d in p.payloadRefs && p.payloadRefs[d] in files && d in p.payloadHashes
    && ArtifactHash(lib.codec, files[p.payloadRefs[d]]) == p.payloadHashes[d]
    && lib.parse(files[p.payloadRefs[d]]).Some?
  }

  /** The domains are read exactly when each is bound, and then each reads as its member parses. */
  lemma {:induction false} ReadsExactlyTheBound(lib: Library, files: Directory, p: CorpusPacket, domains: seq<string>, parts: map<string, Json>)
    ensures ReadDomains(lib, files, p, domains, parts).Ok? <==> forall d :: d in domains ==> Bound(lib, files, p, d)
    ensures ReadDomains(lib, files, p, domains, parts).Ok? ==>
      var read := ReadDomains(lib, files, p, domains, parts).value;
      && read.Keys == parts.Keys + (set d | d in domains)
      && (forall d :: d in domains ==> read[d] == lib.parse(files[p.payloadRefs[d]]).value)
      && (forall d :: d in parts && d !in domains ==> read[d] == parts[d])
    decreases |domains|
  {
    if domains != [] {
      var d := domains[0];
      assert domains == [d] + domains[1..];
      if Bound(lib, files, p, d) {
        ReadsExactlyTheBound(lib, files, p, domains[1..], parts[d := lib.parse(files[p.payloadRefs[d]]).value]);
      } else {
        assert d in domains;
      }
    }
  }

  lemma {:induction false} MembersOf(lib: Library, q: CorpusPacket, domain: string)
    requires lib.Faithful() && q.payload.Some? && PayloadTyped(q.payload.value, lib.domains) && domain in lib.domains
    ensures PayloadPath(domain) in Members(lib, q)
    ensures Members(lib, q)[PayloadPath(domain)] == CanonicalText(lib.codec, q.payload.value[domain]) + "\n"
    ensures PayloadPath(domain) != "manifest.json"
  {
    hide Remote, Canonical, Sorted, Dashed;
    var bytes := PayloadBytes(lib.codec, q.payload.value);
    PayloadPathsAreNested(domain);
    MembersHoldDomains(bytes, lib.domains, PayloadPath(domain));
    var i :| 0 <= i < |lib.domains| && lib.domains[i] == domain;
  }

  lemma {:induction false} ManifestAccepted(lib: Library, q: CorpusPacket, createdAt: string, files: Directory)
    requires lib.Faithful() && q.payload.Some? && PayloadTyped(q.payload.value, lib.domains)
    requires forall m: Manifest :: Sorted(lib.manifestJson(m)) && lib.manifestOf(lib.manifestJson(m)) == Some(m)
    requires files == Members(lib, q)["manifest.json" := lib.codec.text(lib.manifestJson(ManifestOf(lib, q, createdAt))) + "\n"]
    ensures ManifestVerdict(lib, files) == Ok(ManifestOf(lib, q, createdAt))
    ensures "manifest.json" !in Members(lib, q)
  {
    hide Library.Faithful, Members, SemanticHash, FilesValue, ApartAndStable, Sorted, Remote;
    var members := Members(lib, q);
    var manifest := ManifestOf(lib, q, createdAt);
    NoManifestYet(lib, q);
    ParsesBack(lib, lib.manifestJson(manifest));
    forall p | p in members ensures !Remote(p) && !lib.escapes(p) { MembersAreLocal(lib, q, p); }
    EntriesVerify(lib, members, files, SortedIds(members.Keys));
  }

  lemma {:induction false} MembersAreLocal(lib: Library, q: CorpusPacket, p: string)
    requires lib.Faithful() && q.payload.Some? && PayloadTyped(q.payload.value, lib.domains) && p in Members(lib, q)
    ensures !Remote(p) && !lib.escapes(p)
  {
    hide Remote;
    if p == "packet.json" {
      PlainIsLocal();
    } else {
      MembersHoldDomains(PayloadBytes(lib.codec, q.payload.value), lib.domains, p);
    }
  }

  lemma {:induction false} PlainIsLocal()
    ensures !Remote("packet.json")
  {
    NoColonNoScheme("packet.json");
    assert "packet.json"[0] == 'p';
  }

  lemma {:induction false} ParsesBack(lib: Library, j: Json)
    requires lib.Faithful() && Sorted(j)
    ensures lib.parse(lib.codec.text(j) + "\n") == Some(j)
  {
  }

  lemma {:induction false} NoManifestYet(lib: Library, q: CorpusPacket)
    requires lib.Faithful() && q.payload.Some? && PayloadTyped(q.payload.value, lib.domains)
    ensures "manifest.json" !in Members(lib, q)
  {
    MembersHoldDomains(PayloadBytes(lib.codec, q.payload.value), lib.domains, "manifest.json");
    forall i | 0 <= i < |lib.domains| ensures PayloadPath(lib.domains[i]) != "manifest.json" {
      PayloadPathsAreNested(lib.domains[i]);
    }
    assert "manifest.json"[0] == 'm' && "packet.json"[0] == 'p';
  }

  lemma {:induction false} FinalizedIsConsistent(lib: Library, p: CorpusPacket)
    requires p.WellTyped() && p.payload.Some?
    ensures var q := Finalized(lib, p);
      && q.WellTyped() && q.payload == p.payload
      && q.semanticHash == "sha256:" + CorpusDigest(lib.codec, q.(payload := None))
      && q.payloadHashes == PayloadHashes(lib.codec, p.payload.value) && q.payloadRefs == PayloadRefs(lib.domains)
  {
    var q := Finalized(lib, p);
    var candidate := p.(payloadRefs := PayloadRefs(lib.domains), payloadHashes := PayloadHashes(lib.codec, p.payload.value),
                        packetId := "packet:pending", semanticHash := "sha256:pending");
    assert CorpusView(candidate) == CorpusView(q.(payload := None));
  }

  /** Rendering a finalized packet succeeds, and loading what was rendered returns that packet with
      the same payload. */
  lemma {:induction false} FinalizedBundleLoads(lib: Library, p: CorpusPacket, createdAt: string)
    requires lib.Faithful() && p.WellTyped() && p.payload.Some? && PayloadTyped(p.payload.value, lib.domains)
    requires lib.ReadsBack(Finalized(lib, p))
    ensures var q := Finalized(lib, p);
      && Rendered(lib, q, createdAt).Ok?
      && CorpusVerdict(lib, Rendered(lib, q, createdAt).value) == Ok(q)
      && q.payload == p.payload
  {
    hide Library.Faithful, Members, ManifestOf, Finalized, CorpusDigest, Sorted, ApartAndStable, ManifestVerdict;
    var q := Finalized(lib, p);
    FinalizedIsConsistent(lib, p);
    FinalizedIsRenderable(lib, p, createdAt);
    var bare := q.(payload := None);
    var files := Rendered(lib, q, createdAt).value;
    ManifestAccepted(lib, q, createdAt, files);
    PacketMember(lib, q, createdAt, files);
    PayloadReads(lib, q, files);
  }

  lemma {:induction false} FinalizedIsRenderable(lib: Library, p: CorpusPacket, createdAt: string)
    requires p.WellTyped() && p.payload.Some? && PayloadTyped(p.payload.value, lib.domains)
    ensures Rendered(lib, Finalized(lib, p), createdAt).Ok?
  {
    hide Members, ManifestOf, CorpusDigest;
    FinalizedIsConsistent(lib, p);
  }

  lemma {:induction false} PacketMember(lib: Library, q: CorpusPacket, createdAt: string, files: Directory)
    requires lib.Faithful() && q.payload.Some? && PayloadTyped(q.payload.value, lib.domains) && lib.ReadsBack(q)
    requires files == Members(lib, q)["manifest.json" := lib.codec.text(lib.manifestJson(ManifestOf(lib, q, createdAt))) + "\n"]
    ensures ReadJson(lib, files, "packet.json") == Some(lib.packetJson(q.(payload := None)))
    ensures ManifestOf(lib, q, createdAt).packetId == q.packetId && ManifestOf(lib, q, createdAt).semanticHash == q.semanticHash
  {
    hide Library.Faithful, Sorted;
    assert "packet.json"[0] == 'p' && "manifest.json"[0] == 'm';
    ParsesBack(lib, lib.packetJson(q.(payload := None)));
  }

  lemma {:induction false} DomainReads(lib: Library, q: CorpusPacket, files: Directory, d: string)
    requires lib.Faithful() && q.payload.Some? && PayloadTyped(q.payload.value, lib.domains) && d in lib.domains
    requires q.payloadRefs == PayloadRefs(lib.domains) && q.payloadHashes == PayloadHashes(lib.codec, q.payload.value)
    requires forall path :: path in Members(lib, q) && path != "manifest.json" ==> path in files && files[path] == Members(lib, q)[path]
    ensures Bound(lib, files, q.(payload := None), d)
    ensures lib.parse(files[q.payloadRefs[d]]) == Some(Canonical(lib.codec, q.payload.value[d]))
  {
    hide Library.Faithful, Sorted, Members, Canonical, PayloadPath;
    MembersOf(lib, q, d);
    CanonicalIsSorted(lib.codec, q.payload.value[d]);
    ParsesBack(lib, Canonical(lib.codec, q.payload.value[d]));
  }

  lemma {:induction false} PayloadReads(lib: Library, q: CorpusPacket, files: Directory)
    requires lib.Faithful() && q.payload.Some? && PayloadTyped(q.payload.value, lib.domains) && lib.ReadsBack(q)
    requires q.payloadRefs == PayloadRefs(lib.domains) && q.payloadHashes == PayloadHashes(lib.codec, q.payload.value)
    requires forall path :: path in Members(lib, q) && path != "manifest.json" ==> path in files && files[path] == Members(lib, q)[path]
    ensures PayloadVerdict(lib, files, q.(payload := None)) == Ok(q.payload.value)
  {
    hide Library.Faithful, Sorted, Members, Canonical, WellFormed, ArtifactHash, PayloadPath, ReadDomains, PayloadHashes, PayloadRefs;
    var bare := q.(payload := None);
    forall d | d in lib.domains
      ensures Bound(lib, files, bare, d) && lib.parse(files[bare.payloadRefs[d]]) == Some(Canonical(lib.codec, q.payload.value[d]))
    {
      DomainReads(lib, q, files, d);
    }
    ReadsExactlyTheBound(lib, files, bare, lib.domains, map[]);
    var read := ReadDomains(lib, files, bare, lib.domains, map[]).value;
    assert read == PayloadJson(lib.codec, q.payload.value);
  }

  // ---- The semantic hash binds the bytes of every domain ----

  lemma {:induction false} SameCleanedMaps(codec: Codec, a: map<string, string>, b: map<string, string>, k: string)
    requires Delete(Canonical(codec, MapValue(a)), VOLATILE) == Delete(Canonical(codec, MapValue(b)), VOLATILE)
    requires k in a && k !in VOLATILE
    ensures k in b && a[k] == b[k]
  {
    hide VOLATILE, MapFields;
    var fa, fb := MapFields(a), MapFields(b);
    MapFieldsHold(a, Field(k, Text(a[k])));
    CleanedEntry(codec, fa, VOLATILE, Field(k, Text(a[k])));
    var e := Entry(k, Leaf(Str(a[k])));
    DeleteEntry(CanonicalFields(codec, fb, false), VOLATILE, e);
    var d :| d in CanonicalFields(codec, fb, false) && d.key !in VOLATILE && e == Entry(d.key, Delete(d.value, VOLATILE));
    CanonicalEntry(codec, fb, false, d);
    var f :| f in fb && d == Entry(f.key, Canonical(codec, f.value));
    MapFieldsHold(b, f);
  }

  lemma {:induction false} MapFieldsHold(m: map<string, string>, f: Field)
    ensures f in MapFields(m) <==> f.key in m && f.value == Text(m[f.key])
  {
    var keys := SortedIds(m.Keys);
    if f.key in m && f.value == Text(m[f.key]) {
      var i :| 0 <= i < |keys| && keys[i] == f.key;
      assert MapFields(m)[i] == f;
    }
  }

  lemma {:induction false} SameDigestText(d: string, e: string)
    requires "sha256:" + d == "sha256:" + e
    ensures d == e
  {
    assert ("sha256:" + d)[7..] == d && ("sha256:" + e)[7..] == e;
  }

  lemma {:induction false} AcceptedCorpus(lib: Library, files: Directory, p: CorpusPacket)
    requires lib.Faithful() && CorpusVerdict(lib, files) == Ok(p)
    ensures p.WellTyped() && p.semanticHash == "sha256:" + CorpusDigest(lib.codec, p)
    ensures forall d :: d in lib.domains ==> Bound(lib, files, p, d)
    ensures p.payload.Some? && lib.payloadOf(ParsedDomains(lib, files, p)) == p.payload
  {
    hide CorpusVerdict, ReadDomains, Library.Faithful, CorpusDigest, ArtifactHash, WellFormed, Bound;
    var bare := VerdictUnfolds(lib, files, p);
    ReadsExactlyTheBound(lib, files, bare, lib.domains, map[]);
    forall d | d in lib.domains ensures Bound(lib, files, p, d) { SameBinding(lib, files, bare, p, d); }
    var read := ReadDomains(lib, files, bare, lib.domains, map[]).value;
    assert read == ParsedDomains(lib, files, p);
  }

  lemma {:induction false} VerdictUnfolds(lib: Library, files: Directory, p: CorpusPacket) returns (bare: CorpusPacket)
    requires lib.Faithful() && CorpusVerdict(lib, files) == Ok(p)
    ensures bare.WellTyped() && p.WellTyped() && p.payload.Some? && p == bare.(payload := p.payload)
    ensures PayloadVerdict(lib, files, bare) == Ok(p.payload.value)
    ensures p.semanticHash == "sha256:" + CorpusDigest(lib.codec, p)
  {
    hide ManifestVerdict, PayloadVerdict, Sorted, ApartAndStable, Digest, ReadJson;
    bare := lib.packetOf(ReadJson(lib, files, "packet.json").value).value;
    assert CorpusView(bare) == CorpusView(p);
  }

  lemma {:induction false} SameBinding(lib: Library, files: Directory, p: CorpusPacket, q: CorpusPacket, d: string)
    requires Bound(lib, files, p, d) && p.payloadRefs == q.payloadRefs && p.payloadHashes == q.payloadHashes
    ensures Bound(lib, files, q, d)
  {
  }

  /** What the domains of an accepted bundle parse as. */
  function ParsedDomains(lib: Library, files: Directory, p: CorpusPacket): map<string, Json>
    requires forall d :: d in lib.domains ==> Bound(lib, files, p, d)
  {
    map d | d in lib.domains :: (assert Bound(lib, files, p, d); lib.parse(files[p.payloadRefs[d]]).value)
  }

  /** Two accepted corpus bundles with one semantic hash carry byte-identical content in every
      payload domain, and so the same payload. */
  lemma {:induction false} CorpusHashBindsPayload(lib: Library, a: Directory, b: Directory, p: CorpusPacket, q: CorpusPacket)
    requires lib.Faithful() && CorpusVerdict(lib, a) == Ok(p) && CorpusVerdict(lib, b) == Ok(q)
    requires p.semanticHash == q.semanticHash
    ensures forall d :: d in lib.domains ==> SameBytes(a, b, p.payloadRefs, q.payloadRefs, d)
    ensures p.payload == q.payload
  {
    hide CorpusVerdict, Bound, ApartAndStable, Sorted, VOLATILE, CorpusDigest, MapValue, WellFormed, SameBytes;
    AcceptedCorpus(lib, a, p);
    AcceptedCorpus(lib, b, q);
    SameDigestText(CorpusDigest(lib.codec, p), CorpusDigest(lib.codec, q));
    SameCorpusHashes(lib.codec, p, q);
    forall d | d in lib.domains
      ensures Bound(lib, a, p, d) && Bound(lib, b, q, d) && SameBytes(a, b, p.payloadRefs, q.payloadRefs, d)
    {
      DomainIsStable(lib, d);
      SameBoundBytes(lib, a, b, p, q, d);
    }
    SameParse(lib, a, b, p, q);
  }

  lemma {:induction false} SameParse(lib: Library, a: Directory, b: Directory, p: CorpusPacket, q: CorpusPacket)
    requires forall d :: d in lib.domains ==> Bound(lib, a, p, d)
    requires forall d :: d in lib.domains ==> Bound(lib, b, q, d)
    requires forall d :: d in lib.domains ==> SameBytes(a, b, p.payloadRefs, q.payloadRefs, d)
    ensures ParsedDomains(lib, a, p) == ParsedDomains(lib, b, q)
  {
    hide ArtifactHash;
    var x, y := ParsedDomains(lib, a, p), ParsedDomains(lib, b, q);
    forall d | d in lib.domains ensures x[d] == y[d] {
      assert Bound(lib, a, p, d) && Bound(lib, b, q, d) && SameBytes(a, b, p.payloadRefs, q.payloadRefs, d);
    }
    assert x == y;
  }

  /** One domain's member is present in both directories with the same bytes. */
  ghost predicate SameBytes(a: Directory, b: Directory, refsA: map<string, string>, refsB: map<string, string>, d: string) {
    d in refsA && refsA[d] in a && d in refsB && refsB[d] in b && a[refsA[d]] == b[refsB[d]]
  }

  lemma {:induction false} DomainIsStable(lib: Library, d: string)
    requires lib.Faithful() && d in lib.domains
    ensures d !in VOLATILE
  {
    hide VOLATILE, Sorted, PayloadPath;
    var i :| 0 <= i < |lib.domains| && lib.domains[i] == d;
  }

  lemma {:induction false} SameCorpusHashes(codec: Codec, p: CorpusPacket, q: CorpusPacket)
    requires codec.Faithful() && p.WellTyped() && q.WellTyped() && CorpusDigest(codec, p) == CorpusDigest(codec, q)
    ensures Delete(Canonical(codec, MapValue(p.payloadHashes)), VOLATILE) == Delete(Canonical(codec, MapValue(q.payloadHashes)), VOLATILE)
  {
    hide CorpusHead, CorpusMiddle, CorpusTail, MapValue, Digest, WellFormed, Codec.Faithful;
    CorpusViewWellFormed(p);
    CorpusViewWellFormed(q);
    HashesKeyStable();
    SameDigestSameField(codec, CorpusView(p), CorpusView(q), VOLATILE,
                        Field("payload_hashes", MapValue(p.payloadHashes)), Field("payload_hashes", MapValue(q.payloadHashes)));
  }

  lemma {:induction false} HashesKeyStable()
    ensures "payload_hashes" !in VOLATILE && "payload_refs" !in VOLATILE
  {
  }

  lemma {:induction false} SameBoundBytes(lib: Library, a: Directory, b: Directory, p: CorpusPacket, q: CorpusPacket, d: string)
    requires lib.Faithful() && Bound(lib, a, p, d) && Bound(lib, b, q, d) && d !in VOLATILE
    requires Delete(Canonical(lib.codec, MapValue(p.payloadHashes)), VOLATILE) == Delete(Canonical(lib.codec, MapValue(q.payloadHashes)), VOLATILE)
    ensures SameBytes(a, b, p.payloadRefs, q.payloadRefs, d)
  {
    hide VOLATILE, ArtifactHash, Canonical, MapValue, Codec.Faithful;
    SameCleanedMaps(lib.codec, p.payloadHashes, q.payloadHashes, d);
    ArtifactHashBindsContent(lib.codec, a[p.payloadRefs[d]], b[q.payloadRefs[d]]);
  }

  ghost predicate RecordBound(lib: Library, files: Directory, p: TopologyPacket, d: string) {
    d in p.payloadRefs ==>
      && Unresolved(lib, files, p.payloadRefs[d]).None? && d in p.payloadHashes
      && ArtifactHash(lib.codec, files[p.payloadRefs[d]]) == p.payloadHashes[d]
      && lib.parse(files[p.payloadRefs[d]]).Some?
  }

  lemma {:induction false} RecordsReadExactlyTheBound(lib: Library, files: Directory, p: TopologyPacket, domains: seq<string>, records: map<string, Json>)
    ensures ReadRecords(lib, files, p, domains, records).Ok? <==> forall d :: d in domains ==> RecordBound(lib, files, p, d)
    ensures ReadRecords(lib, files, p, domains, records).Ok? ==>
      var read := ReadRecords(lib, files, p, domains, records).value;
      && (forall d :: d in domains ==> d in read)
      && (forall d :: d in domains ==>
            read[d] == if d in p.payloadRefs then lib.parse(files[p.payloadRefs[d]]).value else Arr([]))
      && (forall d :: d in records && d !in domains ==> d in read && read[d] == records[d])
      && read.Keys == records.Keys + (set d | d in domains)
    decreases |domains|
  {
    if domains != [] {
      var d := domains[0];
      assert domains == [d] + domains[1..];
      if d !in p.payloadRefs {
        RecordsReadExactlyTheBound(lib, files, p, domains[1..], records[d := Arr([])]);
      } else if RecordBound(lib, files, p, d) {
        RecordsReadExactlyTheBound(lib, files, p, domains[1..], records[d := lib.parse(files[p.payloadRefs[d]]).value]);
      } else {
        assert d in domains;
      }
    }
  }

  lemma {:induction false} TopologyFieldsStable(d: string)
    requires d in TOPOLOGY_DOMAINS
    ensures d !in VOLATILE
  {
    var i :| 0 <= i < |TOPOLOGY_DOMAINS| && TOPOLOGY_DOMAINS[i] == d;
    TopologyFieldStable(i);
  }

  lemma {:induction false} TopologyFieldStable(i: nat)
    requires i < |TOPOLOGY_DOMAINS|
    ensures TOPOLOGY_DOMAINS[i] !in VOLATILE
  {
  }

  /** Two accepted topology bundles with one semantic hash reference the same domains, carry
      byte-identical content in each, and hence the same records; each was accepted under a valid
      passed receipt naming that very packet and hash. */
  lemma {:induction false} TopologyHashBindsPayload(lib: Library, a: Directory, b: Directory, p: LoadedTopology, q: LoadedTopology)
    requires lib.Faithful() && TopologyVerdict(lib, a) == Ok(p) && TopologyVerdict(lib, b) == Ok(q)
    requires p.packet.semanticHash == q.packet.semanticHash
    ensures forall d :: d in TOPOLOGY_DOMAINS ==>
      && (d in p.packet.payloadRefs <==> d in q.packet.payloadRefs)
      && (d in p.packet.payloadRefs ==> SameBytes(a, b, p.packet.payloadRefs, q.packet.payloadRefs, d))
    ensures p.records == q.records
    ensures p.receipt.WellTyped() && Validate(lib.codec, p.receipt) == Valid && p.receipt.status == "passed"
    ensures p.receipt.subjectPacketId == p.packet.packetId && p.receipt.subjectSemanticHash == p.packet.semanticHash
  {
    hide TopologyVerdict, RecordBound, ReadRecords, VOLATILE, Validate, TopologyDigest, MapValue, Library.Faithful, WellFormed, TOPOLOGY_DOMAINS, SameBytes;
    var x, y := p.packet, q.packet;
    TopologyVerdictUnfolds(lib, a, p);
    TopologyVerdictUnfolds(lib, b, q);
    SameDigestText(TopologyDigest(lib.codec, x), TopologyDigest(lib.codec, y));
    CodecIsFaithful(lib);
    SameTopologyHashes(lib.codec, x, y);
    RecordsReadExactlyTheBound(lib, a, x, TOPOLOGY_DOMAINS, map[]);
    RecordsReadExactlyTheBound(lib, b, y, TOPOLOGY_DOMAINS, map[]);
    forall d | d in TOPOLOGY_DOMAINS
      ensures d in x.payloadRefs <==> d in y.payloadRefs
      ensures d in x.payloadRefs ==> SameBytes(a, b, x.payloadRefs, y.payloadRefs, d)
    {
      TopologyFieldsStable(d);
      if d in x.payloadRefs { SameRecordBytes(lib, a, b, x, y, d); }
      if d in y.payloadRefs { SameRecordBytes(lib, b, a, y, x, d); }
    }
    SameRecords(lib, a, b, x, y, p.records, q.records);
  }

  lemma {:induction false} CodecIsFaithful(lib: Library)
    requires lib.Faithful()
    ensures lib.codec.Faithful()
  {
  }

  lemma {:induction false} SameRecords(lib: Library, a: Directory, b: Directory, p: TopologyPacket, q: TopologyPacket,
                    records: map<string, Json>, others: map<string, Json>)
    requires ReadRecords(lib, a, p, TOPOLOGY_DOMAINS, map[]) == Ok(records)
    requires ReadRecords(lib, b, q, TOPOLOGY_DOMAINS, map[]) == Ok(others)
    requires forall d :: d in TOPOLOGY_DOMAINS ==> (d in p.payloadRefs <==> d in q.payloadRefs)
    requires forall d :: d in TOPOLOGY_DOMAINS && d in p.payloadRefs ==> SameBytes(a, b, p.payloadRefs, q.payloadRefs, d)
    ensures records == others
  {
    hide ReadRecords, TOPOLOGY_DOMAINS, ArtifactHash, RecordBound;
    RecordsReadExactlyTheBound(lib, a, p, TOPOLOGY_DOMAINS, map[]);
    RecordsReadExactlyTheBound(lib, b, q, TOPOLOGY_DOMAINS, map[]);
    assert records == others;
  }

  lemma {:induction false} TopologyVerdictUnfolds(lib: Library, files: Directory, p: LoadedTopology)
    requires lib.Faithful() && TopologyVerdict(lib, files) == Ok(p)
    ensures p.packet.WellTyped() && p.packet.semanticHash == "sha256:" + TopologyDigest(lib.codec, p.packet)
    ensures ReadRecords(lib, files, p.packet, TOPOLOGY_DOMAINS, map[]) == Ok(p.records)
    ensures p.receipt.WellTyped() && Validate(lib.codec, p.receipt) == Valid && p.receipt.status == "passed"
    ensures p.receipt.subjectPacketId == p.packet.packetId && p.receipt.subjectSemanticHash == p.packet.semanticHash
  {
    hide ManifestVerdict, ReadRecords, TOPOLOGY_DOMAINS, Validate, ApartAndStable, Sorted, TopologyDigest, WellFormed;
  }

  lemma {:induction false} SameTopologyHashes(codec: Codec, p: TopologyPacket, q: TopologyPacket)
    requires codec.Faithful() && p.WellTyped() && q.WellTyped() && TopologyDigest(codec, p) == TopologyDigest(codec, q)
    ensures Delete(Canonical(codec, MapValue(p.payloadHashes)), VOLATILE) == Delete(Canonical(codec, MapValue(q.payloadHashes)), VOLATILE)
    ensures Delete(Canonical(codec, MapValue(p.payloadRefs)), VOLATILE) == Delete(Canonical(codec, MapValue(q.payloadRefs)), VOLATILE)
  {
    hide TopologyView, MapValue, Digest, WellFormed, TopologyPacket.WellTyped, Codec.Faithful;
    TopologyViewWellFormed(p);
    TopologyViewWellFormed(q);
    HashesKeyStable();
    SameDigestSameField(codec, TopologyView(p), TopologyView(q), VOLATILE,
                        Field("payload_hashes", MapValue(p.payloadHashes)), Field("payload_hashes", MapValue(q.payloadHashes)));
    SameDigestSameField(codec, TopologyView(p), TopologyView(q), VOLATILE,
                        Field("payload_refs", MapValue(p.payloadRefs)), Field("payload_refs", MapValue(q.payloadRefs)));
  }

  lemma {:induction false} SameRecordBytes(lib: Library, a: Directory, b: Directory, p: TopologyPacket, q: TopologyPacket, d: string)
    requires lib.Faithful() && RecordBound(lib, a, p, d) && RecordBound(lib, b, q, d) && d !in VOLATILE && d in p.payloadRefs
    requires Delete(Canonical(lib.codec, MapValue(p.payloadHashes)), VOLATILE) == Delete(Canonical(lib.codec, MapValue(q.payloadHashes)), VOLATILE)
    requires Delete(Canonical(lib.codec, MapValue(p.payloadRefs)), VOLATILE) == Delete(Canonical(lib.codec, MapValue(q.payloadRefs)), VOLATILE)
    ensures d in q.payloadRefs
    ensures SameBytes(a, b, p.payloadRefs, q.payloadRefs, d)
  {
    hide VOLATILE, ArtifactHash, Canonical, MapValue, Codec.Faithful;
    SameCleanedMaps(lib.codec, p.payloadRefs, q.payloadRefs, d);
    SameCleanedMaps(lib.codec, p.payloadHashes, q.payloadHashes, d);
    ArtifactHashBindsContent(lib.codec, a[p.payloadRefs[d]], b[q.payloadRefs[d]]);
  }

  // ---- What the semantic hash binds of a packet's inputs ----

  lemma {:induction false} TextsCleanAlike(codec: Codec, s: string, t: string)
    ensures Cleaned(codec, Text(s), VOLATILE) == Cleaned(codec, Text(t), VOLATILE) <==> s == t
  {
  }

  lemma {:induction false} MaybesCleanAlike(codec: Codec, s: Option<string>, t: Option<string>)
    ensures Cleaned(codec, Maybe(s), VOLATILE) == Cleaned(codec, Maybe(t), VOLATILE) <==> s == t
  {
  }

  /** The references differ in no more than the packet's identity and hashes. */
  predicate SameButIdentity(a: PacketRef, b: PacketRef) {
    a == b.(packetId := a.packetId, semanticHash := a.semanticHash, artifactHash := a.artifactHash)
  }

  lemma {:induction false} RefKeysStable()
    ensures "packet_id" in VOLATILE && "semantic_hash" in VOLATILE && "artifact_hash" in VOLATILE
    ensures forall i :: 0 <= i < |REF_KEYS| && i != 0 && i != 4 && i != 5 ==> REF_KEYS[i] !in VOLATILE
  {
  }

  lemma {:induction false} RefsCleanAlike(codec: Codec, a: PacketRef, b: PacketRef)
    ensures Cleaned(codec, RefValue(a), VOLATILE) == Cleaned(codec, RefValue(b), VOLATILE) <==> SameButIdentity(a, b)
  {
    hide VOLATILE, Cleaned, Text, Maybe, WellFormed, FieldsCleanAlike;
    RefKeysDiffer();
    RefWellFormed(a);
    RefWellFormed(b);
    ModelsCleanAlike(codec, RefFields(a), RefFields(b), REF_KEYS);
    RefFieldsCleanAlike(codec, a, b);
  }

  lemma {:induction false} ModelsCleanAlike(codec: Codec, a: seq<Field>, b: seq<Field>, keys: seq<string>)
    requires Keyed(a, keys) && Keyed(b, keys) && AllDifferent(keys)
    ensures Cleaned(codec, Model(a), VOLATILE) == Cleaned(codec, Model(b), VOLATILE) <==> FieldsCleanAlike(codec, a, b, VOLATILE)
  {
    hide CanonicalFields, DeleteEntries, FieldsCleanAlike, VOLATILE;
    RecordsCleanAlike(codec, a, b, keys, true, VOLATILE);
  }

  lemma {:induction false} RefFieldsCleanAlike(codec: Codec, a: PacketRef, b: PacketRef)
    ensures FieldsCleanAlike(codec, RefFields(a), RefFields(b), VOLATILE) <==> SameButIdentity(a, b)
  {
    hide VOLATILE, Cleaned, Text, Maybe;
    RefKeysStable();
    TextsCleanAlike(codec, a.packetType, b.packetType);
    TextsCleanAlike(codec, a.packetVersion, b.packetVersion);
    TextsCleanAlike(codec, a.uri, b.uri);
    TextsCleanAlike(codec, a.validationStatus, b.validationStatus);
    MaybesCleanAlike(codec, a.subjectId, b.subjectId);
    MaybesCleanAlike(codec, a.sourceRevision, b.sourceRevision);
    var x, y := RefFields(a), RefFields(b);
    assert forall i :: 0 <= i < 9 ==> x[i].key == REF_KEYS[i];
    assert FieldsCleanAlike(codec, x, y, VOLATILE) <==>
      FieldAlike(codec, x, y, 1) && FieldAlike(codec, x, y, 2) && FieldAlike(codec, x, y, 3) && FieldAlike(codec, x, y, 6)
      && FieldAlike(codec, x, y, 7) && FieldAlike(codec, x, y, 8);
  }

  ghost predicate FieldAlike(codec: Codec, a: seq<Field>, b: seq<Field>, i: nat)
    requires i < |a| == |b|
  {
    Cleaned(codec, a[i].value, VOLATILE) == Cleaned(codec, b[i].value, VOLATILE)
  }

  /** The lists name packets that differ in no more than identity and hashes, in the same order. */
  predicate SameInputs(a: seq<PacketRef>, b: seq<PacketRef>) {
    |a| == |b| && forall i :: 0 <= i < |a| ==> SameButIdentity(a[i], b[i])
  }

  lemma {:induction false} InputsCleanAlike(codec: Codec, a: seq<PacketRef>, b: seq<PacketRef>)
    ensures Cleaned(codec, InputsValue(a), VOLATILE) == Cleaned(codec, InputsValue(b), VOLATILE) <==> SameInputs(a, b)
  {
    hide VOLATILE, Cleaned, WellFormed, RefValue, SameButIdentity;
    InputsWellFormed(a);
    InputsWellFormed(b);
    ModelsCleanAlike(codec, InputsFields(a), InputsFields(b), INPUTS_KEYS);
    InputsKeyStable();
    ListsCleanAlike(codec, RefValues(a), RefValues(b), VOLATILE);
    assert FieldsCleanAlike(codec, InputsFields(a), InputsFields(b), VOLATILE) <==> FieldAlike(codec, InputsFields(a), InputsFields(b), 0);
    if |a| == |b| {
      forall i | 0 <= i < |a|
        ensures Cleaned(codec, RefValues(a)[i], VOLATILE) == Cleaned(codec, RefValues(b)[i], VOLATILE) <==> SameButIdentity(a[i], b[i])
      {
        RefsCleanAlike(codec, a[i], b[i]);
      }
    }
  }

  lemma {:induction false} InputsKeyStable()
    ensures "repository_model_packets" !in VOLATILE && "inputs" !in VOLATILE && "corpus" !in VOLATILE
    ensures forall i :: 0 <= i < |ROOT_KEYS| ==> ROOT_KEYS[i] !in VOLATILE
    ensures forall i :: 0 <= i < |CORPUS_KEYS| ==> CORPUS_KEYS[i] !in VOLATILE
  {
  }

  predicate SameRoot(a: RootRef, b: RootRef) { a == b.(packet := a.packet) && SameButIdentity(a.packet, b.packet) }

  lemma {:induction false} RootsCleanAlike(codec: Codec, a: RootRef, b: RootRef)
    ensures Cleaned(codec, Model(RootFields(a)), VOLATILE) == Cleaned(codec, Model(RootFields(b)), VOLATILE) <==> SameRoot(a, b)
  {
    hide VOLATILE, Cleaned, WellFormed, RefValue, SameButIdentity, Text, Maybe;
    RootKeysDiffer();
    RootWellFormed(a);
    RootWellFormed(b);
    ModelsCleanAlike(codec, RootFields(a), RootFields(b), ROOT_KEYS);
    InputsKeyStable();
    TextsCleanAlike(codec, a.rootId, b.rootId);
    TextsCleanAlike(codec, a.identityClass, b.identityClass);
    TextsCleanAlike(codec, a.sourceRevision, b.sourceRevision);
    RefsCleanAlike(codec, a.packet, b.packet);
    MaybesCleanAlike(codec, a.repositoryId, b.repositoryId);
    FiveFieldsCleanAlike(codec, RootFields(a), RootFields(b), ROOT_KEYS);
  }

  lemma {:induction false} FiveFieldsCleanAlike(codec: Codec, a: seq<Field>, b: seq<Field>, keys: seq<string>)
    requires Keyed(a, keys) && Keyed(b, keys) && |keys| == 5 && forall i :: 0 <= i < 5 ==> keys[i] !in VOLATILE
    ensures FieldsCleanAlike(codec, a, b, VOLATILE) <==>
      FieldAlike(codec, a, b, 0) && FieldAlike(codec, a, b, 1) && FieldAlike(codec, a, b, 2) && FieldAlike(codec, a, b, 3) && FieldAlike(codec, a, b, 4)
  {
    hide Cleaned, WellFormed, VOLATILE;
  }

  /** The corpora differ in no more than the identity and hashes of the packets their roots are bound to,
      and in what hashing removes from the coverage. */
  ghost predicate SameCorpus(codec: Codec, a: Corpus, b: Corpus) {
    && a.corpusId == b.corpusId && a.snapshotId == b.snapshotId && a.analysisId == b.analysisId
    && |a.roots| == |b.roots| && (forall i :: 0 <= i < |a.roots| ==> SameRoot(a.roots[i], b.roots[i]))
    && Cleaned(codec, a.coverage, VOLATILE) == Cleaned(codec, b.coverage, VOLATILE)
  }

  lemma {:induction false} RootListsCleanAlike(codec: Codec, a: seq<RootRef>, b: seq<RootRef>)
    ensures Cleaned(codec, Listing(RootValues(a)), VOLATILE) == Cleaned(codec, Listing(RootValues(b)), VOLATILE) <==>
      |a| == |b| && forall i :: 0 <= i < |a| ==> SameRoot(a[i], b[i])
  {
    hide VOLATILE, Cleaned, RootFields, SameRoot;
    ListsCleanAlike(codec, RootValues(a), RootValues(b), VOLATILE);
    if |a| == |b| {
      forall i | 0 <= i < |a|
        ensures Cleaned(codec, RootValues(a)[i], VOLATILE) == Cleaned(codec, RootValues(b)[i], VOLATILE) <==> SameRoot(a[i], b[i])
      {
        RootsCleanAlike(codec, a[i], b[i]);
      }
    }
  }

  lemma {:induction false} CorporaCleanAlike(codec: Codec, a: Corpus, b: Corpus)
    requires WellFormed(a.coverage) && WellFormed(b.coverage)
    ensures Cleaned(codec, CorpusValue(a), VOLATILE) == Cleaned(codec, CorpusValue(b), VOLATILE) <==> SameCorpus(codec, a, b)
  {
    hide VOLATILE, Cleaned, WellFormed, RootValues, SameRoot, Text;
    RootKeysDiffer();
    CorpusWellFormed(a);
    CorpusWellFormed(b);
    ModelsCleanAlike(codec, CorpusFields(a), CorpusFields(b), CORPUS_KEYS);
    InputsKeyStable();
    TextsCleanAlike(codec, a.corpusId, b.corpusId);
    TextsCleanAlike(codec, a.snapshotId, b.snapshotId);
    TextsCleanAlike(codec, a.analysisId, b.analysisId);
    RootListsCleanAlike(codec, a.roots, b.roots);
    FiveFieldsCleanAlike(codec, CorpusFields(a), CorpusFields(b), CORPUS_KEYS);
  }

  /** Packets that differ in their inputs and corpus alone have one semantic hash exactly when they name
      the same packets but for identity and hashes, both as inputs and as what the roots are bound to. */
  lemma {:induction false} InputsBoundButForIdentity(codec: Codec, p: CorpusPacket, q: CorpusPacket)
    requires codec.Faithful() && p.WellTyped() && q.WellTyped() && q == p.(inputs := q.inputs, corpus := q.corpus)
    ensures CorpusDigest(codec, p) == CorpusDigest(codec, q) <==> SameInputs(p.inputs, q.inputs) && SameCorpus(codec, p.corpus, q.corpus)
  {
    hide VOLATILE, Cleaned, WellFormed, CorpusView, CorpusKeys, InputsValue, CorpusValue, SameInputs, SameCorpus, FieldsCleanAlike, Digest, Codec.Faithful,
      CorpusPacket.WellTyped;
    CoverageWellFormed(p);
    CoverageWellFormed(q);
    CorpusViewWellFormed(p);
    CorpusViewWellFormed(q);
    CorpusViewKeyed(p);
    CorpusViewKeyed(q);
    CorpusKeysDiffer(p);
    SameKeys(p, q);
    SameDigest(codec, Dict(CorpusView(p)), Dict(CorpusView(q)), VOLATILE);
    DictsCleanAlike(codec, CorpusView(p), CorpusView(q), CorpusKeys(p));
    InputsCleanAlike(codec, p.inputs, q.inputs);
    CorporaCleanAlike(codec, p.corpus, q.corpus);
    ViewsCleanAlike(codec, p, q);
  }

  lemma {:induction false} DictsCleanAlike(codec: Codec, a: seq<Field>, b: seq<Field>, keys: seq<string>)
    requires Keyed(a, keys) && Keyed(b, keys) && AllDifferent(keys)
    ensures Delete(Canonical(codec, Dict(a)), VOLATILE) == Delete(Canonical(codec, Dict(b)), VOLATILE) <==> FieldsCleanAlike(codec, a, b, VOLATILE)
  {
    hide CanonicalFields, DeleteEntries, FieldsCleanAlike, VOLATILE;
    RecordsCleanAlike(codec, a, b, keys, false, VOLATILE);
  }

  lemma {:induction false} CoverageWellFormed(p: CorpusPacket)
    requires p.WellTyped()
    ensures WellFormed(p.corpus.coverage) && (p.packetVersion == "1.1.0" ==> p.domainsNotRun.Some?)
  {
  }

  lemma {:induction false} SameKeys(p: CorpusPacket, q: CorpusPacket)
    requires p.packetVersion == q.packetVersion
    ensures CorpusKeys(p) == CorpusKeys(q)
  {
  }

  lemma {:induction false} ViewsCleanAlike(codec: Codec, p: CorpusPacket, q: CorpusPacket)
    requires p.WellTyped() && q.WellTyped() && q == p.(inputs := q.inputs, corpus := q.corpus) && |CorpusView(p)| == |CorpusView(q)|
    ensures FieldsCleanAlike(codec, CorpusView(p), CorpusView(q), VOLATILE) <==>
      && Cleaned(codec, InputsValue(p.inputs), VOLATILE) == Cleaned(codec, InputsValue(q.inputs), VOLATILE)
      && Cleaned(codec, CorpusValue(p.corpus), VOLATILE) == Cleaned(codec, CorpusValue(q.corpus), VOLATILE)
  {
    hide VOLATILE, Cleaned, MapValue, Text, InputsValue, CorpusValue, CorpusView;
    InputsKeyStable();
    forall i | 0 <= i < |CorpusView(p)| { CorpusViewPointwise(p, q, i); }
    CorpusViewPointwise(p, q, 4);
    CorpusViewPointwise(p, q, 5);
  }

  lemma {:induction false} CorpusViewPointwise(p: CorpusPacket, q: CorpusPacket, i: nat)
    requires p.WellTyped() && q.WellTyped() && q == p.(inputs := q.inputs, corpus := q.corpus)
    ensures |CorpusView(q)| == |CorpusView(p)| >= 6
    ensures i == 4 ==> CorpusView(p)[i] == Field("inputs", InputsValue(p.inputs)) && CorpusView(q)[i] == Field("inputs", InputsValue(q.inputs))
    ensures i == 5 ==> CorpusView(p)[i] == Field("corpus", CorpusValue(p.corpus)) && CorpusView(q)[i] == Field("corpus", CorpusValue(q.corpus))
    ensures i < |CorpusView(p)| && i != 4 && i != 5 ==> CorpusView(q)[i] == CorpusView(p)[i]
  {
    hide MapValue, Text, InputsValue, CorpusValue;
    assert CorpusTail(p) == CorpusTail(q) && CorpusMiddle(p) == CorpusMiddle(q);
    if i < 6 {
      assert CorpusView(p)[i] == CorpusHead(p)[i] && CorpusView(q)[i] == CorpusHead(q)[i];
    }
  }

  function Renamed(r: PacketRef, from: string, to: string, hash: string): PacketRef {
    if r.packetId == from then r.(packetId := to, semanticHash := hash) else r
  }

  /** The packet with one input, and every root bound to it, rebound to a packet of another identity and
      another hash. */
  function Rebound(p: CorpusPacket, from: string, to: string, hash: string): CorpusPacket {
    var roots := p.corpus.roots;
    p.(inputs := seq(|p.inputs|, i requires 0 <= i < |p.inputs| => Renamed(p.inputs[i], from, to, hash)),
       corpus := p.corpus.(roots := seq(|roots|, i requires 0 <= i < |roots| => roots[i].(packet := Renamed(roots[i].packet, from, to, hash)))))
  }

  /** So the hash does not tell which packets are named: rebinding an input, and the roots with it, gives a
      well-typed packet with other inputs and the same semantic hash. */
  lemma {:induction false} InputIdentitiesUnbound(codec: Codec, p: CorpusPacket, from: string, to: string, hash: string)
    requires codec.Faithful() && p.WellTyped() && p.Declared(from) && from != to
    ensures var q := Rebound(p, from, to, hash);
      q.WellTyped() && q.Declared(to) && !q.Declared(from) && q.inputs != p.inputs && CorpusDigest(codec, q) == CorpusDigest(codec, p)
  {
    hide Cleaned, WellFormed, Codec.Faithful;
    var q := Rebound(p, from, to, hash);
    ReboundWellTyped(p, from, to, hash);
    assert SameInputs(p.inputs, q.inputs);
    assert SameCorpus(codec, p.corpus, q.corpus);
    hide CorpusPacket.WellTyped, CorpusPacket.Declared, Rebound, SameInputs, SameCorpus;
    InputsBoundButForIdentity(codec, p, q);
  }

  lemma {:induction false} ReboundWellTyped(p: CorpusPacket, from: string, to: string, hash: string)
    requires p.WellTyped() && p.Declared(from) && from != to
    ensures var q := Rebound(p, from, to, hash); q.WellTyped() && q.Declared(to) && !q.Declared(from) && q.inputs != p.inputs
  {
    hide WellFormed;
    var q := Rebound(p, from, to, hash);
    var k :| 0 <= k < |p.inputs| && p.inputs[k].packetId == from;
    assert q.inputs[k].packetId == to && p.inputs[k] != q.inputs[k];
    assert q.Declared(to);
    forall i | 0 <= i < |q.corpus.roots| ensures q.Declared(q.corpus.roots[i].packet.packetId) {
      var id := p.corpus.roots[i].packet.packetId;
      var j :| 0 <= j < |p.inputs| && p.inputs[j].packetId == id;
      assert q.inputs[j].packetId == q.corpus.roots[i].packet.packetId;
    }
  }

  /** A packet with one input and one root bound to it, to which all this applies. */
  lemma {:induction false} RebindableExists() returns (p: CorpusPacket)
    ensures p.WellTyped() && p.Declared("packet:a") && |p.corpus.roots| == 1 && p.corpus.roots[0].packet.packetId == "packet:a"
  {
    var ref := PacketRef("packet:a", MODEL_TYPE, "1.0.0", "a.json", "sha256:a", None, "passed", None, None);
    var empty := Dict([]);
    p := CorpusPacket(
      "1.0.0", "packet:p", empty, empty, [ref], Corpus("corpus", "snapshot", "analysis", [RootRef("root", "class", "revision", ref, None)], empty),
      empty, None, "sha256:s", "sha256:p", None, map[], map[], None, empty, "now");
    assert p.inputs[0].packetId == "packet:a";
  }
}
