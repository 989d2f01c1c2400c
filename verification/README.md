# Topology compiler: model and proofs

The topology compiler turns what repository scanners and corpus analyses state into claims, edges and
artifacts, plans durable-memory writes from them, and commits files through a guarded boundary. This
project models its hard core in Dafny and proves what each stage promises for every input, and what the
stages promise together.

## How the model is laid out

| modules | what they model |
|---|---|
| `CanonicalHash`, `Identities` | canonical JSON, stripping, digests and the identities minted from them |
| `Receipts`, `Bundles`, `BundleAcceptance`, `PacketDigests` | validation receipts, packet bundles, rendering and loading; exactly which bundles load, and what a hash binds |
| `WritePlans`, `MemorySink`, `Disks`, `FileSystemSink`, `SinkRefinement`, `BundleSink` | the write boundary: plans, a disk shared with other processes, the three sinks |
| `Reconciliation`, `ClaimEvidence`, `ClaimProjection`, `ProjectedRecords`, `Qualification`, `QualifiedRelations` | statements to claims and what these cite, claims to edges, edges to publishable relations |
| `Duplicates`, `DuplicateRecords` | exact-duplicate cliques compiled to stars, and what each edge records |
| `ClaimView`, `ClaimQueries` | the claim index, keyset pages and snapshot differentials; what queries match and changes report |
| `EffectIdentity`, `Lowering`, `LoweredWrites`, `PublicationPlan`, `PlanDecisions` | idempotency keys, lowering, the publication plan, and what is decided about each record |
| `CorpusValidator`, `CorpusFindings` | fail-closed validation, and exactly what it reports |
| `Aggregation`, `AggregatedRecords`, `BridgeGaps`, `GapContents`, `Candidates`, `ClusterContents` | the folds over the graph, and what their records hold in terms of what came in |
| `Ordering`, `Texts`, `Domain`, `Wrappers` | sorting and filtering, operations on names, the shared records, absent values and refusals |

Loops and objects that change state are methods and classes, each proved equal to a specification
function; the theorems are then about that function, and characterise what it yields in terms of the input
alone. Some statements cross stages:
`Qualification.QualifiedClaimIsUncontested` goes from raw statements to a published relation,
`PlanDecisions.EligibleClaimsAreSettled` from raw statements to an eligible candidate,
`CorpusValidator.AcceptedDuplicatesJoinArtifacts` from an accepted packet to compiled edges, and
`SinkRefinement.CommitBoth` relates two sinks.

The disk is a sequence of atomic steps with a recorded trace. Between any two steps of a sink the
environment may rewrite anything that is not the sink's own private temporary or staging area, and any
step may fail. Theorems such as `FileSystemSink.MutationsAreRevalidated` quantify over every trace the
commit can produce.

## What turned out otherwise than promised

* A passed bundle receipt does not always mean that the bundle is there. With the root itself among the
  destinations a commit can still pass: if that intent is required nothing is published, and if it is
  optional everything else is, while the receipt calls it written
  (`BundleSink.RootDestinationPassesUnpublished`). When something was to be written below a root that nobody
  else touches, a passed receipt means that all intents are there, and nothing else, exactly when every
  destination is strictly below the root (`BundleSink.PacketBundleOutputSink.Commit`,
  `BundleSink.WholeExactlyWhenBelow`).
* With nothing to write, a passed receipt speaks of the moment the plan looked: every required destination
  held its content then, by its hash, and holds it still if what is seen there is the same
  (`BundleSink.PacketBundleOutputSink.Commit`). The reuse path neither looks again nor loads what is there
  (`BundleSink.EmptiedBundlePasses`).
* The memory sink is not always a stand-in for the filesystem sink. On a quiet disk a ready plan has the
  results and files of its memory run exactly when it is a dry run, or no two entries write one
  destination, no destination to be written lies below another, and no file or directory is in the way
  (`SinkRefinement.CommitQuietly`, and `SinkRefinement.CommitBoth` for the two sinks side by side). Collision rejection excludes the first only:
  `SinkRefinement.NestedDestinationsDiffer`.
* An idempotency key does depend on evidence identities when the limit drops evidence, because what is kept
  is chosen in identity order (`Lowering.TruncationWitness`). Reissued evidence keeps the key exactly when
  what is kept is the same multiset of semantics (`Lowering.ReissueKeepsKeyExactlyWhen`).
* The semantic hash of a corpus packet removes `packet_id`, `semantic_hash` and `artifact_hash` at every
  depth. It binds a packet's inputs and roots exactly but for these
  (`Bundles.InputsBoundButForIdentity`), so they can be rebound to other packets
  (`Bundles.InputIdentitiesUnbound`); the payload is bound all the same (`Bundles.CorpusHashBindsPayload`).
* Qualification asks of an edge projected from a claim that the claim may be projected and the recorded kind
  of endpoint fits the edge's type, and never compares the edge's ends with the claim. An edge drawn between
  other ends qualifies all the same (`Qualification.RedrawnEdgeQualifies`,
  `Qualification.MisdrawnEdgeQualifies`); it says what its claim says exactly when its ends and type are
  those the claim is projected to (`Qualification.QualifiedSaysItsClaimExactlyWhen`), as those of the
  projector's own edges are (`Qualification.ProjectedEdgeSaysItsClaim`).

## Model
| member | source | states |
|---|---|---|
| CanonicalHash.StripIsDelete | src/l9_constellation_topology/run/evidence.py:84-92 | Re-canonicalising at every level is the same as canonicalising once and then deleting the excluded keys at every depth |
| CanonicalHash.StripIdempotent | src/l9_constellation_topology/run/evidence.py:66-92 | Stripping what was already stripped changes nothing |
| CanonicalHash.CanonicalOfEmbed | src/l9_constellation_topology/run/evidence.py:25-41 | Canonicalising a canonical document returns it |
| CanonicalHash.DeleteLeavesNone | src/l9_constellation_topology/run/evidence.py:84-91 | No excluded key is left at any depth |
| CanonicalHash.DeleteFixesExactlyTheFree | src/l9_constellation_topology/run/evidence.py:84-91 | A document is left alone if and only if it has no excluded key at any depth |
| CanonicalHash.DictOrderIrrelevant | src/l9_constellation_topology/run/evidence.py:25-51 | The insertion order of a dictionary does not reach the canonical document |
| CanonicalHash.SetOrderIrrelevant | src/l9_constellation_topology/run/evidence.py:25-41 | The iteration order of a set does not reach the canonical document |
| CanonicalHash.SameDigest | src/l9_constellation_topology/run/evidence.py:66-92 | Under a faithful digest, two values hash alike if and only if they agree once canonical and cleaned |
| CanonicalHash.SameDigestSameField | src/l9_constellation_topology/run/evidence.py:66-92 | Equal digests make each admissible field agree once cleaned |
| CanonicalHash.ModelDigestIsViewDigest | src/l9_constellation_topology/run/evidence.py:25-92 | A record hashed whole and a dictionary of its stable fields have one digest when all else in the record is excluded |
| CanonicalHash.CleanedFieldsDecide | src/l9_constellation_topology/run/evidence.py:84-92 | Excluded fields never influence a digest: records whose admissible fields agree hash alike |
| Receipts.RecordAndViewAgree | src/l9_constellation_topology/scanners/repository_model_scanner.py:131-137 | For every receipt, hashing the whole record and hashing its semantic view agree |
| Receipts.EitherFinalisationValidates | src/l9_constellation_topology/packets/validation_receipt.py:58-79 | Finalising by either digest gives the same receipt, and that receipt passes validation |
| Receipts.ValidExactlyWhenFinal | src/l9_constellation_topology/packets/validation_receipt.py:68-79 | Validation accepts exactly the receipts that finalising again leaves unchanged |
| Receipts.ReplacedContentValidates | src/l9_constellation_topology/packets/validation_receipt.py:43-79 | A valid receipt whose content is replaced stays valid if and only if the replacement agrees once cleaned of volatile fields |
| Receipts.DigestBindsExactly | src/l9_constellation_topology/packets/validation_receipt.py:43-55 | Two receipts have one digest if and only if all ten fields of content agree once cleaned of volatile fields |
| Bundles.VerifyBundleManifest | src/l9_constellation_topology/packets/loader.py:42-74 | The loop returns the first listed member that is remote, escapes, is missing, or whose hash or size differs, then judges the artifact hash |
| Bundles.ManifestAcceptedExactlyWhen | src/l9_constellation_topology/packets/loader.py:42-74 | A manifest is accepted if and only if it can be read, every member it lists is in the bundle with its hash and size, and the artifact hash is that of the list |
| Bundles.ReadPayload | src/l9_constellation_topology/packets/corpus_bundle.py:175-200 | The loop over payload domains computes the payload or the first domain that is unbound, unhashed or altered |
| Bundles.LoadCorpusBundle | src/l9_constellation_topology/packets/corpus_bundle.py:212-255 | Loading gives the specified verdict: manifest, packet identity, semantic hash, payload and recomputed hash checked in the order of the source |
| Bundles.CorpusFieldsApartAndStable | src/l9_constellation_topology/packets/corpus_intelligence.py:563-570 | The payload domains of a corpus packet have pairwise different, local member paths and names that hashing does not remove: what the theorems ask of a layout |
| Bundles.ReadTopologyRecords | src/l9_constellation_topology/packets/loader.py:156-176 | Each topology domain is read through its reference and hash, stopping at the first that fails |
| Bundles.LoadTopologyBundle | src/l9_constellation_topology/packets/loader.py:141-210 | Loading gives the specified verdict, receipt checks included |
| Bundles.FinalizedBundleLoads | src/l9_constellation_topology/packets/corpus_bundle.py:59-172 | Rendering a finalized packet succeeds, and loading what was rendered returns that packet with the same payload |
| Bundles.CorpusHashBindsPayload | src/l9_constellation_topology/packets/corpus_bundle.py:48-83 | Any two accepted corpus bundles with one semantic hash carry byte-identical content in every payload domain, and so one payload |
| Bundles.TopologyHashBindsPayload | src/l9_constellation_topology/packets/loader.py:141-210 | Any two accepted topology bundles with one semantic hash bind the same domains to byte-identical content; each was accepted under a valid passed receipt that names that packet and hash |
| Bundles.InputsBoundButForIdentity | src/l9_constellation_topology/packets/corpus_intelligence.py:531-604 | Packets that differ in inputs and corpus alone have one semantic hash if and only if inputs and roots name packets that agree in all but id and hashes, and the corpora agree otherwise |
| Bundles.InputIdentitiesUnbound | src/l9_constellation_topology/packets/corpus_bundle.py:55-83 | Rebinding an input, and every root bound to it, to a packet of another id and hash gives a well-typed packet with other inputs and the same semantic hash |
| Bundles.RebindableExists | src/l9_constellation_topology/packets/corpus_intelligence.py:531-551 | There is a well-typed packet with an input and a root bound to it, to which the above applies |
| BundleAcceptance.CorpusAcceptedExactlyWhen | src/l9_constellation_topology/packets/corpus_bundle.py:212-255 | A corpus bundle loads, as some packet, if and only if its manifest is right about every member, names the packet of packet.json by id and by the recomputed semantic hash, and every payload domain is bound and hashed as declared; the packet is that one with that payload |
| BundleAcceptance.TopologyAcceptedExactlyWhen | src/l9_constellation_topology/packets/loader.py:141-210 | A topology bundle loads if and only if its manifest is right about every member and names the packet by id and by the recomputed semantic hash, each declared domain is in the bundle with its hash, and the referenced receipt is valid, passed and about this packet and hash; an undeclared domain reads as no records |
| BundleAcceptance.RenderedExactlyWhen | src/l9_constellation_topology/packets/corpus_bundle.py:86-107 | A corpus packet is rendered if and only if it has a payload and declares for each domain the hash of the bytes to be written; the error otherwise names exactly the domains where it does not |
| PacketDigests.TopologyDigestBindsExactly | src/l9_constellation_topology/packets/topology_packet.py:65-82 | Two topology packets have one semantic hash if and only if version, producer, profile, inputs, schema, policies, payload references and hashes, and lineage agree once cleaned |
| PacketDigests.CorpusDigestBindsExactly | src/l9_constellation_topology/packets/corpus_intelligence.py:573-604 | Two corpus packets have one semantic hash if and only if everything they declare agrees once cleaned and inputs and roots name the same packets but for id and hashes |
| WritePlans.IssuesCollected | src/l9_constellation_topology/io/filesystem_output_sink.py:50-128 | A plan reports an issue if and only if a limit or some intent raises it |
| WritePlans.ActionsExactly | src/l9_constellation_topology/io/filesystem_output_sink.py:81-117 | In any plan an entry is a replacement if and only if a regular file of another hash was seen, overwriting is allowed, and an expected hash is given when one is required and is the seen one when given; it is a create if and only if nothing was seen, and unchanged if and only if the same content was |
| WritePlans.IssuesExactly | src/l9_constellation_topology/io/filesystem_output_sink.py:50-128 | In any plan each issue is reported if and only if its limit is exceeded, its kind or root is not allowed, its destination was planned before, or a required intent is refused for just that reason |
| WritePlans.ReadyExactlyWhen | src/l9_constellation_topology/io/filesystem_output_sink.py:50-128 | A plan is ready if and only if count and bytes are within limits and every intent is of an allowed kind below an allowed root, collides with none before it where that is rejected and, if required, is absent, unchanged or replaceable |
| WritePlans.TotalBytesAdd | src/l9_constellation_topology/io/filesystem_output_sink.py:54-58 | The bytes of a plan are those of its parts, and those of one artifact are the length of its content |
| WritePlans.ReadyPlanServesRequired | src/l9_constellation_topology/io/filesystem_output_sink.py:72-117 | A ready plan leaves every required intent either unchanged already or to be written |
| WritePlans.ReadyPlanHasNoCollision | src/l9_constellation_topology/io/filesystem_output_sink.py:56-71 | Under collision rejection a ready plan has pairwise different destinations |
| WritePlans.StaleExactlyWhenChanged | src/l9_constellation_topology/io/filesystem_output_sink.py:165-188 | A planned write is refused if and only if its target no longer has the planned hash |
| WritePlans.MemoryHolds | src/l9_constellation_topology/io/memory_output_sink.py:111-149 | After a memory commit a destination holds what its last writer put there, otherwise what it held |
| WritePlans.QuietIsMemoryExactlyWithoutSharing | src/l9_constellation_topology/io/filesystem_output_sink.py:165-188 | On files alone, where no directory is ever in the way, revalidating before each write and not doing so give equal files and results if and only if no two mutating entries share a destination |
| WritePlans.SameResultsSameFiles | src/l9_constellation_topology/io/filesystem_output_sink.py:190-257 | The results alone tell the two runs apart: equal results mean equal files |
| WritePlans.RecommitSkipsEverything | src/l9_constellation_topology/io/memory_output_sink.py:42-149 | Planning the same required intents after a successful commit finds each unchanged, and the plan is ready |
| MemorySink.MemoryOutputSink.Plan | src/l9_constellation_topology/io/memory_output_sink.py:42-109 | The cached plan, or a new one that decides every intent against the stored files; storage unchanged |
| MemorySink.MemoryOutputSink.Commit | src/l9_constellation_topology/io/memory_output_sink.py:111-149 | Storage and receipt are those of the specified run; a blocked plan changes nothing |
| FileSystemSink.FileSystemOutputSink.Enqueue | src/l9_constellation_topology/io/filesystem_output_sink.py:31-33 | The intent is appended and the cached plan dropped |
| FileSystemSink.FileSystemOutputSink.Plan | src/l9_constellation_topology/io/filesystem_output_sink.py:50-128 | A plan is made from one look at each destination and then cached until an intent is added; the disk is not changed |
| FileSystemSink.FileSystemOutputSink.RevalidateEntry | src/l9_constellation_topology/io/filesystem_output_sink.py:165-188 | The target is read again now, and the answer is that of the rule for stale entries |
| FileSystemSink.FileSystemOutputSink.AtomicWrite | src/l9_constellation_topology/io/filesystem_output_sink.py:130-163 | Stages a private file beside the target and links or swaps it in; every step is lawful, others acting in between |
| FileSystemSink.FileSystemOutputSink.PlainWrite | src/l9_constellation_topology/io/filesystem_output_sink.py:130-163 | Without atomic writes the target itself is opened, exclusively for a create, and written through; every step is lawful |
| FileSystemSink.FileSystemOutputSink.CommitEntry | src/l9_constellation_topology/io/filesystem_output_sink.py:190-255 | One turn of the loop: skip, refuse when stale, or write; the result says what happened |
| FileSystemSink.FileSystemOutputSink.CommitEntries | src/l9_constellation_topology/io/filesystem_output_sink.py:190-257 | One result for each entry in order, each consistent with the recorded run |
| FileSystemSink.FileSystemOutputSink.Commit | src/l9_constellation_topology/io/filesystem_output_sink.py:190-257 | Whatever other processes do between any two steps, the run is lawful; on a quiet disk only targets change, receipt and files are those of the specified run when nothing is in the way, and a run without failure means nothing was |
| FileSystemSink.MutationsAreRevalidated | src/l9_constellation_topology/io/filesystem_output_sink.py:165-257 | Every step of any run that puts bytes at a target follows a look that found the target with the planned hash, and between the two the sink did not touch it |
| FileSystemSink.CreateAltersNothing | src/l9_constellation_topology/io/filesystem_output_sink.py:130-163 | A create step never alters anything that exists, even what appeared between revalidation and the link |
| FileSystemSink.ExistingPathsSurvive | src/l9_constellation_topology/io/filesystem_output_sink.py:81-257 | With overwriting prohibited, a path that exists and that others leave alone is unchanged at every step of every run of the plan |
| FileSystemSink.NeverPartial | src/l9_constellation_topology/io/filesystem_output_sink.py:130-163 | Under atomic writes a destination that others leave alone holds, at every step of any run, what it held at the start or the whole content of a planned entry; one that was there never vanishes |
| FileSystemSink.StaysAsItWas | src/l9_constellation_topology/io/filesystem_output_sink.py:190-257 | A run changes no path that is neither above nor beside a planned target |
| SinkRefinement.RunsAgree | src/l9_constellation_topology/io/filesystem_output_sink.py:190-257 | A ready collision-free plan made from these files commits alike with and without revalidation |
| SinkRefinement.CommitQuietly | src/l9_constellation_topology/io/filesystem_output_sink.py:190-257 | On a quiet disk the results and files of a ready plan are those of the memory run if and only if it is a dry run, or no two entries share a destination, none to be written lies below another, and no file or directory is in the way |
| SinkRefinement.CommitBoth | src/l9_constellation_topology/io/memory_output_sink.py:42-149 | Given the same intents over the same files of a quiet disk, both sinks report the same and leave the same files if and only if the plan in memory is blocked, or no destination is a directory and, unless it is a dry run, no two entries share a destination and nothing is in the way; the rest of the disk is unchanged |
| SinkRefinement.ReachableIsAgreeable | src/l9_constellation_topology/io/filesystem_output_sink.py:56-71 | Destinations that are no directories, none below another and none below a file meet that condition in a ready plan that rejects collisions |
| SinkRefinement.NestedDestinationsDiffer | src/l9_constellation_topology/io/filesystem_output_sink.py:130-163 | Creating a and a/b: memory passes and the disk fails, although no destination is shared |
| SinkRefinement.CommitTwice | src/l9_constellation_topology/io/filesystem_output_sink.py:50-257 | Enqueueing the same required intents after success plans only content-unchanged skips; committing them again passes, and every step of that commit is a look |
| BundleSink.StagingReadyExactlyWhen | src/l9_constellation_topology/io/packet_bundle_output_sink.py:82-131 | A ready bundle plan makes the staging plan ready if and only if no required destination is the root itself |
| BundleSink.BundleReadyExactlyWhen | src/l9_constellation_topology/io/packet_bundle_output_sink.py:41-58 | The plan of a bundle is ready if and only if it has at most a thousand artifacts of at most 256 MiB, all of kinds bundles hold, no two for one destination, and every required one can be put there |
| BundleSink.WholeExactlyWhenBelow | src/l9_constellation_topology/io/packet_bundle_output_sink.py:82-180 | What a passed commit leaves holds every intent and nothing else if and only if each destination is strictly below the root; unless a required destination is the root, the loader accepts it |
| BundleSink.RefusedIsUntouched | src/l9_constellation_topology/io/packet_bundle_output_sink.py:132-160 | When the loader refuses every set of files that holds exactly the intents below the root, nothing at or below the root changes at any step |
| BundleSink.RootDestinationPassesUnpublished | src/l9_constellation_topology/io/packet_bundle_output_sink.py:82-180 | A run of commit on an empty disk with the root itself as a destination: the receipt is passed; if that intent was required nothing is published, and if it was optional only the other file is, though the receipt calls both written |
| BundleSink.EmptiedBundlePasses | src/l9_constellation_topology/io/packet_bundle_output_sink.py:82-101 | A run in which the root is emptied between plan and commit: the receipt is passed and nothing is there |
| BundleSink.FreshRunHoldsExactly | src/l9_constellation_topology/io/packet_bundle_output_sink.py:107-131 | Committing a plan made from an empty directory leaves exactly the files of the intents strictly below it |
| BundleSink.PacketBundleOutputSink.StageBundle | src/l9_constellation_topology/io/packet_bundle_output_sink.py:107-131 | A filesystem sink commits the intents into the staging directory, leaving the root alone |
| BundleSink.PacketBundleOutputSink.Publish | src/l9_constellation_topology/io/packet_bundle_output_sink.py:132-160 | Success means that the root holds what the loader accepts, and where nobody else touches the root, exactly the intents below it; the staged bundle is loaded back first and renamed in one step, or the root is untouched |
| BundleSink.PacketBundleOutputSink.StageAndPublish | src/l9_constellation_topology/io/packet_bundle_output_sink.py:107-180 | Staging, publication and cleanup, whatever fails on the way; what passes was accepted by the loader, and on a quiet disk no staging directory is left |
| BundleSink.PacketBundleOutputSink.CommitNew | src/l9_constellation_topology/io/packet_bundle_output_sink.py:95-180 | An existing root fails every entry; a pass means the root was absent and, unless a required destination is the root, now holds exactly the intents strictly below it, as the loader accepts them; a bundle the loader refuses fails every entry |
| BundleSink.PacketBundleOutputSink.Commit | src/l9_constellation_topology/io/packet_bundle_output_sink.py:82-180 | At every step the root is as it was, or was absent and holds exactly the intents strictly below it, accepted by the loader; if the loader refuses these the root is untouched throughout and, with something to write and no required destination at the root, the receipt is not passed; a passed receipt with something to write means all intents are there and nothing else if and only if each destination is strictly below the root; on a quiet disk nothing but the root and missing directories above it changes, and with nothing in the way the receipt is passed, with no results where a required destination is the root; with nothing to write every required destination held its content when the plan looked |
| Identities.IdTellsApart | src/l9_constellation_topology/run/evidence.py:119-120 | Identities minted from dictionaries with the same stable keys are equal only for equal parts |
| Identities.ClaimIdIdentifies | src/l9_constellation_topology/stages/reconcile_assertions.py:128-135 | Two claims have one identity only when they say the same thing |
| Identities.ConflictIdIdentifies | src/l9_constellation_topology/stages/reconcile_assertions.py:277-280 | Two conflicts have one identity only for one subject, field and list of values |
| Reconciliation.BuildIndex | src/l9_constellation_topology/stages/reconcile_assertions.py:103-114 | The loop computes the last statement-evidence record for each subject and statement |
| Reconciliation.Run | src/l9_constellation_topology/stages/reconcile_assertions.py:234-366 | The nested loops compute the specified claims, conflicts, unknowns and diagnostics |
| Reconciliation.OrderIrrelevant | src/l9_constellation_topology/stages/reconcile_assertions.py:234-366 | For fixed evidence, every permutation of the statements gives the same output |
| Reconciliation.RepetitionIrrelevant | src/l9_constellation_topology/stages/reconcile_assertions.py:247-366 | Repeating statements changes no claim, conflict or unknown |
| Reconciliation.OneClaimPerTriple | src/l9_constellation_topology/stages/reconcile_assertions.py:335-362 | Claims correspond one-to-one with distinct subject, predicate and object, in strict identity order |
| Reconciliation.ClaimNamesItsStatements | src/l9_constellation_topology/stages/reconcile_assertions.py:335-347 | The assertion ids of a claim are exactly those of the statements that say it |
| Reconciliation.ConfirmedExactlyWhenContested | src/l9_constellation_topology/stages/reconcile_assertions.py:274-295 | A claim is confirmed-conflicted if and only if its predicate takes one value and its question has two or more answers; it then names one conflict that lists precisely these |
| Reconciliation.ConflictHasItsClaims | src/l9_constellation_topology/stages/reconcile_assertions.py:276-295 | Each reported conflict has at least two answers, each a claim that names it |
| Reconciliation.MoreNeverRaises | src/l9_constellation_topology/stages/reconcile_assertions.py:138-183 | Adding statements never loses a claim, raises its level or authority, drops a statement or settles a conflict |
| ClaimEvidence.ClaimCitesItsStatements | src/l9_constellation_topology/stages/reconcile_assertions.py:103-125 | A claim cites exactly the ids of the last statement-stage records that name, by subject and assertion id, a statement that says it, in order; it is corroborated if and only if two of these differ |
| ClaimEvidence.ConflictCitesItsQuestion | src/l9_constellation_topology/stages/reconcile_assertions.py:269-295 | A conflict cites exactly the last records of all statements about its question, and never blocks |
| ClaimEvidence.UnknownExactlyWhenLeftOpen | src/l9_constellation_topology/stages/reconcile_assertions.py:302-314 | An unknown is reported for a question if and only if some statement answers it and no table declares its predicate |
| ClaimEvidence.UnknownCitesItsQuestion | src/l9_constellation_topology/stages/reconcile_assertions.py:302-314 | An unknown names such a question and cites exactly the last records of the statements about it |
| ClaimEvidence.DiagnosticExactlyWhenLeftOpen | src/l9_constellation_topology/stages/reconcile_assertions.py:315-332 | A diagnostic is reported for a question under the same condition |
| ClaimEvidence.DiagnosticDescribesItsQuestion | src/l9_constellation_topology/stages/reconcile_assertions.py:315-332 | A diagnostic cites exactly those records, lists exactly the answers given and counts every statement about the question |
| ClaimEvidence.DiagnosticNamesItsPacket | src/l9_constellation_topology/stages/reconcile_assertions.py:217-231 | A diagnostic names the packet of the first record it cites whose last copy came from one, or none |
| ClaimEvidence.ClaimIsItsWeakest | src/l9_constellation_topology/stages/reconcile_assertions.py:138-151 | A claim reaches a level or an authority if and only if every statement that says it does |
| ClaimEvidence.ClaimDerivesAsItsStatements | src/l9_constellation_topology/stages/reconcile_assertions.py:154-160 | A claim is declared if and only if all its statements are, deterministic if and only if none is, and cross-record otherwise |
| ClaimEvidence.ClaimStandsAsTheTablesSay | src/l9_constellation_topology/stages/reconcile_assertions.py:252-300 | Support, cardinality, conflict status and completeness follow from the tables and from whether two statements answer the question differently |
| ClaimEvidence.ConflictsToldApart | src/l9_constellation_topology/stages/reconcile_assertions.py:277-295 | Reported conflicts with one identity are one record |
| ClaimEvidence.UnknownsToldApart | src/l9_constellation_topology/stages/reconcile_assertions.py:302-314 | Reported unknowns with one identity are one record |
| ClaimEvidence.DiagnosticsToldApart | src/l9_constellation_topology/stages/reconcile_assertions.py:186-214 | Reported diagnostics with one identity are one record |
| ClaimProjection.ProjectClaims | src/l9_constellation_topology/topology/claim_projection.py:301-336 | The loop computes the specified capabilities, nodes and edges, and what each claim produced |
| ClaimProjection.MergeProjectedEntities | src/l9_constellation_topology/topology/claim_projection.py:339-352 | The nested loops give each claim the sorted union of what every map holds for it |
| ClaimProjection.EntitiesExist | src/l9_constellation_topology/topology/claim_projection.py:301-336 | What a claim is recorded to have produced is in the output and is not empty |
| ClaimProjection.StampedIdsExist | src/l9_constellation_topology/topology/claim_projection.py:355-376 | Every identity stamped on a claim is a record of the projection, or came from another projection merged with it |
| ClaimProjection.StampedExactlyWhenProjected | src/l9_constellation_topology/topology/claim_projection.py:65-92 | A reconciled claim is stamped if and only if it may project and has a projector |
| ClaimProjection.ProjectedEdgeHasOrigin | src/l9_constellation_topology/topology/claim_projection.py:301-336 | Each projected edge comes from a claim of the list that may project |
| ClaimProjection.ProjectedEdgeIsUncontested | src/l9_constellation_topology/topology/claim_projection.py:65-92 | From statements to edges: the question behind a projected edge, if it takes one value, was answered one way by all statements |
| ClaimProjection.AtMostOneSuccessor | src/l9_constellation_topology/topology/claim_projection.py:208-231 | A subject is superseded by at most one edge projected from repository.replaced_by |
| ProjectedRecords.MayProjectExactlyWhen | src/l9_constellation_topology/topology/claim_projection.py:65-87 | A claim is withheld for its predicate if and only if no claim table holds it or it is declaration-only, and otherwise for a conflict if and only if its status or ids show one |
| ProjectedRecords.ProjectsExactly | src/l9_constellation_topology/topology/claim_projection.py:160-298 | A claim projects if and only if it may and its predicate is one of five; each gives exactly its edge and reference node, or its capability, with their ends, properties, evidence and confidence |
| ProjectedRecords.CapabilitiesToldApart | src/l9_constellation_topology/topology/claim_projection.py:234-273 | Two capabilities projected from one predicate are the same if and only if one subject claims one thing |
| Duplicates.DuplicateEdgeIdIdentifies | src/l9_constellation_topology/topology/duplicates.py:46-58 | An edge identity names exactly its unordered endpoints and hash, whichever endpoint comes first |
| Duplicates.ClusterRelations | src/l9_constellation_topology/topology/duplicates.py:74-92 | The loops compute the specified clusters: sorted members, hash of the relations |
| Duplicates.BuildDuplicateEdges | src/l9_constellation_topology/topology/duplicates.py:95-149 | The nested loops compute the specified stars with their united evidence, sorted by identity |
| Duplicates.StarsPreserveClosure | src/l9_constellation_topology/topology/duplicates.py:74-149 | The stars connect two artifacts if and only if they are related by the closure of sharing a cluster |
| Duplicates.EdgesAreProper | src/l9_constellation_topology/topology/duplicates.py:95-149 | No edge is a self-loop, and each joins two members of one cluster under its hash |
| Duplicates.EdgeCount | src/l9_constellation_topology/topology/duplicates.py:95-149 | At most the sum over clusters of members minus one edges, and exactly that many when no artifact is in two clusters |
| Duplicates.OrientationIrrelevant | src/l9_constellation_topology/topology/duplicates.py:74-149 | With one hash per cluster, permuting or repeating relations or swapping endpoints leaves the edges unchanged |
| DuplicateRecords.EdgesRecordTheirCluster | src/l9_constellation_topology/topology/duplicates.py:74-149 | Every edge joins the least member of some cluster to another, and records that cluster, the hash of its last relation, its size, its representative, and the evidence of all its relations and no more |
| Qualification.QualifiedClaimMayProject | src/l9_constellation_topology/publication/qualification.py:325-363 | An edge qualified as projected from a claim names a known claim that may project |
| Qualification.QualifiedClaimIsUncontested | src/l9_constellation_topology/publication/qualification.py:325-363 | End to end: the claim named by such an edge answers a question that no statement answers differently, if it takes one value |
| Qualification.DuplicatePathsAreEqual | src/l9_constellation_topology/publication/qualification.py:366-434 | Artifacts joined by any path of qualified duplicates have equal content hashes, whatever the packet claimed |
| Qualification.StarQualifiesExactlyWhenObserved | src/l9_constellation_topology/publication/qualification.py:366-375 | A compiled star edge qualifies if and only if its evidence resolves and both ends carry, as observed, the nonempty hash that was claimed |
| Qualification.ProjectedEdgeQualifies | src/l9_constellation_topology/publication/qualification.py:325-363 | Every edge projected from an indexed claim qualifies once its evidence resolves |
| Qualification.QualifiedSaysItsClaimExactlyWhen | src/l9_constellation_topology/publication/qualification.py:339-363 | An edge qualified as projected from a claim says what that claim says if and only if its source, target and type are those the claim is projected to |
| Qualification.ProjectedEdgeSaysItsClaim | src/l9_constellation_topology/topology/claim_projection.py:160-231 | Every edge the projector draws says what its claim says |
| Qualification.EndsAreNotCompared | src/l9_constellation_topology/publication/qualification.py:356-363 | Redrawing an edge of that origin between any other ends changes neither its origin nor its verdict |
| Qualification.RedrawnEdgeQualifies | src/l9_constellation_topology/publication/qualification.py:356-363 | A projected edge redrawn between any ends still qualifies, and says what its claim says if and only if nothing was redrawn |
| Qualification.MisdrawnEdgeQualifies | src/l9_constellation_topology/publication/qualification.py:356-363 | A claim, an index and a qualified edge that says what the claim does not |
| QualifiedRelations.QualifiedExactlyWhen | src/l9_constellation_topology/publication/qualification.py:214-434 | An edge is qualified if and only if evidence it cites is known and: a work edge is of an admitted type, names a claim that may project and an exact artifact; a projected edge fits its claim and endpoint kind; a duplicate joins known artifacts of the recorded nonempty hash; any other is declared by first-hand evidence, or a record of the index holds it |
| QualifiedRelations.QualifiedTargetIsExact | src/l9_constellation_topology/publication/qualification.py:347-353 | A qualified edge that records a target resolution records exact-artifact |
| QualifiedRelations.UpstreamIsObserved | src/l9_constellation_topology/publication/qualification.py:378-382 | An edge that only a list of upstreams supports is qualified if and only if its evidence is known and its target is an observed repository |
| QualifiedRelations.BasisExactly | src/l9_constellation_topology/publication/qualification.py:385-434 | A qualified edge is said to rest on the first proof it has |
| QualifiedRelations.RefusedExactlyWhen | src/l9_constellation_topology/publication/qualification.py:347-420 | An unresolved work target, a mere classification and an unobserved upstream are each given as the reason exactly when all asked before holds and this fails |
| QualifiedRelations.RefusedOverItsClaimExactlyWhen | src/l9_constellation_topology/publication/qualification.py:325-363 | So are a wrong kind of endpoint and a claim that may not project |
| ClaimView.MakeIndex | src/l9_constellation_topology/topology/claim_view.py:430-443 | The index holds the views in strict identity order; a repeated identity is refused |
| ClaimView.PagesAreAllMatches | src/l9_constellation_topology/topology/claim_view.py:467-483 | Following next_after ends, and the concatenated pages are all matches, each once, in order, with one total, for every limit in range |
| ClaimView.Compare | src/l9_constellation_topology/topology/claim_view.py:485-538 | The loops compute the specified differential of the two scopes, each of which holds its views by their own identities, as DifferentialAccounts and PatchGivesLater require |
| ClaimView.NothingMovedExactlyWhenSame | src/l9_constellation_topology/topology/claim_view.py:394-420 | No compared field moved if and only if the two views read the same |
| ClaimView.DifferentialAccounts | src/l9_constellation_topology/topology/claim_view.py:485-538 | Every claim of either snapshot is added, removed, changed because it reads differently, or left out because it reads the same |
| ClaimView.NoSelfDifference | src/l9_constellation_topology/topology/claim_view.py:485-538 | Equal snapshots have an empty differential |
| ClaimView.DifferentialMirrors | src/l9_constellation_topology/topology/claim_view.py:485-538 | Comparing the other way round swaps added and removed and mirrors each change |
| ClaimView.PatchGivesLater | src/l9_constellation_topology/topology/claim_view.py:485-538 | The differential applied to the earlier readings gives exactly the later ones |
| ClaimView.ScopedHolds | src/l9_constellation_topology/topology/claim_view.py:495-505 | What is compared of an index is exactly its views in scope |
| ClaimQueries.MatchesExactly | src/l9_constellation_topology/topology/claim_view.py:266-317 | A query matches exactly the views that have all it asks for: whole dotted segments of the predicate, a location at the path, and enough locations in different places |
| ClaimQueries.SegmentsStart | src/l9_constellation_topology/topology/claim_view.py:276-278 | A predicate equals a prefix or continues it with a dot if and only if its segments start with those of the prefix |
| ClaimQueries.CheckedExactlyWhen | src/l9_constellation_topology/topology/claim_view.py:258-264 | A query is accepted if and only if its limit is from 1 to 10000, its location count is not negative and its prefix is not all dots |
| ClaimQueries.ChangesSayWhatDiffers | src/l9_constellation_topology/topology/claim_view.py:485-538 | A change lists exactly the fields that differ and their categories, and is put down to policy if and only if both policies are known and differ and support or cardinality changed |
| ClaimQueries.ReadAlikeExactlyWhen | src/l9_constellation_topology/topology/claim_view.py:394-420 | Two views read the same if and only if no field differs; locations differ only in place, content hash or revision, never in evidence id |
| EffectIdentity.CandidateIdIdentifies | src/l9_constellation_topology/publication/identity.py:112-143 | Two candidates have one identity only when they state one fact |
| EffectIdentity.KeysEqualExactlyWhen | src/l9_constellation_topology/publication/identity.py:190-251 | Two writes have one idempotency key if and only if fact, lowering version, derivation, confidence claim and the multiset of evidence semantics agree |
| EffectIdentity.SortedEvidence | src/l9_constellation_topology/publication/identity.py:190-251 | Sorting evidence semantics forgets their order and nothing else |
| Lowering.ReissueKeepsKey | src/l9_constellation_topology/publication/lowering.py:219-311 | Without truncation, other evidence ids, revisions, packets, times and citation order give the same key, or the same error |
| Lowering.ReissueKeepsKeyExactlyWhen | src/l9_constellation_topology/publication/lowering.py:219-311 | Truncated or not, reissued evidence gives the same key if and only if what is kept of it in order of identity is the same multiset of semantics |
| Lowering.LoweredKeysEqualExactlyWhen | src/l9_constellation_topology/publication/lowering.py:429-566 | For any two lowered writes, truncated or not, keys are equal if and only if fact, confidence, derivation and kept evidence agree |
| Lowering.TruncationBindsIdentities | src/l9_constellation_topology/publication/lowering.py:243-254 | With room for one record, exchanging the ids of two records with different locators changes the key |
| Lowering.TruncationWitness | src/l9_constellation_topology/publication/lowering.py:429-566 | A policy and a request for which both writes are lowered and their keys differ |
| LoweredWrites.LoweredExactlyWhen | src/l9_constellation_topology/publication/lowering.py:429-500 | A fact is lowered if and only if it names an entity and the policy has a method, score, ceiling and trust for it and a kind for every record kept |
| LoweredWrites.ScoreIsCapped | src/l9_constellation_topology/publication/lowering.py:150-163 | The score is the greatest number from zero to one that exceeds neither the score of the level nor the ceiling of the conflict, or zero |
| LoweredWrites.WriteKeepsItsEvidence | src/l9_constellation_topology/publication/lowering.py:219-311 | A write names exactly the known evidence cited, keeps the first of it by id up to the limit with the kinds the policy gives, and counts what is kept and what is cut off |
| LoweredWrites.WriteIsFaithful | src/l9_constellation_topology/publication/lowering.py:296-311 | Each item is kept with the digest its content hash denotes, if any, and its path, or its address where it has none |
| LoweredWrites.DigestExactlyWhen | src/l9_constellation_topology/publication/identity.py:98-109 | A bare digest is given if and only if the value is 64 hex digits in any case, with or without the prefix and with blanks around them |
| LoweredWrites.DerivationAddedExactlyWhen | src/l9_constellation_topology/publication/lowering.py:256-292 | The compiler adds its own derivation if and only if the fact was inferred or aggregated from known evidence and nothing kept accounts for it |
| LoweredWrites.WriteStatesItsRequest | src/l9_constellation_topology/publication/lowering.py:429-566 | A write states the content, assertion and entities of its fact in the memory of its kind, under its own identity and key |
| LoweredWrites.NamespaceIsTheOwners | src/l9_constellation_topology/publication/lowering.py:138-143 | A write goes to the namespace named by what follows the first colon of its owner, or is unscoped |
| PublicationPlan.Diagnose | src/l9_constellation_topology/publication/plan.py:116-158 | The counters give the specified diagnostics |
| PublicationPlan.LowerClaims | src/l9_constellation_topology/publication/plan.py:161-212 | Each claim becomes a candidate or a skip with its reason; a claim that cannot be lowered is never raised |
| PublicationPlan.LowerRelationships | src/l9_constellation_topology/publication/plan.py:219-267 | Each edge becomes a candidate or a skip; under a strict policy qualification comes first |
| PublicationPlan.BuildPlan | src/l9_constellation_topology/publication/plan.py:270-424 | The method computes the specified plan or the first error |
| PublicationPlan.EveryRecordIsAccountedFor | src/l9_constellation_topology/publication/plan.py:270-396 | Every record of every domain appears exactly once as candidate or skip; in the diagnostics of the plan status counts sum to candidates and skip counts to skips |
| PublicationPlan.DiagnosticsAddUp | src/l9_constellation_topology/publication/plan.py:116-158 | Among all diagnostics of any candidates and skips, counts by status add up to the candidates and counts by skip reason to the skips |
| PublicationPlan.RelationshipsAreAdmitted | src/l9_constellation_topology/publication/plan.py:219-267 | Each relationship candidate is what some edge of a selected type was lowered to, and that very edge is qualified when the policy is strict |
| PublicationPlan.StatusesAddUp | src/l9_constellation_topology/publication/plan.py:116-158 | Counts by status add up to the candidates |
| PublicationPlan.SkipsAddUp | src/l9_constellation_topology/publication/plan.py:116-158 | Counts by skip reason add up to the skips |
| PlanDecisions.CandidatesAreJudged | src/l9_constellation_topology/publication/eligibility.py:128-169 | Every candidate of a plan stands for a selected repository, capability, claim or edge, states it, and is rejected, held or eligible with exactly the reasons the policy has for it |
| PlanDecisions.EligibleExactlyWhen | src/l9_constellation_topology/publication/eligibility.py:106-169 | A fact so judged is eligible if and only if, where the policy asks: lineage is there, every entity is known, no conflict on one blocks or is over a material field, no unknown is material, required evidence is known and the predicate is declared |
| PlanDecisions.EligibleClaimsAreSettled | src/l9_constellation_topology/publication/eligibility.py:106-169 | From statements to the plan: where conflicts hold, no eligible claim about a single-valued predicate answers a question some statement answers differently; where unknowns or unsupported predicates hold, its predicate is declared |
| PlanDecisions.RelationshipsAreProved | src/l9_constellation_topology/publication/plan.py:219-267 | Every relationship candidate stands for a selected edge whose target resolution, if recorded, is exact; under a strict policy that edge is proved by known evidence |
| PlanDecisions.ClaimFateMeans | src/l9_constellation_topology/publication/plan.py:161-212 | A claim becomes a candidate if and only if it is selected, has subject, predicate and object, and can be lowered; otherwise it is skipped for the first reason that applies |
| PlanDecisions.EdgeFateMeans | src/l9_constellation_topology/publication/plan.py:219-267 | An edge becomes a candidate if and only if it is selected, has both ends and can be lowered, and is skipped if and only if it is not selected, for the first reason that applies |
| PlanDecisions.SkippedExactlyWhen | src/l9_constellation_topology/publication/plan.py:161-396 | A plan skips exactly the entities and artifacts of unselected kinds, the claims and edges above, and the domains that are never published, each with its reason |
| PlanDecisions.ReasonsReadApart | src/l9_constellation_topology/publication/plan.py:215-216 | No two reasons to refuse an edge are reported by one text |
| PlanDecisions.PlannedExactlyWhen | src/l9_constellation_topology/publication/plan.py:270-396 | There is a plan if and only if the topology is validated where that is required, artifacts are not selected, and every selected entity and edge can be lowered; no claim stops a plan |
| PlanDecisions.TruncationAddsUp | src/l9_constellation_topology/publication/plan.py:116-158 | The truncation diagnostic counts what was cut off over all candidates |
| CorpusValidator.Validate | src/l9_constellation_topology/packets/corpus_validator.py:296-325 | The passes report exactly the specified findings, in some order |
| CorpusValidator.CheckRoots | src/l9_constellation_topology/packets/corpus_validator.py:82-117 | Roots that name no input, or differ from it in hash or revision, and inputs no root observes |
| CorpusValidator.CheckSignals | src/l9_constellation_topology/packets/corpus_validator.py:120-145 | Signals whose artifact or subject is unknown, or that cite lines of a format without lines |
| CorpusValidator.CheckDuplicates | src/l9_constellation_topology/packets/corpus_validator.py:148-172 | Duplicate endpoints that are not artifacts, and clusters with more than one hash |
| CorpusValidator.CheckReasoning | src/l9_constellation_topology/packets/corpus_validator.py:254-277 | Reasoning entries whose candidate, member or evidence pack is unknown |
| CorpusValidator.AcceptedExactlyWhenClosed | src/l9_constellation_topology/packets/corpus_validator.py:82-325 | The validator finds nothing if and only if the packet is referentially closed over its inputs |
| CorpusValidator.AcceptedDuplicatesJoinArtifacts | src/l9_constellation_topology/packets/corpus_validator.py:148-172 | Every duplicate edge compiled from an accepted packet joins two different carried artifacts, whatever the order or orientation of its relations |
| CorpusFindings.ReportedExactlyWhen | src/l9_constellation_topology/packets/corpus_validator.py:49-325 | Each finding, of every one of the twenty kinds and naming just these ids, is reported if and only if the packet and its inputs deserve it |
| Aggregation.Run | src/l9_constellation_topology/stages/aggregate_repositories.py:69-134 | The loops compute the specified repositories, conflicts and unknowns |
| Aggregation.ResolveOne | src/l9_constellation_topology/stages/aggregate_repositories.py:91-122 | The inner loop splits the dependencies of a record into targets and unresolved names, one unknown for each of the latter |
| Aggregation.OneRecordEach | src/l9_constellation_topology/stages/aggregate_repositories.py:72-81 | There is exactly one merged record for each repository identity of the input |
| Aggregation.MergingUnites | src/l9_constellation_topology/stages/aggregate_repositories.py:45-66 | A merged record lists in each set-valued field exactly what some record of its identity lists |
| Aggregation.ConflictExactlyWhenDisagreeing | src/l9_constellation_topology/stages/aggregate_repositories.py:24-43 | A blocking conflict over name or revision is reported if and only if two records of the identity disagree on it |
| Aggregation.TargetIsARecord | src/l9_constellation_topology/stages/aggregate_repositories.py:83-98 | A dependency that resolves names, by name or identity, another record of the input |
| Aggregation.EveryDependencyAccountedFor | src/l9_constellation_topology/stages/aggregate_repositories.py:88-122 | Each nonempty dependency becomes an upstream id of another input repository, or stays unresolved with an unknown about it, never both |
| Aggregation.DownstreamExactlyWhenResolved | src/l9_constellation_topology/stages/aggregate_repositories.py:90-134 | r is downstream of t if and only if some dependency of r resolved to t, and then t is upstream of r and differs from it |
| AggregatedRecords.DependenciesExactly | src/l9_constellation_topology/stages/aggregate_repositories.py:83-134 | Upstream, unresolved and downstream of a repository in terms of the input: a dependency names the last repository called so, in lower case with dashes for underscores, else as written, by name or by id without its scheme |
| AggregatedRecords.RestExactly | src/l9_constellation_topology/stages/aggregate_repositories.py:45-66 | A repository has the name and revision of its first record, and the owners, evidence and facts of all of them |
| AggregatedRecords.UnknownsExactly | src/l9_constellation_topology/stages/aggregate_repositories.py:102-114 | The unknowns are exactly those about the dependencies left unresolved, on the evidence of their repository |
| AggregatedRecords.UnresolvedIdIdentifies | src/l9_constellation_topology/stages/aggregate_repositories.py:104-108 | Unknowns have one identity only for one dependency of one repository |
| AggregatedRecords.ConflictsAreWeighed | src/l9_constellation_topology/stages/aggregate_repositories.py:24-43 | Every conflict is over name or revision, blocks, lists exactly the values the records give, and cites the evidence of all of them |
| BridgeGaps.EdgesByEndpoint | src/l9_constellation_topology/topology/bridge_gaps.py:99-116 | The loop indexes exactly the edges into and out of each identity, sorted |
| BridgeGaps.DeclaredIntents | src/l9_constellation_topology/topology/bridge_gaps.py:144-158 | The loop gives each entity the intent of the last node that declares a known one |
| BridgeGaps.LastDeclarationDecides | src/l9_constellation_topology/topology/bridge_gaps.py:144-158 | A known intent declared by a node holds when no later node of the same entity declares a known one |
| BridgeGaps.Project | src/l9_constellation_topology/topology/bridge_gaps.py:366-420 | The loops compute the specified gaps, their order and their counts |
| BridgeGaps.GapIdIdentifies | src/l9_constellation_topology/topology/bridge_gaps.py:168-189 | Two gaps have one identity only when they are of one type on one subject |
| BridgeGaps.AtMostOneGap | src/l9_constellation_topology/topology/bridge_gaps.py:309-400 | A subject has at most as many gaps as capability records of its name, and at most one if it has none: at most one where capability ids are distinct |
| BridgeGaps.GapExactlyWhen | src/l9_constellation_topology/topology/bridge_gaps.py:207-346 | A subject has a gap if and only if nothing consumes it and it is a capability that is built or exposed, or is no capability and something produces it |
| BridgeGaps.ConsumingClosesGaps | src/l9_constellation_topology/topology/bridge_gaps.py:207-420 | Adding a CONSUMES edge into t, anywhere in the edges, yields exactly the old gaps minus those on t, in the same order |
| BridgeGaps.GapsAscend | src/l9_constellation_topology/topology/bridge_gaps.py:401 | The gaps are listed by the name of their type and, within a type, by subject |
| BridgeGaps.CountsAddUp | src/l9_constellation_topology/topology/bridge_gaps.py:401-416 | Counts by type and by disposition each sum to the gaps, and gaps of unknown intent are those that need a decision |
| GapContents.GapsSayWhatIs | src/l9_constellation_topology/topology/bridge_gaps.py:132-346 | Every gap says exactly what the capability and its edges say: its type, what was observed and expected, who produces it, which evidence is cited, how well it is corroborated, whose intent counts and what is to be done |
| Candidates.BuildIndex | src/l9_constellation_topology/topology/candidates.py:147-187 | The loops compute the specified index: unordered pairs by type, claims by subject, last repository of each artifact |
| Candidates.Distribution | src/l9_constellation_topology/topology/candidates.py:213-221 | The nested loops compute the specified tally |
| Candidates.CompileClusters | src/l9_constellation_topology/topology/candidates.py:293-353 | The loops compute the specified clusters, sorted by identity |
| Candidates.DistributionCounts | src/l9_constellation_topology/topology/candidates.py:213-221 | A distribution holds, for each value, the number of claims about the subjects that state it, and lists only values that occur |
| Candidates.ClassFollowsFromRecords | src/l9_constellation_topology/topology/candidates.py:224-330 | The class read off the input records directly: weak if and only if statuses conflict or divide or it was weak; capped at moderate when no explicit edge joins two members |
| Candidates.OneClusterEach | src/l9_constellation_topology/topology/candidates.py:313-353 | Each proposal becomes exactly one cluster, in identity order whatever the records say |
| Candidates.NeverStrongerThanProposed | src/l9_constellation_topology/domain/candidate.py:206-215 | No cluster exceeds the class its producer gave it, and none has more than candidate authority |
| Candidates.EdgesNeverWeaken | src/l9_constellation_topology/topology/candidates.py:275-330 | Adding edges never weakens a cluster |
| Candidates.StatementsNeverStrengthen | src/l9_constellation_topology/topology/candidates.py:275-330 | Adding claims or conflicts never strengthens a cluster |
| Candidates.LinksAreUndirected | src/l9_constellation_topology/topology/candidates.py:166-195 | Repeating edges or turning them round leaves the pairs that support is counted over unchanged |
| ClusterContents.StructureMeasures | src/l9_constellation_topology/topology/candidates.py:224-272 | Each count of a structure is the number of members, repositories, roots, archived members, linked pairs, blocking pairs, disputed subjects, capabilities or packages in the records themselves |
| ClusterContents.CountedOnce | src/l9_constellation_topology/topology/candidates.py:224-272 | No other number counts the same things |
| ClusterContents.StructureDistributes | src/l9_constellation_topology/topology/candidates.py:213-240 | Each distribution counts every claim of its predicate about the group and no other |
| ClusterContents.ClustersDescribe | src/l9_constellation_topology/topology/candidates.py:275-353 | Every cluster has the members, support and evidence of its proposal, is flagged exactly for what the producer and the records show, spans roots exactly when two members do or the producer says so, and has the class and confidence these allow |

## Left out

Assumptions:

- The digest and the JSON printer are an abstract `Codec`, assumed injective on canonical documents where a theorem says `Faithful`; SHA-256 itself (section 6.2 of FIPS 180-4) and the JSON text are not modelled.
- JSON parsing and record validation are a `Library`; that parsing inverts printing, and that a finalized packet is read back as it was, are assumptions stated where they are used.
- Doubles are modelled as integers that order them, the two zeros told apart: the compiler compares them and hashes them, and does no arithmetic on them.
- A look at a path, a link, a replacement and a rename are single steps; a write through an open handle may stop part of the way.
- Private temporary and staging paths are touched by nobody else, and their names never coincide with a destination.
- Destinations are given as normalised lists of path components; `normalize_source_path`, containment of resolved paths and symbolic links are not modelled.
- `str.lower`, `str.upper` and `str.strip` act on ASCII letters and ASCII blanks.
- The predicate registry is a parameter: any tables of predicates, levels and authorities.
- Support signatures in the differential, sorted there by `repr`, are sets here.
- Edge and node properties are texts, counts or flags.

Conditions on particular statements:

- SinkRefinement.CommitBoth: takes a disk on which nothing interferes and no possible step fails, because otherwise either sink may report what the other does not.
- Lowering.ReissueKeepsKey: takes evidence that fits the limit, because otherwise it is false; Lowering.ReissueKeepsKeyExactlyWhen has no such condition.
- Duplicates.OrientationIrrelevant: takes one hash per cluster, which the corpus validator enforces, because the source keeps the hash of the last relation it reads.

Not modelled:

- Prose: claim, edge, entity and gap descriptions are parameters or are left out, as are receipt and diagnostic messages.
- Permissions, durability of `fsync`, and the generation of temporary names.
- A failed `fsync` of a parent directory or a failed cleanup reports failure although the target was written; the results say so, and no theorem takes a failed entry to mean an untouched target.
- Whether a member path leaves the bundle is a question the model asks of its `Library`; repository-model bundles (`load_repository_model_bundle`) are left out.
- Projection hashes and policy hashes of reports, which only feed the hashing already modelled.
- The making of claim views from claims and their evidence (`claim_view`): views are the input of the index.
- `CompositeOutputSink`, `compile_candidate_relations`, graph records of candidates, corpus scope and work projection: they would add easy members.
- Impact analysis, graph building, readiness, reasoning routing, maturity, renderers, scanners, workers, configuration and the command line.
