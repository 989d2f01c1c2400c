/** The publication plan: every record lowered to a candidate or skipped with its reason
    (publication/plan.py, publication/eligibility.py). */
module PublicationPlan {
  import opened Wrappers
  import opened Ordering
  import opened CanonicalHash
  import opened Domain
  import Reconciliation
  import ClaimProjection
  import opened EffectIdentity
  import Lowering
  import Qualification

  // ---- What is planned ----

  /** A repository or capability, with the prose that describes it. */
  datatype Entity = Entity(id: string, content: string, assessment: Confidence, refs: seq<string>)

  datatype State = State(
    repositories: seq<Entity>, capabilities: seq<Entity>, claims: seq<Claim>, artifacts: seq<string>, edges: seq<Edge>,
    candidateRelations: seq<string>, candidateClusters: seq<string>, readiness: seq<string>, reasoning: seq<string>)

  datatype Settings = Settings(
    entityKinds: set<string>, edgeTypes: set<string>, strict: bool, selective: bool, claimPredicates: set<string>,
    declarationPredicates: set<string>, requireValidated: bool, requireLineage: bool, holdConflict: bool, holdUnknown: bool,
    holdMissing: bool, holdUnsupported: bool)

  datatype Setting = Setting(
    codec: Codec, settings: Settings, lowering: Lowering.Policy, around: Lowering.Surroundings, index: Qualification.Index, validated: bool,
    hasLineage: bool, known: set<string>, conflicts: map<string, seq<Conflict>>, unknowns: map<string, seq<Unknown>>,
    claimProse: Claim -> string, edgeProse: Edge -> string) {

    predicate Ready() {
      "entity" in lowering.memoryClass && "claim" in lowering.memoryClass && "relationship" in lowering.memoryClass
    }
  }

  datatype Status = Eligible | Held | Rejected

  datatype Decision = Decision(status: Status, reasons: seq<string>)

  datatype PlanCandidate = PlanCandidate(lowered: Lowering.LoweredCandidate, decision: Decision)

  datatype Skip = Skip(kind: string, id: string, reason: string)

  function CandidateKey(x: PlanCandidate): string { x.lowered.candidateId }
  function SkipIdKey(x: Skip): string { x.id }
  function SkipKindKey(x: Skip): string { x.kind }

  datatype PlanError = TopologyNotValidated | ArtifactUnsupported | CannotLower(error: Lowering.LoweringError)

  // ---- Eligibility ----

  predicate AnyMaterialConflict(conflicts: seq<Conflict>, fields: set<string>) {
    exists j :: 0 <= j < |conflicts| && (conflicts[j].blocking || conflicts[j].field in fields)
  }

  predicate AnyMaterialUnknown(unknowns: seq<Unknown>, fields: set<string>) {
    exists j :: 0 <= j < |unknowns| && (unknowns[j].field.None? || unknowns[j].field.value in fields)
  }

  predicate MaterialConflict(s: Setting, fields: set<string>, entityIds: seq<string>) {
    exists i :: 0 <= i < |entityIds| && entityIds[i] in s.conflicts && AnyMaterialConflict(s.conflicts[entityIds[i]], fields)
  }

  predicate MaterialUnknown(s: Setting, fields: set<string>, entityIds: seq<string>) {
    exists i :: 0 <= i < |entityIds| && entityIds[i] in s.unknowns && AnyMaterialUnknown(s.unknowns[entityIds[i]], fields)
  }

  /** What a lowered fact is refused for. */
  function Rejections(s: Setting, lowered: Lowering.LoweredCandidate): set<string> {
    (if s.settings.requireLineage && !s.hasLineage then {"lineage.missing_repository_model_packets"} else {})
    + (if s.settings.requireLineage && exists i :: 0 <= i < |lowered.entityIds| && lowered.entityIds[i] !in s.known
       then {"lineage.unresolved_topology_entity"} else {})
  }

  /** What a lowered fact is held for. */
  function Reservations(s: Setting, lowered: Lowering.LoweredCandidate, fields: set<string>, unsupported: bool): set<string> {
    (if s.settings.holdConflict && MaterialConflict(s, fields, lowered.entityIds) then {"conflict.unresolved_material"} else {})
    + (if s.settings.holdUnknown && MaterialUnknown(s, fields, lowered.entityIds) then {"unknown.unresolved_material"} else {})
    + (if s.settings.holdMissing && lowered.write.confidence.means in Lowering.REQUIRING && lowered.resolvedIds == []
       then {"evidence.required_but_missing"} else {})
    + (if s.settings.holdUnsupported && unsupported then {"predicate.unsupported_by_registry"} else {})
  }

  /** `decide`: a fact that is refused is not held as well. */
  function Decide(s: Setting, lowered: Lowering.LoweredCandidate, fields: set<string>, unsupported: bool): Decision {
    var rejections, holds := Rejections(s, lowered), Reservations(s, lowered, fields, unsupported);
    if rejections != {} then Decision(Rejected, SortedIds(rejections))
    else if holds != {} then Decision(Held, SortedIds(holds))
    else Decision(Eligible, ["policy.admitted"])
  }

  // ---- The fate of one record ----

  datatype Fate = Becomes(candidate: PlanCandidate) | SkippedAs(skip: Skip) | Fails(error: Lowering.LoweringError)

  function Lowered(s: Setting, request: Lowering.Request, fields: set<string>, unsupported: bool): Fate
    requires request.kind in s.lowering.memoryClass
  {
    var built := Lowering.Build(s.codec, s.lowering, s.around, request);
    if built.Err? then Fails(built.error) else Becomes(PlanCandidate(built.value, Decide(s, built.value, fields, unsupported)))
  }

  const REPOSITORY_FIELDS: set<string> := {"name", "repository_id", "primary_role", "source_revision", "languages", "package_managers"}
  const CAPABILITY_FIELDS: set<string> := {"capability_id", "name", "description", "implemented_by", "exposed_by"}
  const EDGE_FIELDS: set<string> := {"source_id", "edge_type", "target_id", "direction"}

  function EntityFate(s: Setting, kind: string, fields: set<string>, x: Entity): Fate
    requires s.Ready()
  {
    if kind !in s.settings.entityKinds then SkippedAs(Skip("entity", x.id, "policy.entity_kind_not_selected"))
    else Lowered(s, Lowering.Request("entity", [x.id], x.content, None, x.assessment, x.refs), fields, false)
  }

  /** Whether a claim's predicate is selected; None when selection has no rule for it. */
  function ClaimSelection(s: Setting, predicat: string): Option<bool> {
    if !s.settings.selective then Some(true)
    else if s.index.registry.SupportOf(predicat) == Unsupported then None
    else if predicat in s.index.registry.declarationOnly then Some(predicat in s.settings.declarationPredicates)
    else Some(predicat in s.settings.claimPredicates)
  }

  function AssertionOf(subject: string, predicat: string, object_: string): Assertion {
    Assertion(Lowering.Truncated(subject, 500), Lowering.Truncated(predicat, 200), Lowering.Truncated(object_, 2000))
  }

  predicate Structured(a: Assertion) { a.subject != "" && a.predicat != "" && a.object_ != "" }

  function LowerClaim(s: Setting, x: Claim): Fate
    requires s.Ready()
  {
    var assertion := AssertionOf(x.subject, x.predicat, x.object_);
    if !Structured(assertion) then Fails(Lowering.Unstructured)
    else
      Lowered(s, Lowering.Request("claim", [x.subject], s.claimProse(x), Some(assertion), x.confidence, x.evidenceRefs),
              {"subject_id", "predicate", "object", x.predicat}, x.support == Unsupported)
  }

  /** A claim that cannot be stated is skipped, where any other record would fail the plan. */
  function ClaimFate(s: Setting, x: Claim): Fate
    requires s.Ready()
  {
    if "semantic_claim" !in s.settings.entityKinds then SkippedAs(Skip("claim", x.claimId, "policy.entity_kind_not_selected"))
    else if ClaimSelection(s, x.predicat) == Some(false) then
      SkippedAs(Skip("claim", x.claimId, if x.predicat in s.index.registry.declarationOnly then "policy.declaration_only_claim_not_opted_in"
                                         else "policy.claim_predicate_not_selected"))
    else
      var fate := LowerClaim(s, x);
      if fate.Fails? then SkippedAs(Skip("claim", x.claimId, "claim.not_expressible_as_assertion")) else fate
  }

  function ReasonText(r: Qualification.Reason): string {
    match r
    case TypeUnrecognized => "qualification.relation_type_unrecognized"
    case OriginUnsupported => "qualification.evidence_origin_unsupported"
    case EvidenceMissing => "qualification.relation_evidence_missing"
    case ClassificationOnly => "qualification.artifact_classification_only"
    case ClaimNotProjectable => "qualification.originating_claim_not_projectable"
    case EndpointUnresolved => "qualification.endpoint_unresolved"
    case EndpointMismatch => "qualification.endpoint_kind_mismatch"
    case WorkTargetUnresolved => "relation.work_target_not_exactly_resolved"
  }

  function LowerEdge(s: Setting, e: Edge): Fate
    requires s.Ready()
  {
    var assertion := AssertionOf(e.source, TypeName(e.edgeType), e.target);
    if !Structured(assertion) then Fails(Lowering.Unstructured)
    else
      Lowered(s, Lowering.Request("relationship", [e.source, e.target], s.edgeProse(e), Some(assertion), e.confidence, e.evidenceRefs),
              EDGE_FIELDS, false)
  }

  predicate TargetLeftOpen(e: Edge) {
    "target_resolution" in e.properties && e.properties["target_resolution"] != Word("exact-artifact")
  }

  function EdgeFate(s: Setting, e: Edge): Fate
    requires s.Ready()
  {
    var verdict := if s.settings.strict then Some(Qualification.Qualify(e, s.index)) else None;
    if verdict.Some? && verdict.value.Unqualified? then SkippedAs(Skip("relationship", e.edgeId, ReasonText(verdict.value.reason)))
    else if TypeName(e.edgeType) !in s.settings.edgeTypes then SkippedAs(Skip("relationship", e.edgeId, "policy.edge_type_not_selected"))
    else if verdict.None? && TargetLeftOpen(e) then SkippedAs(Skip("relationship", e.edgeId, "relation.work_target_not_exactly_resolved"))
    else LowerEdge(s, e)
  }

  function Withheld(kind: string, reason: string, ids: seq<string>): (r: seq<Fate>)
    ensures |r| == |ids| && forall i :: 0 <= i < |r| ==> r[i] == SkippedAs(Skip(kind, ids[i], reason))
  {
    if ids == [] then [] else Withheld(kind, reason, ids[..|ids| - 1]) + [SkippedAs(Skip(kind, ids[|ids| - 1], reason))]
  }

  // ---- The fates of all records ----

  function EntityFates(s: Setting, kind: string, fields: set<string>, xs: seq<Entity>): (r: seq<Fate>)
    requires s.Ready()
    ensures |r| == |xs|
  {
    if xs == [] then [] else EntityFates(s, kind, fields, xs[..|xs| - 1]) + [EntityFate(s, kind, fields, xs[|xs| - 1])]
  }

  function ClaimFates(s: Setting, xs: seq<Claim>): (r: seq<Fate>)
    requires s.Ready()
    ensures |r| == |xs|
  {
    if xs == [] then [] else ClaimFates(s, xs[..|xs| - 1]) + [ClaimFate(s, xs[|xs| - 1])]
  }

  function EdgeFates(s: Setting, xs: seq<Edge>): (r: seq<Fate>)
    requires s.Ready()
    ensures |r| == |xs|
  {
    if xs == [] then [] else EdgeFates(s, xs[..|xs| - 1]) + [EdgeFate(s, xs[|xs| - 1])]
  }

  function CandidatesIn(fates: seq<Fate>): seq<PlanCandidate> {
    if fates == [] then []
    else
      var last := fates[|fates| - 1];
      CandidatesIn(fates[..|fates| - 1]) + if last.Becomes? then [last.candidate] else []
  }

  function SkipsIn(fates: seq<Fate>): seq<Skip> {
    if fates == [] then []
    else
      var last := fates[|fates| - 1];
      SkipsIn(fates[..|fates| - 1]) + if last.SkippedAs? then [last.skip] else []
  }

  /** The error of the first record that fails, if any. */
  function FirstFailure(fates: seq<Fate>): Option<Lowering.LoweringError> {
    if fates == [] then None
    else
      var earlier := FirstFailure(fates[..|fates| - 1]);
      var last := fates[|fates| - 1];
      if earlier.Some? then earlier else if last.Fails? then Some(last.error) else None
  }

  lemma {:induction false} FatesSplit(a: seq<Fate>, b: seq<Fate>)
    ensures CandidatesIn(a + b) == CandidatesIn(a) + CandidatesIn(b) && SkipsIn(a + b) == SkipsIn(a) + SkipsIn(b)
    ensures FirstFailure(a + b) == if FirstFailure(a).Some? then FirstFailure(a) else FirstFailure(b)
  {
    if b == [] {
      assert a + b == a;
    } else {
      assert (a + b)[..|a + b| - 1] == a + b[..|b| - 1];
      FatesSplit(a, b[..|b| - 1]);
    }
  }

  lemma {:induction false} WithheldNeverLowers(kind: string, reason: string, ids: seq<string>)
    ensures CandidatesIn(Withheld(kind, reason, ids)) == [] && FirstFailure(Withheld(kind, reason, ids)) == None
    ensures |SkipsIn(Withheld(kind, reason, ids))| == |ids|
  {
    if ids != [] {
      var n := |ids| - 1;
      WithheldNeverLowers(kind, reason, ids[..n]);
      assert Withheld(kind, reason, ids)[..n] == Withheld(kind, reason, ids[..n]);
    }
  }

  // ---- Diagnostics ----

  datatype Code = StatusCode(status: Status) | ReasonCode(reason: string) | SkippedCode(reason: string) | TruncatedCode

  datatype Diagnostic = Diagnostic(code: Code, count: nat)

  function StatusCount(cs: seq<PlanCandidate>, status: Status): nat {
    if cs == [] then 0 else StatusCount(cs[..|cs| - 1], status) + if cs[|cs| - 1].decision.status == status then 1 else 0
  }

  function SkipCount(skips: seq<Skip>, reason: string): nat {
    if skips == [] then 0 else SkipCount(skips[..|skips| - 1], reason) + if skips[|skips| - 1].reason == reason then 1 else 0
  }

  function Occurrences(xs: seq<string>, x: string): nat { multiset(xs)[x] }

  function ReasonCount(cs: seq<PlanCandidate>, reason: string): nat {
    if cs == [] then 0 else ReasonCount(cs[..|cs| - 1], reason) + Occurrences(cs[|cs| - 1].decision.reasons, reason)
  }

  function TruncatedSum(cs: seq<PlanCandidate>): nat {
    if cs == [] then 0 else TruncatedSum(cs[..|cs| - 1]) + cs[|cs| - 1].lowered.truncated
  }

  function ReasonsOf(cs: seq<PlanCandidate>): set<string> {
    if cs == [] then {} else ReasonsOf(cs[..|cs| - 1]) + Distinct(cs[|cs| - 1].decision.reasons)
  }

  function SkipReasons(skips: seq<Skip>): set<string> {
    if skips == [] then {} else SkipReasons(skips[..|skips| - 1]) + {skips[|skips| - 1].reason}
  }

  function ReasonLines(cs: seq<PlanCandidate>, reasons: seq<string>): seq<Diagnostic> {
    if reasons == [] then []
    else
      var last := reasons[|reasons| - 1];
      ReasonLines(cs, reasons[..|reasons| - 1]) + [Diagnostic(ReasonCode(last), ReasonCount(cs, last))]
  }

  function SkipLines(skips: seq<Skip>, reasons: seq<string>): seq<Diagnostic> {
    if reasons == [] then []
    else
      var last := reasons[|reasons| - 1];
      SkipLines(skips, reasons[..|reasons| - 1]) + [Diagnostic(SkippedCode(last), SkipCount(skips, last))]
  }

  function StatusLines(cs: seq<PlanCandidate>): seq<Diagnostic> {
    [Diagnostic(StatusCode(Eligible), StatusCount(cs, Eligible)), Diagnostic(StatusCode(Held), StatusCount(cs, Held)),
     Diagnostic(StatusCode(Rejected), StatusCount(cs, Rejected))]
  }

  function DiagnosticsOf(cs: seq<PlanCandidate>, skips: seq<Skip>): seq<Diagnostic> {
    StatusLines(cs) + ReasonLines(cs, SortedIds(ReasonsOf(cs))) + SkipLines(skips, SortedIds(SkipReasons(skips)))
    + [Diagnostic(TruncatedCode, TruncatedSum(cs))]
  }

  /** `_diagnostics`. */
  method Diagnose(cs: seq<PlanCandidate>, skips: seq<Skip>) returns (diagnostics: seq<Diagnostic>)
    ensures diagnostics == DiagnosticsOf(cs, skips)
  {
    var eligible, held, rejected, reasonCounts, truncated := CountCandidates(cs);
    var skipCounts := CountSkips(skips);
    hide *;
    var byReason: seq<Diagnostic> := [];
    var reasons := SortedIds(reasonCounts.Keys);
    MoreReasonLines(cs, reasons, 0);
    for i := 0 to |reasons|
      invariant byReason == ReasonLines(cs, reasons[..i])
    {
      MoreReasonLines(cs, reasons, i);
      assert reasons[i] in reasonCounts;
      byReason := byReason + [Diagnostic(ReasonCode(reasons[i]), reasonCounts[reasons[i]])];
    }
    var bySkip: seq<Diagnostic> := [];
    var skipReasons := SortedIds(skipCounts.Keys);
    MoreSkipLines(skips, skipReasons, 0);
    for i := 0 to |skipReasons|
      invariant bySkip == SkipLines(skips, skipReasons[..i])
    {
      MoreSkipLines(skips, skipReasons, i);
      assert skipReasons[i] in skipCounts;
      bySkip := bySkip + [Diagnostic(SkippedCode(skipReasons[i]), skipCounts[skipReasons[i]])];
    }
    assert reasons[..|reasons|] == reasons && skipReasons[..|skipReasons|] == skipReasons;
    diagnostics := [Diagnostic(StatusCode(Eligible), eligible), Diagnostic(StatusCode(Held), held), Diagnostic(StatusCode(Rejected), rejected)]
      + byReason + bySkip + [Diagnostic(TruncatedCode, truncated)];
    DiagnosticsAre(cs, skips);
  }

  lemma {:induction false} DiagnosticsAre(cs: seq<PlanCandidate>, skips: seq<Skip>)
    ensures DiagnosticsOf(cs, skips) ==
      [Diagnostic(StatusCode(Eligible), StatusCount(cs, Eligible)), Diagnostic(StatusCode(Held), StatusCount(cs, Held)),
       Diagnostic(StatusCode(Rejected), StatusCount(cs, Rejected))]
      + ReasonLines(cs, SortedIds(ReasonsOf(cs))) + SkipLines(skips, SortedIds(SkipReasons(skips))) + [Diagnostic(TruncatedCode, TruncatedSum(cs))]
  {
  }

  lemma {:induction false} MoreReasonLines(cs: seq<PlanCandidate>, reasons: seq<string>, i: nat)
    ensures ReasonLines(cs, []) == []
    ensures i < |reasons| ==> ReasonLines(cs, reasons[..i + 1]) == ReasonLines(cs, reasons[..i]) + [Diagnostic(ReasonCode(reasons[i]), ReasonCount(cs, reasons[i]))]
  {
    if i < |reasons| { assert reasons[..i + 1][..i] == reasons[..i]; }
  }

  lemma {:induction false} MoreSkipLines(skips: seq<Skip>, reasons: seq<string>, i: nat)
    ensures SkipLines(skips, []) == []
    ensures i < |reasons| ==> SkipLines(skips, reasons[..i + 1]) == SkipLines(skips, reasons[..i]) + [Diagnostic(SkippedCode(reasons[i]), SkipCount(skips, reasons[i]))]
  {
    if i < |reasons| { assert reasons[..i + 1][..i] == reasons[..i]; }
  }

  /** The counters over the candidates. */
  method CountCandidates(cs: seq<PlanCandidate>)
    returns (eligible: nat, held: nat, rejected: nat, reasons: map<string, nat>, truncated: nat)
    ensures eligible == StatusCount(cs, Eligible) && held == StatusCount(cs, Held) && rejected == StatusCount(cs, Rejected)
    ensures reasons.Keys == ReasonsOf(cs) && forall r :: r in reasons ==> reasons[r] == ReasonCount(cs, r)
    ensures truncated == TruncatedSum(cs)
  {
    eligible, held, rejected, reasons, truncated := 0, 0, 0, map[], 0;
    for i := 0 to |cs|
      invariant eligible == StatusCount(cs[..i], Eligible) && held == StatusCount(cs[..i], Held) && rejected == StatusCount(cs[..i], Rejected)
      invariant reasons.Keys == ReasonsOf(cs[..i]) && forall r :: r in reasons ==> reasons[r] == ReasonCount(cs[..i], r)
      invariant truncated == TruncatedSum(cs[..i])
    {
      assert cs[..i + 1][..i] == cs[..i];
      match cs[i].decision.status {
        case Eligible => eligible := eligible + 1;
        case Held => held := held + 1;
        case Rejected => rejected := rejected + 1;
      }
      forall r | r !in reasons ensures ReasonCount(cs[..i], r) == 0 { AbsentReason(cs[..i], r); }
      reasons := AddReasons(reasons, cs[i].decision.reasons);
      truncated := truncated + cs[i].lowered.truncated;
    }
    assert cs[..|cs|] == cs;
  }

  lemma {:induction false} AbsentReason(cs: seq<PlanCandidate>, r: string)
    requires r !in ReasonsOf(cs)
    ensures ReasonCount(cs, r) == 0
  {
    if cs != [] { AbsentReason(cs[..|cs| - 1], r); }
  }

  /** `Counter.update`. */
  method AddReasons(before: map<string, nat>, reasons: seq<string>) returns (after: map<string, nat>)
    ensures after.Keys == before.Keys + Distinct(reasons)
    ensures forall r :: r in after ==> after[r] == (if r in before then before[r] else 0) + Occurrences(reasons, r)
  {
    after := before;
    for i := 0 to |reasons|
      invariant after.Keys == before.Keys + Distinct(reasons[..i])
      invariant forall r :: r in after ==> after[r] == (if r in before then before[r] else 0) + Occurrences(reasons[..i], r)
    {
      assert reasons[..i + 1] == reasons[..i] + [reasons[i]];
      DistinctSnoc(reasons[..i], reasons[i]);
      after := after[reasons[i] := (if reasons[i] in after then after[reasons[i]] else 0) + 1];
    }
    assert reasons[..|reasons|] == reasons;
  }

  method CountSkips(skips: seq<Skip>) returns (counts: map<string, nat>)
    ensures counts.Keys == SkipReasons(skips) && forall r :: r in counts ==> counts[r] == SkipCount(skips, r)
  {
    counts := map[];
    for i := 0 to |skips|
      invariant counts.Keys == SkipReasons(skips[..i]) && forall r :: r in counts ==> counts[r] == SkipCount(skips[..i], r)
    {
      assert skips[..i + 1][..i] == skips[..i];
      var reason := skips[i].reason;
      if reason !in counts { AbsentSkip(skips[..i], reason); }
      counts := counts[reason := (if reason in counts then counts[reason] else 0) + 1];
    }
    assert skips[..|skips|] == skips;
  }

  lemma {:induction false} AbsentSkip(skips: seq<Skip>, r: string)
    requires r !in SkipReasons(skips)
    ensures SkipCount(skips, r) == 0
  {
    if skips != [] { AbsentSkip(skips[..|skips| - 1], r); }
  }

  function Total(ds: seq<Diagnostic>): nat {
    if ds == [] then 0 else Total(ds[..|ds| - 1]) + ds[|ds| - 1].count
  }

  /** The counts by status add up to the candidates. */
  lemma {:induction false} StatusesAddUp(cs: seq<PlanCandidate>)
    ensures Total(StatusLines(cs)) == |cs| && StatusCount(cs, Eligible) + StatusCount(cs, Held) + StatusCount(cs, Rejected) == |cs|
  {
    if cs != [] { StatusesAddUp(cs[..|cs| - 1]); }
    var l := StatusLines(cs);
    assert l[..2][..1][..0] == [] && l[..2][..1] == l[..1];
    assert Total(l[..1]) == l[0].count && Total(l[..2]) == Total(l[..1]) + l[1].count;
  }

  /** The skips whose reason is one of these. */
  function SkipsAmong(skips: seq<Skip>, reasons: set<string>): nat {
    if skips == [] then 0 else SkipsAmong(skips[..|skips| - 1], reasons) + if skips[|skips| - 1].reason in reasons then 1 else 0
  }

  lemma {:induction false} AmongOneMore(skips: seq<Skip>, reasons: set<string>, r: string)
    requires r !in reasons
    ensures SkipsAmong(skips, reasons + {r}) == SkipsAmong(skips, reasons) + SkipCount(skips, r)
  {
    if skips != [] { AmongOneMore(skips[..|skips| - 1], reasons, r); }
  }

  lemma {:induction false} AmongNone(skips: seq<Skip>)
    ensures SkipsAmong(skips, {}) == 0
  {
    if skips != [] { AmongNone(skips[..|skips| - 1]); }
  }

  lemma {:induction false} AmongAll(skips: seq<Skip>, reasons: set<string>)
    requires SkipReasons(skips) <= reasons
    ensures SkipsAmong(skips, reasons) == |skips|
  {
    if skips != [] { AmongAll(skips[..|skips| - 1], reasons); }
  }

  lemma {:induction false} SkipLinesTotal(skips: seq<Skip>, reasons: seq<string>)
    requires forall i, j :: 0 <= i < j < |reasons| ==> reasons[i] != reasons[j]
    ensures Total(SkipLines(skips, reasons)) == SkipsAmong(skips, Distinct(reasons))
  {
    if reasons == [] {
      AmongNone(skips);
      assert Distinct(reasons) == {};
    } else {
      var n := |reasons| - 1;
      SkipLinesTotal(skips, reasons[..n]);
      AmongOneMore(skips, Distinct(reasons[..n]), reasons[n]);
      DistinctSnoc(reasons[..n], reasons[n]);
      assert reasons == reasons[..n] + [reasons[n]];
    }
  }

  /** The counts by skip reason add up to the skips. */
  lemma {:induction false} SkipsAddUp(skips: seq<Skip>)
    ensures Total(SkipLines(skips, SortedIds(SkipReasons(skips)))) == |skips|
  {
    var reasons := SortedIds(SkipReasons(skips));
    SkipLinesTotal(skips, reasons);
    AmongAll(skips, Distinct(reasons));
  }

  /** The counts of the diagnostics of one sort, added up. */
  function TotalOf(ds: seq<Diagnostic>, sort: Code -> bool): nat {
    if ds == [] then 0 else TotalOf(ds[..|ds| - 1], sort) + if sort(ds[|ds| - 1].code) then ds[|ds| - 1].count else 0
  }

  function OfStatus(): Code -> bool { (c: Code) => c.StatusCode? }
  function OfSkip(): Code -> bool { (c: Code) => c.SkippedCode? }

  lemma {:induction false} TotalConcat(a: seq<Diagnostic>, b: seq<Diagnostic>, sort: Code -> bool)
    ensures TotalOf(a + b, sort) == TotalOf(a, sort) + TotalOf(b, sort)
  {
    if b == [] {
      assert a + b == a;
    } else {
      assert (a + b)[..|a + b| - 1] == a + b[..|b| - 1];
      TotalConcat(a, b[..|b| - 1], sort);
    }
  }

  lemma {:induction false} TotalOfAll(ds: seq<Diagnostic>, sort: Code -> bool)
    ensures (forall d :: d in ds ==> sort(d.code)) ==> TotalOf(ds, sort) == Total(ds)
    ensures (forall d :: d in ds ==> !sort(d.code)) ==> TotalOf(ds, sort) == 0
  {
    if ds != [] {
      assert forall d :: d in ds[..|ds| - 1] ==> d in ds;
      TotalOfAll(ds[..|ds| - 1], sort);
    }
  }

  lemma {:induction false} LineCodes(cs: seq<PlanCandidate>, skips: seq<Skip>, reasons: seq<string>)
    ensures forall d :: d in ReasonLines(cs, reasons) ==> d.code.ReasonCode?
    ensures forall d :: d in SkipLines(skips, reasons) ==> d.code.SkippedCode?
  {
    if reasons != [] { LineCodes(cs, skips, reasons[..|reasons| - 1]); }
  }

  /** Among all of a plan's diagnostics, the counts by status add up to the candidates, and those by skip
      reason to the skips. */
  lemma {:induction false} DiagnosticsAddUp(cs: seq<PlanCandidate>, skips: seq<Skip>)
    ensures TotalOf(DiagnosticsOf(cs, skips), OfStatus()) == |cs| && TotalOf(DiagnosticsOf(cs, skips), OfSkip()) == |skips|
  {
    hide ReasonLines, SkipLines, StatusLines, Total, TotalOf, SortedIds, ReasonsOf, SkipReasons, TruncatedSum;
    var a, b, c, d := StatusLines(cs), ReasonLines(cs, SortedIds(ReasonsOf(cs))), SkipLines(skips, SortedIds(SkipReasons(skips))),
                      [Diagnostic(TruncatedCode, TruncatedSum(cs))];
    StatusCodes(cs);
    LineCodes(cs, skips, SortedIds(ReasonsOf(cs)));
    LineCodes(cs, skips, SortedIds(SkipReasons(skips)));
    SplitTotal(a, b, c, d, OfStatus());
    SplitTotal(a, b, c, d, OfSkip());
    StatusesAddUp(cs);
    SkipsAddUp(skips);
  }

  lemma {:induction false} StatusCodes(cs: seq<PlanCandidate>)
    ensures forall d :: d in StatusLines(cs) ==> d.code.StatusCode?
  {
  }

  lemma {:induction false} SplitTotal(a: seq<Diagnostic>, b: seq<Diagnostic>, c: seq<Diagnostic>, d: seq<Diagnostic>, sort: Code -> bool)
    ensures TotalOf(a + b + c + d, sort) == TotalOf(a, sort) + TotalOf(b, sort) + TotalOf(c, sort) + TotalOf(d, sort)
    ensures (forall x :: x in a ==> sort(x.code)) ==> TotalOf(a, sort) == Total(a)
    ensures (forall x :: x in c ==> sort(x.code)) ==> TotalOf(c, sort) == Total(c)
    ensures (forall x :: x in a ==> !sort(x.code)) ==> TotalOf(a, sort) == 0
    ensures (forall x :: x in b ==> !sort(x.code)) ==> TotalOf(b, sort) == 0
    ensures (forall x :: x in c ==> !sort(x.code)) ==> TotalOf(c, sort) == 0
    ensures (forall x :: x in d ==> !sort(x.code)) ==> TotalOf(d, sort) == 0
  {
    hide TotalOf, Total;
    TotalConcat(a + b + c, d, sort);
    TotalConcat(a + b, c, sort);
    TotalConcat(a, b, sort);
    TotalOfAll(a, sort);
    TotalOfAll(b, sort);
    TotalOfAll(c, sort);
    TotalOfAll(d, sort);
  }

  // ---- Building the plan ----

  datatype Plan = Plan(candidates: seq<PlanCandidate>, skipped: seq<Skip>, diagnostics: seq<Diagnostic>)

  datatype Batch = Batch(lowered: seq<PlanCandidate>, skipped: seq<Skip>)

  /** The records were lowered and skipped as their fates say, or the first that failed is reported. */
  ghost predicate Follows(fates: seq<Fate>, r: Result<Batch, Lowering.LoweringError>) {
    match FirstFailure(fates)
    case Some(error) => r == Err(error)
    case None => r == Ok(Batch(CandidatesIn(fates), SkipsIn(fates)))
  }

  lemma {:induction false} MoreFates(fates: seq<Fate>, fate: Fate)
    ensures CandidatesIn(fates + [fate]) == CandidatesIn(fates) + (if fate.Becomes? then [fate.candidate] else [])
    ensures SkipsIn(fates + [fate]) == SkipsIn(fates) + (if fate.SkippedAs? then [fate.skip] else [])
    ensures FirstFailure(fates + [fate]) ==
      if FirstFailure(fates).Some? then FirstFailure(fates) else if fate.Fails? then Some(fate.error) else None
  {
    assert (fates + [fate])[..|fates|] == fates;
  }

  lemma {:induction false} NoFates()
    ensures CandidatesIn([]) == [] && SkipsIn([]) == [] && FirstFailure([]) == None
  {
  }

  lemma {:induction false} FailureStays(fates: seq<Fate>, n: nat)
    requires n <= |fates| && FirstFailure(fates[..n]).Some?
    ensures FirstFailure(fates) == FirstFailure(fates[..n])
  {
    assert fates == fates[..n] + fates[n..];
    FatesSplit(fates[..n], fates[n..]);
  }

  /** The comprehensions over repositories and over capabilities. */
  method LowerEntities(s: Setting, kind: string, fields: set<string>, xs: seq<Entity>) returns (r: Result<Batch, Lowering.LoweringError>)
    requires s.Ready()
    ensures Follows(EntityFates(s, kind, fields, xs), r)
  {
    hide EntityFate, CandidatesIn, SkipsIn, FirstFailure, EntityFates;
    var lowered: seq<PlanCandidate>, skipped: seq<Skip> := [], [];
    ghost var fates := EntityFates(s, kind, fields, xs);
    NoFates();
    for i := 0 to |xs|
      invariant FirstFailure(fates[..i]) == None && lowered == CandidatesIn(fates[..i]) && skipped == SkipsIn(fates[..i])
    {
      EntityFateAt(s, kind, fields, xs, i);
      MoreFates(fates[..i], fates[i]);
      assert fates[..i + 1] == fates[..i] + [fates[i]];
      match EntityFate(s, kind, fields, xs[i]) {
        case Becomes(candidate) => lowered := lowered + [candidate];
        case SkippedAs(skip) => skipped := skipped + [skip];
        case Fails(error) =>
          FailureStays(fates, i + 1);
          return Err(error);
      }
    }
    assert fates[..|xs|] == fates;
    r := Ok(Batch(lowered, skipped));
  }

  lemma {:induction false} EntityFateAt(s: Setting, kind: string, fields: set<string>, xs: seq<Entity>, i: nat)
    requires s.Ready() && i < |xs|
    ensures EntityFates(s, kind, fields, xs)[i] == EntityFate(s, kind, fields, xs[i])
    decreases |xs|
  {
    hide EntityFate;
    if i < |xs| - 1 { EntityFateAt(s, kind, fields, xs[..|xs| - 1], i); }
  }

  lemma {:induction false} ClaimFateAt(s: Setting, xs: seq<Claim>, i: nat)
    requires s.Ready() && i < |xs|
    ensures ClaimFates(s, xs)[i] == ClaimFate(s, xs[i]) && !ClaimFates(s, xs)[i].Fails?
    decreases |xs|
  {
    ClaimNeverFails(s, xs[i]);
    hide ClaimFate;
    if i < |xs| - 1 { ClaimFateAt(s, xs[..|xs| - 1], i); }
  }

  lemma {:induction false} ClaimNeverFails(s: Setting, x: Claim)
    requires s.Ready()
    ensures !ClaimFate(s, x).Fails?
  {
    hide LowerClaim, ClaimSelection;
  }

  lemma {:induction false} EdgeFateAt(s: Setting, xs: seq<Edge>, i: nat)
    requires s.Ready() && i < |xs|
    ensures EdgeFates(s, xs)[i] == EdgeFate(s, xs[i])
    decreases |xs|
  {
    hide EdgeFate;
    if i < |xs| - 1 { EdgeFateAt(s, xs[..|xs| - 1], i); }
  }

  /** `_lower_claims`: a claim that cannot be lowered is skipped, never raised. */
  method LowerClaims(s: Setting, claims: seq<Claim>) returns (lowered: seq<PlanCandidate>, skipped: seq<Skip>)
    requires s.Ready()
    ensures Follows(ClaimFates(s, claims), Ok(Batch(lowered, skipped)))
  {
    hide CandidatesIn, SkipsIn, FirstFailure, ClaimFates, ClaimSelection, LowerClaim;
    lowered, skipped := [], [];
    ghost var fates := ClaimFates(s, claims);
    NoFates();
    for i := 0 to |claims|
      invariant FirstFailure(fates[..i]) == None && lowered == CandidatesIn(fates[..i]) && skipped == SkipsIn(fates[..i])
    {
      ClaimFateAt(s, claims, i);
      MoreFates(fates[..i], fates[i]);
      assert fates[..i + 1] == fates[..i] + [fates[i]];
      var record := claims[i];
      if "semantic_claim" !in s.settings.entityKinds {
        skipped := skipped + [Skip("claim", record.claimId, "policy.entity_kind_not_selected")];
        continue;
      }
      if ClaimSelection(s, record.predicat) == Some(false) {
        skipped := skipped + [
          Skip("claim", record.claimId, if record.predicat in s.index.registry.declarationOnly then "policy.declaration_only_claim_not_opted_in"
                                        else "policy.claim_predicate_not_selected")];
        continue;
      }
      match LowerClaim(s, record) {
        case Becomes(candidate) => lowered := lowered + [candidate];
        case Fails(_) => skipped := skipped + [Skip("claim", record.claimId, "claim.not_expressible_as_assertion")];
        case SkippedAs(skip) => skipped := skipped + [skip];
      }
    }
    assert fates[..|claims|] == fates;
  }

  /** `_lower_relationships`: qualification first under a strict policy, then selection. */
  method LowerRelationships(s: Setting, edges: seq<Edge>) returns (r: Result<Batch, Lowering.LoweringError>)
    requires s.Ready()
    ensures Follows(EdgeFates(s, edges), r)
  {
    hide CandidatesIn, SkipsIn, FirstFailure, EdgeFates, LowerEdge, ReasonText, TypeName;
    var lowered: seq<PlanCandidate>, skipped: seq<Skip> := [], [];
    ghost var fates := EdgeFates(s, edges);
    NoFates();
    for i := 0 to |edges|
      invariant FirstFailure(fates[..i]) == None && lowered == CandidatesIn(fates[..i]) && skipped == SkipsIn(fates[..i])
    {
      EdgeFateAt(s, edges, i);
      MoreFates(fates[..i], fates[i]);
      assert fates[..i + 1] == fates[..i] + [fates[i]];
      var edge := edges[i];
      var verdict := if s.settings.strict then Some(Qualification.Qualify(edge, s.index)) else None;
      if verdict.Some? && verdict.value.Unqualified? {
        skipped := skipped + [Skip("relationship", edge.edgeId, ReasonText(verdict.value.reason))];
        continue;
      }
      if TypeName(edge.edgeType) !in s.settings.edgeTypes {
        skipped := skipped + [Skip("relationship", edge.edgeId, "policy.edge_type_not_selected")];
        continue;
      }
      if verdict.None? && TargetLeftOpen(edge) {
        skipped := skipped + [Skip("relationship", edge.edgeId, "relation.work_target_not_exactly_resolved")];
        continue;
      }
      match LowerEdge(s, edge) {
        case Becomes(candidate) => lowered := lowered + [candidate];
        case SkippedAs(skip) => skipped := skipped + [skip];
        case Fails(error) =>
          FailureStays(fates, i + 1);
          return Err(error);
      }
    }
    assert fates[..|edges|] == fates;
    r := Ok(Batch(lowered, skipped));
  }

  function PlanOf(lowered: seq<PlanCandidate>, skipped: seq<Skip>): Plan {
    var candidates := SortBy(lowered, CandidateKey);
    // Sorting by identity and then, stably, by kind sorts by kind and then identity.
    var skips := SortBy(SortBy(skipped, SkipIdKey), SkipKindKey);
    Plan(candidates, skips, DiagnosticsOf(candidates, skips))
  }

  /** The records planned before artifacts are considered. */
  function FirstFates(s: Setting, state: State): seq<Fate>
    requires s.Ready()
  {
    EntityFates(s, "repository", REPOSITORY_FIELDS, state.repositories) + EntityFates(s, "capability", CAPABILITY_FIELDS, state.capabilities)
    + ClaimFates(s, state.claims)
  }

  /** The records that are never published. */
  function HeldFates(state: State): seq<Fate> {
    Withheld("relationship", "policy.candidate_domain_not_published", state.candidateRelations)
    + Withheld("entity", "policy.candidate_domain_not_published", state.candidateClusters)
    + Withheld("entity", "policy.readiness_evidence_not_published", state.readiness)
    + Withheld("entity", "policy.reasoning_candidate_not_published", state.reasoning)
  }

  /** One fate for every record, in the order they are planned. */
  function Fates(s: Setting, state: State): seq<Fate>
    requires s.Ready()
  {
    FirstFates(s, state) + Withheld("entity", "policy.entity_kind_not_selected", state.artifacts) + EdgeFates(s, state.edges) + HeldFates(state)
  }

  /** What planning yields: the plan of every record's fate, or the first thing that stops it. */
  function Planned(s: Setting, state: State): Result<Plan, PlanError>
    requires s.Ready()
  {
    var first, edges := FirstFailure(FirstFates(s, state)), FirstFailure(EdgeFates(s, state.edges));
    if s.settings.requireValidated && !s.validated then Err(TopologyNotValidated)
    else if first.Some? then Err(CannotLower(first.value))
    else if "artifact" in s.settings.entityKinds then Err(ArtifactUnsupported)
    else if edges.Some? then Err(CannotLower(edges.value))
    else Ok(PlanOf(CandidatesIn(Fates(s, state)), SkipsIn(Fates(s, state))))
  }

  lemma {:induction false} FirstFatesParts(s: Setting, state: State)
    requires s.Ready()
    ensures var a, b, c := EntityFates(s, "repository", REPOSITORY_FIELDS, state.repositories),
                           EntityFates(s, "capability", CAPABILITY_FIELDS, state.capabilities), ClaimFates(s, state.claims);
      var all := FirstFates(s, state);
      && CandidatesIn(all) == CandidatesIn(a) + CandidatesIn(b) + CandidatesIn(c) && SkipsIn(all) == SkipsIn(a) + SkipsIn(b) + SkipsIn(c)
      && FirstFailure(all) == (if FirstFailure(a).Some? then FirstFailure(a) else if FirstFailure(b).Some? then FirstFailure(b) else FirstFailure(c))
  {
    hide EntityFates, ClaimFates, CandidatesIn, SkipsIn, FirstFailure;
    var a, b, c := EntityFates(s, "repository", REPOSITORY_FIELDS, state.repositories),
                   EntityFates(s, "capability", CAPABILITY_FIELDS, state.capabilities), ClaimFates(s, state.claims);
    FatesSplit(a, b);
    FatesSplit(a + b, c);
  }

  lemma {:induction false} HeldFatesParts(state: State)
    ensures CandidatesIn(HeldFates(state)) == [] && FirstFailure(HeldFates(state)) == None
    ensures SkipsIn(HeldFates(state)) ==
      SkipsIn(Withheld("relationship", "policy.candidate_domain_not_published", state.candidateRelations))
      + SkipsIn(Withheld("entity", "policy.candidate_domain_not_published", state.candidateClusters))
      + SkipsIn(Withheld("entity", "policy.readiness_evidence_not_published", state.readiness))
      + SkipsIn(Withheld("entity", "policy.reasoning_candidate_not_published", state.reasoning))
  {
    hide Withheld, CandidatesIn, SkipsIn, FirstFailure;
    var a := Withheld("relationship", "policy.candidate_domain_not_published", state.candidateRelations);
    var b := Withheld("entity", "policy.candidate_domain_not_published", state.candidateClusters);
    var c := Withheld("entity", "policy.readiness_evidence_not_published", state.readiness);
    var d := Withheld("entity", "policy.reasoning_candidate_not_published", state.reasoning);
    FatesSplit(a, b);
    FatesSplit(a + b, c);
    FatesSplit(a + b + c, d);
    WithheldNeverLowers("relationship", "policy.candidate_domain_not_published", state.candidateRelations);
    WithheldNeverLowers("entity", "policy.candidate_domain_not_published", state.candidateClusters);
    WithheldNeverLowers("entity", "policy.readiness_evidence_not_published", state.readiness);
    WithheldNeverLowers("entity", "policy.reasoning_candidate_not_published", state.reasoning);
  }

  lemma {:induction false} FatesParts(s: Setting, state: State)
    requires s.Ready()
    ensures var a, b, c, d := FirstFates(s, state), Withheld("entity", "policy.entity_kind_not_selected", state.artifacts),
                              EdgeFates(s, state.edges), HeldFates(state);
      && CandidatesIn(Fates(s, state)) == CandidatesIn(a) + CandidatesIn(c)
      && SkipsIn(Fates(s, state)) == SkipsIn(a) + SkipsIn(b) + SkipsIn(c) + SkipsIn(d)
      && FirstFailure(Fates(s, state)) == (if FirstFailure(a).Some? then FirstFailure(a) else FirstFailure(c))
  {
    hide FirstFates, Withheld, EdgeFates, HeldFates, CandidatesIn, SkipsIn, FirstFailure;
    var a, b, c, d := FirstFates(s, state), Withheld("entity", "policy.entity_kind_not_selected", state.artifacts),
                      EdgeFates(s, state.edges), HeldFates(state);
    FatesSplit(a, b);
    FatesSplit(a + b, c);
    FatesSplit(a + b + c, d);
    WithheldNeverLowers("entity", "policy.entity_kind_not_selected", state.artifacts);
    HeldFatesParts(state);
  }

  /** The skips of records that are never published. */
  method SkipAll(kind: string, reason: string, ids: seq<string>) returns (skips: seq<Skip>)
    ensures skips == SkipsIn(Withheld(kind, reason, ids))
  {
    skips := [];
    for i := 0 to |ids|
      invariant skips == SkipsIn(Withheld(kind, reason, ids[..i]))
    {
      assert ids[..i + 1][..i] == ids[..i];
      assert Withheld(kind, reason, ids[..i + 1])[..i] == Withheld(kind, reason, ids[..i]);
      skips := skips + [Skip(kind, ids[i], reason)];
    }
    assert ids[..|ids|] == ids;
  }

  /** The skips of the domains that are never published. */
  method SkipHeld(state: State) returns (skips: seq<Skip>)
    ensures skips == SkipsIn(HeldFates(state))
  {
    hide Withheld, SkipsIn, HeldFates;
    HeldFatesParts(state);
    var a := SkipAll("relationship", "policy.candidate_domain_not_published", state.candidateRelations);
    var b := SkipAll("entity", "policy.candidate_domain_not_published", state.candidateClusters);
    var c := SkipAll("entity", "policy.readiness_evidence_not_published", state.readiness);
    var d := SkipAll("entity", "policy.reasoning_candidate_not_published", state.reasoning);
    skips := a + b + c + d;
  }

  /** Repositories, capabilities and claims. */
  method LowerFirst(s: Setting, state: State) returns (r: Result<Batch, Lowering.LoweringError>)
    requires s.Ready()
    ensures Follows(FirstFates(s, state), r)
  {
    hide FirstFates, EntityFates, ClaimFates, CandidatesIn, SkipsIn, FirstFailure;
    FirstFatesParts(s, state);
    var repositories := LowerEntities(s, "repository", REPOSITORY_FIELDS, state.repositories);
    if repositories.Err? { return repositories; }
    var capabilities := LowerEntities(s, "capability", CAPABILITY_FIELDS, state.capabilities);
    if capabilities.Err? { return capabilities; }
    var lowered, skipped := LowerClaims(s, state.claims);
    r := Ok(Batch(repositories.value.lowered + capabilities.value.lowered + lowered,
                  repositories.value.skipped + capabilities.value.skipped + skipped));
  }

  /** `build_publication_plan`. */
  method BuildPlan(s: Setting, state: State) returns (r: Result<Plan, PlanError>)
    requires s.Ready()
    ensures r == Planned(s, state)
  {
    hide FirstFates, EdgeFates, HeldFates, Withheld, CandidatesIn, SkipsIn, FirstFailure, Fates, DiagnosticsOf, SortBy;
    if s.settings.requireValidated && !s.validated { return Err(TopologyNotValidated); }
    FatesParts(s, state);
    var first := LowerFirst(s, state);
    if first.Err? { return Err(CannotLower(first.error)); }
    if "artifact" in s.settings.entityKinds { return Err(ArtifactUnsupported); }
    var artifacts := SkipAll("entity", "policy.entity_kind_not_selected", state.artifacts);
    var relationships := LowerRelationships(s, state.edges);
    if relationships.Err? { return Err(CannotLower(relationships.error)); }
    var held := SkipHeld(state);
    var candidates := SortBy(first.value.lowered + relationships.value.lowered, CandidateKey);
    var skips := SortBy(SortBy(first.value.skipped + artifacts + relationships.value.skipped + held, SkipIdKey), SkipKindKey);
    var diagnostics := Diagnose(candidates, skips);
    r := Ok(Plan(candidates, skips, diagnostics));
  }

  // ---- Accounting ----

  function Records(state: State): nat {
    |state.repositories| + |state.capabilities| + |state.claims| + |state.artifacts| + |state.edges| + |state.candidateRelations|
    + |state.candidateClusters| + |state.readiness| + |state.reasoning|
  }

  lemma {:induction false} FatesCount(fates: seq<Fate>)
    requires FirstFailure(fates) == None
    ensures |CandidatesIn(fates)| + |SkipsIn(fates)| == |fates|
  {
    if fates != [] { FatesCount(fates[..|fates| - 1]); }
  }

  lemma {:induction false} FateRecorded(fates: seq<Fate>, i: nat)
    requires FirstFailure(fates) == None && i < |fates|
    ensures match fates[i] case Becomes(c) => c in CandidatesIn(fates) case SkippedAs(k) => k in SkipsIn(fates) case Fails(_) => false
    decreases |fates|
  {
    if i < |fates| - 1 { FateRecorded(fates[..|fates| - 1], i); }
  }

  lemma {:induction false} CandidateHasFate(fates: seq<Fate>, c: PlanCandidate)
    requires c in CandidatesIn(fates)
    ensures exists i :: 0 <= i < |fates| && fates[i] == Becomes(c)
  {
    var n := |fates| - 1;
    if fates[n] != Becomes(c) {
      CandidateHasFate(fates[..n], c);
      var i :| 0 <= i < n && fates[..n][i] == Becomes(c);
      assert fates[i] == Becomes(c);
    }
  }

  lemma {:induction false} RecordsAreFates(s: Setting, state: State)
    requires s.Ready()
    ensures |Fates(s, state)| == Records(state)
  {
    hide EntityFates, ClaimFates, EdgeFates, Withheld;
  }

  /** When a plan is returned, every record is in it exactly once, as a candidate or as a skip; the counts by
      status add up to the candidates and those by skip reason to the skips. */
  lemma {:induction false} EveryRecordIsAccountedFor(s: Setting, state: State)
    requires s.Ready() && Planned(s, state).Ok?
    ensures var plan, fates := Planned(s, state).value, Fates(s, state);
      && |plan.candidates| + |plan.skipped| == Records(state) == |fates|
      && multiset(plan.candidates) == multiset(CandidatesIn(fates)) && multiset(plan.skipped) == multiset(SkipsIn(fates))
      && (forall i :: 0 <= i < |fates| ==>
            match fates[i] case Becomes(c) => c in plan.candidates case SkippedAs(k) => k in plan.skipped case Fails(_) => false)
      && TotalOf(plan.diagnostics, OfStatus()) == |plan.candidates| && TotalOf(plan.diagnostics, OfSkip()) == |plan.skipped|
  {
    hide FirstFates, EdgeFates, HeldFates, Withheld, CandidatesIn, SkipsIn, FirstFailure, Fates, DiagnosticsOf, SortBy, TotalOf;
    var plan, fates := Planned(s, state).value, Fates(s, state);
    FatesParts(s, state);
    FatesCount(fates);
    RecordsAreFates(s, state);
    DiagnosticsAddUp(plan.candidates, plan.skipped);
    forall i | 0 <= i < |fates|
      ensures match fates[i] case Becomes(c) => c in plan.candidates case SkippedAs(k) => k in plan.skipped case Fails(_) => false
    {
      FateRecorded(fates, i);
      match fates[i]
      case Becomes(c) => SameMembers(plan.candidates, CandidatesIn(fates), c);
      case SkippedAs(k) => SameMembers(plan.skipped, SkipsIn(fates), k);
      case Fails(_) =>
    }
  }

  // ---- Relationships under a strict policy ----

  lemma {:induction false} LoweredKind(s: Setting, request: Lowering.Request, fields: set<string>, unsupported: bool)
    requires request.kind in s.lowering.memoryClass
    ensures var fate := Lowered(s, request, fields, unsupported);
      fate.Becomes? ==> fate.candidate.lowered.kind == request.kind && fate.candidate.lowered.entityIds == request.entityIds
  {
    hide Decide, IdempotencyKey, CandidateId, Lowering.LowerEvidence, Lowering.ScoreOf, Lowering.NamespaceOf;
  }

  lemma {:induction false} EntityIsNoRelationship(s: Setting, kind: string, fields: set<string>, x: Entity)
    requires s.Ready()
    ensures var fate := EntityFate(s, kind, fields, x); fate.Becomes? ==> fate.candidate.lowered.kind == "entity"
  {
    hide Lowered;
    LoweredKind(s, Lowering.Request("entity", [x.id], x.content, None, x.assessment, x.refs), fields, false);
  }

  lemma {:induction false} ClaimIsNoRelationship(s: Setting, x: Claim)
    requires s.Ready()
    ensures var fate := ClaimFate(s, x); fate.Becomes? ==> fate.candidate.lowered.kind == "claim"
  {
    hide Lowered, ClaimSelection;
    var assertion := AssertionOf(x.subject, x.predicat, x.object_);
    LoweredKind(s, Lowering.Request("claim", [x.subject], s.claimProse(x), Some(assertion), x.confidence, x.evidenceRefs),
                {"subject_id", "predicate", "object", x.predicat}, x.support == Unsupported);
  }

  /** The edge's type is selected, and under a strict policy its own evidence qualifies it. */
  ghost predicate Admitted(s: Setting, e: Edge) {
    TypeName(e.edgeType) in s.settings.edgeTypes && if s.settings.strict then Qualification.IsQualified(e, s.index) else !TargetLeftOpen(e)
  }

  lemma {:induction false} EdgeBecomes(s: Setting, e: Edge)
    requires s.Ready()
    ensures var fate := EdgeFate(s, e); fate.Becomes? ==> Admitted(s, e) && fate.candidate.lowered.entityIds == [e.source, e.target]
  {
    hide Lowered, TypeName, ReasonText;
    var assertion := AssertionOf(e.source, TypeName(e.edgeType), e.target);
    LoweredKind(s, Lowering.Request("relationship", [e.source, e.target], s.edgeProse(e), Some(assertion), e.confidence, e.evidenceRefs), EDGE_FIELDS, false);
  }

  lemma {:induction false} FirstAreNoRelationships(s: Setting, state: State, i: nat)
    requires s.Ready() && i < |FirstFates(s, state)| && FirstFates(s, state)[i].Becomes?
    ensures FirstFates(s, state)[i].candidate.lowered.kind != "relationship"
  {
    hide EntityFates, ClaimFates, EntityFate, ClaimFate;
    assert "entity" != "relationship" && "claim" != "relationship";
    var a, b := |state.repositories|, |state.capabilities|;
    if i < a {
      EntityFateAt(s, "repository", REPOSITORY_FIELDS, state.repositories, i);
      EntityIsNoRelationship(s, "repository", REPOSITORY_FIELDS, state.repositories[i]);
    } else if i < a + b {
      EntityFateAt(s, "capability", CAPABILITY_FIELDS, state.capabilities, i - a);
      EntityIsNoRelationship(s, "capability", CAPABILITY_FIELDS, state.capabilities[i - a]);
    } else {
      ClaimFateAt(s, state.claims, i - a - b);
      ClaimIsNoRelationship(s, state.claims[i - a - b]);
    }
  }

  /** Every relationship candidate is what an edge of a selected type was lowered to; under a strict policy,
      one that its own evidence qualifies. */
  lemma {:induction false} RelationshipsAreAdmitted(s: Setting, state: State, c: PlanCandidate)
    requires s.Ready() && Planned(s, state).Ok? && c in Planned(s, state).value.candidates && c.lowered.kind == "relationship"
    ensures exists e :: e in state.edges && Admitted(s, e) && EdgeFate(s, e) == Becomes(c) && c.lowered.entityIds == [e.source, e.target]
  {
    hide FirstFates, EdgeFates, HeldFates, Withheld, CandidatesIn, SkipsIn, FirstFailure, Fates, DiagnosticsOf, SortBy, EdgeFate, Admitted;
    var plan := Planned(s, state).value;
    SameMembers(plan.candidates, CandidatesIn(Fates(s, state)), c);
    FatesParts(s, state);
    if c in CandidatesIn(FirstFates(s, state)) {
      CandidateHasFate(FirstFates(s, state), c);
      var i :| 0 <= i < |FirstFates(s, state)| && FirstFates(s, state)[i] == Becomes(c);
      FirstAreNoRelationships(s, state, i);
    } else {
      CandidateHasFate(EdgeFates(s, state.edges), c);
      var i :| 0 <= i < |EdgeFates(s, state.edges)| && EdgeFates(s, state.edges)[i] == Becomes(c);
      EdgeFateAt(s, state.edges, i);
      EdgeBecomes(s, state.edges[i]);
    }
  }
}
