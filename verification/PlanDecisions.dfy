/** Which records become candidates and what is decided about each, read off the record, the policy and the
    topology around it (publication/eligibility.py, publication/plan.py). */
module PlanDecisions {
  import opened Wrappers
  import opened Ordering
  import opened Domain
  import opened CanonicalHash
  import opened EffectIdentity
  import opened PublicationPlan
  import Reconciliation
  import ClaimEvidence
  import ClaimProjection
  import Lowering
  import LoweredWrites
  import Qualification
  import QualifiedRelations

  // ---- What stands against a fact ----

  /** A recorded conflict on one of these entities blocks, or is over one of these fields. */
  ghost predicate Contradicted(s: Setting, ids: seq<string>, fields: set<string>) {
    exists id, v :: id in ids && id in s.conflicts && v in s.conflicts[id] && (v.blocking || v.field in fields)
  }

  /** An unknown recorded for one of these entities is about all of it, or about one of these fields. */
  ghost predicate Undetermined(s: Setting, ids: seq<string>, fields: set<string>) {
    exists id, u :: id in ids && id in s.unknowns && u in s.unknowns[id] && (u.field == None || (u.field.Some? && u.field.value in fields))
  }

  /** The fact was inferred or aggregated, and none of the evidence it cites is known. */
  ghost predicate Unsupported(s: Setting, p: Lowering.Request) {
    && p.assessment.derivation in s.lowering.means
    && (s.lowering.means[p.assessment.derivation] == "inferred" || s.lowering.means[p.assessment.derivation] == "aggregated")
    && forall ref :: ref in p.refs ==> ref !in s.around.evidence
  }

  ghost predicate Rejects(s: Setting, p: Lowering.Request, reason: string) {
    || (reason == "lineage.missing_repository_model_packets" && s.settings.requireLineage && !s.hasLineage)
    || (reason == "lineage.unresolved_topology_entity" && s.settings.requireLineage && exists id :: id in p.entityIds && id !in s.known)
  }

  /** `undeclared`: no table declares the predicate the fact was claimed with. */
  ghost predicate Holds(s: Setting, p: Lowering.Request, fields: set<string>, undeclared: bool, reason: string) {
    || (reason == "conflict.unresolved_material" && s.settings.holdConflict && Contradicted(s, p.entityIds, fields))
    || (reason == "unknown.unresolved_material" && s.settings.holdUnknown && Undetermined(s, p.entityIds, fields))
    || (reason == "evidence.required_but_missing" && s.settings.holdMissing && Unsupported(s, p))
    || (reason == "predicate.unsupported_by_registry" && s.settings.holdUnsupported && undeclared)
  }

  /** The decision is the one the policy asks for, and it gives all its reasons and no others. */
  ghost predicate Judged(s: Setting, p: Lowering.Request, fields: set<string>, undeclared: bool, d: Decision) {
    && (d.status == Rejected <==> exists reason :: Rejects(s, p, reason))
    && (d.status == Held <==> !(exists reason :: Rejects(s, p, reason)) && exists reason :: Holds(s, p, fields, undeclared, reason))
    && (forall reason :: reason in d.reasons <==>
          match d.status
          case Rejected => Rejects(s, p, reason)
          case Held => Holds(s, p, fields, undeclared, reason)
          case Eligible => reason == "policy.admitted")
    && Ascending(d.reasons)
  }

  lemma {:induction false} ConflictsMean(s: Setting, fields: set<string>, ids: seq<string>)
    ensures MaterialConflict(s, fields, ids) <==> Contradicted(s, ids, fields)
  {
    if i :| 0 <= i < |ids| && ids[i] in s.conflicts && AnyMaterialConflict(s.conflicts[ids[i]], fields) {
      var j :| 0 <= j < |s.conflicts[ids[i]]| && (s.conflicts[ids[i]][j].blocking || s.conflicts[ids[i]][j].field in fields);
      assert ids[i] in ids && s.conflicts[ids[i]][j] in s.conflicts[ids[i]];
    }
    if id, v :| id in ids && id in s.conflicts && v in s.conflicts[id] && (v.blocking || v.field in fields) {
      var i :| 0 <= i < |ids| && ids[i] == id;
      var j :| 0 <= j < |s.conflicts[id]| && s.conflicts[id][j] == v;
    }
  }

  lemma {:induction false} UnknownsMean(s: Setting, fields: set<string>, ids: seq<string>)
    ensures MaterialUnknown(s, fields, ids) <==> Undetermined(s, ids, fields)
  {
    if i :| 0 <= i < |ids| && ids[i] in s.unknowns && AnyMaterialUnknown(s.unknowns[ids[i]], fields) {
      var j :| 0 <= j < |s.unknowns[ids[i]]| && (s.unknowns[ids[i]][j].field.None? || s.unknowns[ids[i]][j].field.value in fields);
      assert ids[i] in ids && s.unknowns[ids[i]][j] in s.unknowns[ids[i]];
    }
    if id, u :| id in ids && id in s.unknowns && u in s.unknowns[id] && (u.field == None || (u.field.Some? && u.field.value in fields)) {
      var i :| 0 <= i < |ids| && ids[i] == id;
      var j :| 0 <= j < |s.unknowns[id]| && s.unknowns[id][j] == u;
    }
  }

  lemma {:induction false} RejectionsMean(s: Setting, p: Lowering.Request, lowered: Lowering.LoweredCandidate, reason: string)
    requires lowered.entityIds == p.entityIds
    ensures Rejects(s, p, reason) <==> reason in Rejections(s, lowered)
  {
    if s.settings.requireLineage && exists id :: id in p.entityIds && id !in s.known {
      var id :| id in p.entityIds && id !in s.known;
      var i :| 0 <= i < |p.entityIds| && p.entityIds[i] == id;
    }
  }

  lemma {:induction false} HoldsMean(
      s: Setting, p: Lowering.Request, fields: set<string>, undeclared: bool, lowered: Lowering.LoweredCandidate, reason: string)
    requires lowered.entityIds == p.entityIds && p.assessment.derivation in s.lowering.means
    requires lowered.write.confidence.means == s.lowering.means[p.assessment.derivation]
    requires lowered.resolvedIds == [] <==> forall ref :: ref in p.refs ==> ref !in s.around.evidence
    ensures Holds(s, p, fields, undeclared, reason) <==> reason in Reservations(s, lowered, fields, undeclared)
  {
    hide MaterialConflict, MaterialUnknown, Contradicted, Undetermined;
    ConflictsMean(s, fields, p.entityIds);
    UnknownsMean(s, fields, p.entityIds);
  }

  lemma {:induction false} Decides(
      s: Setting, p: Lowering.Request, fields: set<string>, undeclared: bool, lowered: Lowering.LoweredCandidate)
    requires lowered.entityIds == p.entityIds && p.assessment.derivation in s.lowering.means
    requires lowered.write.confidence.means == s.lowering.means[p.assessment.derivation]
    requires lowered.resolvedIds == [] <==> forall ref :: ref in p.refs ==> ref !in s.around.evidence
    ensures Judged(s, p, fields, undeclared, Decide(s, lowered, fields, undeclared))
  {
    hide Rejects, Holds, Rejections, Reservations;
    var rejections, holds := Rejections(s, lowered), Reservations(s, lowered, fields, undeclared);
    forall reason ensures Rejects(s, p, reason) <==> reason in rejections { RejectionsMean(s, p, lowered, reason); }
    forall reason ensures Holds(s, p, fields, undeclared, reason) <==> reason in holds { HoldsMean(s, p, fields, undeclared, lowered, reason); }
    JudgedFrom(s, p, fields, undeclared, rejections, holds, Decide(s, lowered, fields, undeclared));
  }

  lemma {:induction false} JudgedFrom(
      s: Setting, p: Lowering.Request, fields: set<string>, undeclared: bool, rejections: set<string>, holds: set<string>, d: Decision)
    requires forall reason :: Rejects(s, p, reason) <==> reason in rejections
    requires forall reason :: Holds(s, p, fields, undeclared, reason) <==> reason in holds
    requires d == if rejections != {} then Decision(Rejected, SortedIds(rejections))
                  else if holds != {} then Decision(Held, SortedIds(holds)) else Decision(Eligible, ["policy.admitted"])
    ensures Judged(s, p, fields, undeclared, d)
  {
    hide Rejects, Holds, Ascending, SortedIds;
    AnyRejects(s, p, rejections);
    AnyHolds(s, p, fields, undeclared, holds);
    OneAscends("policy.admitted");
  }

  lemma {:induction false} OneAscends(id: string)
    ensures Ascending([id])
  {
  }

  lemma {:induction false} AnyRejects(s: Setting, p: Lowering.Request, reasons: set<string>)
    requires forall reason :: Rejects(s, p, reason) <==> reason in reasons
    ensures (exists reason :: Rejects(s, p, reason)) <==> reasons != {}
  {
    hide Rejects;
    if reasons != {} {
      var reason :| reason in reasons;
      assert Rejects(s, p, reason);
    }
  }

  lemma {:induction false} AnyHolds(s: Setting, p: Lowering.Request, fields: set<string>, undeclared: bool, reasons: set<string>)
    requires forall reason :: Holds(s, p, fields, undeclared, reason) <==> reason in reasons
    ensures (exists reason :: Holds(s, p, fields, undeclared, reason)) <==> reasons != {}
  {
    hide Holds;
    if reasons != {} {
      var reason :| reason in reasons;
      assert Holds(s, p, fields, undeclared, reason);
    }
  }

  /** A fact is eligible exactly when, in what the policy asks for, its lineage is there, its entities are known,
      no conflict and no unknown bears on it, the evidence it needs is known and its predicate is declared. */
  lemma {:induction false} EligibleExactlyWhen(s: Setting, p: Lowering.Request, fields: set<string>, undeclared: bool, d: Decision)
    requires Judged(s, p, fields, undeclared, d)
    ensures d.status == Eligible <==>
      && (s.settings.requireLineage ==> s.hasLineage && forall id :: id in p.entityIds ==> id in s.known)
      && (s.settings.holdConflict ==> !Contradicted(s, p.entityIds, fields)) && (s.settings.holdUnknown ==> !Undetermined(s, p.entityIds, fields))
      && (s.settings.holdMissing ==> !Unsupported(s, p)) && (s.settings.holdUnsupported ==> !undeclared)
  {
    hide Rejects, Holds, Contradicted, Undetermined, Unsupported;
    RejectedExactlyWhen(s, p);
    HeldExactlyWhen(s, p, fields, undeclared);
  }

  lemma {:induction false} RejectedExactlyWhen(s: Setting, p: Lowering.Request)
    ensures (exists reason :: Rejects(s, p, reason)) <==>
      s.settings.requireLineage && (!s.hasLineage || exists id :: id in p.entityIds && id !in s.known)
  {
    assert Rejects(s, p, "lineage.missing_repository_model_packets") <== s.settings.requireLineage && !s.hasLineage;
    assert Rejects(s, p, "lineage.unresolved_topology_entity") <== s.settings.requireLineage && exists id :: id in p.entityIds && id !in s.known;
  }

  lemma {:induction false} HeldExactlyWhen(s: Setting, p: Lowering.Request, fields: set<string>, undeclared: bool)
    ensures (exists reason :: Holds(s, p, fields, undeclared, reason)) <==>
      || (s.settings.holdConflict && Contradicted(s, p.entityIds, fields)) || (s.settings.holdUnknown && Undetermined(s, p.entityIds, fields))
      || (s.settings.holdMissing && Unsupported(s, p)) || (s.settings.holdUnsupported && undeclared)
  {
    hide Contradicted, Undetermined, Unsupported;
    assert Holds(s, p, fields, undeclared, "conflict.unresolved_material") <== s.settings.holdConflict && Contradicted(s, p.entityIds, fields);
    assert Holds(s, p, fields, undeclared, "unknown.unresolved_material") <== s.settings.holdUnknown && Undetermined(s, p.entityIds, fields);
    assert Holds(s, p, fields, undeclared, "evidence.required_but_missing") <== s.settings.holdMissing && Unsupported(s, p);
    assert Holds(s, p, fields, undeclared, "predicate.unsupported_by_registry") <== s.settings.holdUnsupported && undeclared;
  }

  // ---- What a candidate is ----

  /** The candidate states what was asked, and is judged as the policy asks. */
  ghost predicate Answers(s: Setting, p: Lowering.Request, fields: set<string>, undeclared: bool, c: PlanCandidate) {
    && c.lowered.kind == c.lowered.write.fact.kind == p.kind && c.lowered.entityIds == p.entityIds
    && c.lowered.write.fact.content == p.content && c.lowered.write.fact.assertion == p.assertion
    && Judged(s, p, fields, undeclared, c.decision)
  }

  lemma {:induction false} LoweredAnswers(s: Setting, p: Lowering.Request, fields: set<string>, undeclared: bool)
    requires p.kind in s.lowering.memoryClass
    ensures var fate := Lowered(s, p, fields, undeclared);
      && (fate.Becomes? <==> LoweredWrites.Lowerable(s.lowering, s.around, p)) && !fate.SkippedAs?
      && (fate.Becomes? ==> Answers(s, p, fields, undeclared, fate.candidate))
  {
    hide Lowering.Build, Decide, LoweredWrites.Lowerable, Judged;
    LoweredWrites.LoweredExactlyWhen(s.codec, s.lowering, s.around, p);
    var fate := Lowered(s, p, fields, undeclared);
    if fate.Becomes? {
      LoweredWrites.WriteStatesItsRequest(s.codec, s.lowering, s.around, p);
      LoweredWrites.NamesEvidenceExactlyWhen(s.codec, s.lowering, s.around, p);
      NoneKnown(s.around.evidence, p.refs);
      Decides(s, p, fields, undeclared, fate.candidate.lowered);
    }
  }

  lemma {:induction false} NoneKnown(evidence: map<string, Lowering.Support>, refs: seq<string>)
    ensures LoweredWrites.KnownRefs(evidence, refs) == {} <==> forall ref :: ref in refs ==> ref !in evidence
  {
    forall ref ensures ref in LoweredWrites.KnownRefs(evidence, refs) <==> ref in refs && ref in evidence {
    }
  }

  // ---- What is asked of each record ----

  function EntityRequest(x: Entity): Lowering.Request { Lowering.Request("entity", [x.id], x.content, None, x.assessment, x.refs) }

  /** A text as it fits into an assertion. */
  function Fitted(text: string, limit: nat): string { if |text| <= limit then text else text[..limit] }

  function ClaimRequest(s: Setting, x: Claim): Lowering.Request {
    Lowering.Request(
      "claim", [x.subject], s.claimProse(x), Some(Assertion(Fitted(x.subject, 500), Fitted(x.predicat, 200), Fitted(x.object_, 2000))), x.confidence,
      x.evidenceRefs)
  }

  function EdgeRequest(s: Setting, e: Edge): Lowering.Request {
    Lowering.Request(
      "relationship", [e.source, e.target], s.edgeProse(e),
      Some(Assertion(Fitted(e.source, 500), Fitted(TypeName(e.edgeType), 200), Fitted(e.target, 2000))), e.confidence, e.evidenceRefs)
  }

  ghost predicate StandsForRepository(s: Setting, x: Entity, c: PlanCandidate) {
    && "repository" in s.settings.entityKinds
    && Answers(s, EntityRequest(x), {"name", "repository_id", "primary_role", "source_revision", "languages", "package_managers"}, false, c)
  }

  ghost predicate StandsForCapability(s: Setting, x: Entity, c: PlanCandidate) {
    && "capability" in s.settings.entityKinds
    && Answers(s, EntityRequest(x), {"capability_id", "name", "description", "implemented_by", "exposed_by"}, false, c)
  }

  /** The policy selects claims, and this one's predicate: every predicate unless it is selective, and otherwise
      those it names, or names as declarations, among the predicates the tables declare. */
  ghost predicate ClaimSelected(s: Setting, x: Claim) {
    && "semantic_claim" in s.settings.entityKinds
    && (!s.settings.selective || Undeclared(s, x.predicat)
        || (x.predicat !in s.index.registry.declarationOnly && x.predicat in s.settings.claimPredicates)
        || (x.predicat in s.index.registry.declarationOnly && x.predicat in s.settings.declarationPredicates))
  }

  /** No table declares the predicate, so that selection has no say and the claim is held instead. */
  ghost predicate Undeclared(s: Setting, p: string) {
    p !in s.index.registry.many && p !in s.index.registry.single && p !in s.index.registry.auxiliary
  }

  ghost predicate StandsForClaim(s: Setting, x: Claim, c: PlanCandidate) {
    && ClaimSelected(s, x)
    && Answers(s, ClaimRequest(s, x), {"subject_id", "predicate", "object", x.predicat}, x.support == Domain.Unsupported, c)
  }

  /** The policy selects the edge's type; strictly, its own evidence qualifies it; and its target is not known to
      be anything but one artifact. */
  ghost predicate EdgeSelected(s: Setting, e: Edge) {
    && TypeName(e.edgeType) in s.settings.edgeTypes
    && (s.settings.strict ==> Qualification.IsQualified(e, s.index))
    && ("target_resolution" in e.properties ==> e.properties["target_resolution"] == Word("exact-artifact"))
  }

  ghost predicate StandsForEdge(s: Setting, e: Edge, c: PlanCandidate) {
    && EdgeSelected(s, e) && Answers(s, EdgeRequest(s, e), {"source_id", "edge_type", "target_id", "direction"}, false, c)
  }

  // ---- The fate of each record ----

  lemma {:induction false} RepositoryFateMeans(s: Setting, x: Entity)
    requires s.Ready()
    ensures var fate := EntityFate(s, "repository", REPOSITORY_FIELDS, x);
      && (fate.Becomes? <==> "repository" in s.settings.entityKinds && LoweredWrites.Lowerable(s.lowering, s.around, EntityRequest(x)))
      && (fate.SkippedAs? <==> "repository" !in s.settings.entityKinds)
      && (fate.Becomes? ==> StandsForRepository(s, x, fate.candidate))
  {
    hide Lowered, Answers, LoweredWrites.Lowerable;
    LoweredAnswers(s, EntityRequest(x), REPOSITORY_FIELDS, false);
  }

  lemma {:induction false} CapabilityFateMeans(s: Setting, x: Entity)
    requires s.Ready()
    ensures var fate := EntityFate(s, "capability", CAPABILITY_FIELDS, x);
      && (fate.Becomes? <==> "capability" in s.settings.entityKinds && LoweredWrites.Lowerable(s.lowering, s.around, EntityRequest(x)))
      && (fate.SkippedAs? <==> "capability" !in s.settings.entityKinds)
      && (fate.Becomes? ==> StandsForCapability(s, x, fate.candidate))
  {
    hide Lowered, Answers, LoweredWrites.Lowerable;
    LoweredAnswers(s, EntityRequest(x), CAPABILITY_FIELDS, false);
  }

  lemma {:induction false} SelectionMeans(s: Setting, x: Claim)
    ensures ClaimSelected(s, x) <==> "semantic_claim" in s.settings.entityKinds && ClaimSelection(s, x.predicat) != Some(false)
  {
  }

  /** A claim becomes a candidate exactly when it is selected, has a subject, a predicate and an object, and the
      policy can answer for it; otherwise it is skipped, with the first reason that applies. */
  lemma {:induction false} ClaimFateMeans(s: Setting, x: Claim)
    requires s.Ready()
    ensures var fate, stated := ClaimFate(s, x), x.subject != "" && x.predicat != "" && x.object_ != "";
      && (fate.Becomes? <==> ClaimSelected(s, x) && stated && LoweredWrites.Lowerable(s.lowering, s.around, ClaimRequest(s, x)))
      && (fate.Becomes? ==> StandsForClaim(s, x, fate.candidate))
      && (!fate.Becomes? ==>
            fate == SkippedAs(Skip("claim", x.claimId,
              if "semantic_claim" !in s.settings.entityKinds then "policy.entity_kind_not_selected"
              else if ClaimSelected(s, x) then "claim.not_expressible_as_assertion"
              else if x.predicat in s.index.registry.declarationOnly then "policy.declaration_only_claim_not_opted_in"
              else "policy.claim_predicate_not_selected")))
  {
    hide Lowered, Answers, LoweredWrites.Lowerable, ClaimSelection, ClaimSelected;
    SelectionMeans(s, x);
    LoweredAnswers(s, ClaimRequest(s, x), {"subject_id", "predicate", "object", x.predicat}, x.support == Domain.Unsupported);
  }

  /** An edge becomes a candidate exactly when it is selected, has both ends and the policy can answer for it. */
  lemma {:induction false} EdgeFateMeans(s: Setting, e: Edge)
    requires s.Ready()
    ensures var fate, stated := EdgeFate(s, e), e.source != "" && e.target != "";
      && (fate.Becomes? <==> EdgeSelected(s, e) && stated && LoweredWrites.Lowerable(s.lowering, s.around, EdgeRequest(s, e)))
      && (fate.SkippedAs? <==> !EdgeSelected(s, e))
      && (fate.Becomes? ==> StandsForEdge(s, e, fate.candidate))
      && (fate.SkippedAs? ==>
            fate == SkippedAs(Skip("relationship", e.edgeId,
              if s.settings.strict && !Qualification.IsQualified(e, s.index) then ReasonText(Qualification.Qualify(e, s.index).reason)
              else if TypeName(e.edgeType) !in s.settings.edgeTypes then "policy.edge_type_not_selected"
              else "relation.work_target_not_exactly_resolved")))
  {
    hide Lowered, Answers, LoweredWrites.Lowerable, Qualification.Qualify, TypeName, ReasonText;
    TypesAreNamed(e.edgeType);
    if s.settings.strict && Qualification.IsQualified(e, s.index) && "target_resolution" in e.properties {
      QualifiedRelations.QualifiedTargetIsExact(e, s.index);
    }
    LoweredAnswers(s, EdgeRequest(s, e), EDGE_FIELDS, false);
  }

  lemma {:induction false} TypesAreNamed(t: EdgeType)
    ensures TypeName(t) != "" && |TypeName(t)| <= 200
  {
  }

  // ---- The plan ----

  ghost predicate StandsForSome(s: Setting, state: State, c: PlanCandidate) {
    || (exists x :: x in state.repositories && StandsForRepository(s, x, c)) || (exists x :: x in state.capabilities && StandsForCapability(s, x, c))
    || (exists x :: x in state.claims && StandsForClaim(s, x, c)) || (exists e :: e in state.edges && StandsForEdge(s, e, c))
  }

  lemma {:induction false} FirstStandsForSome(s: Setting, state: State, i: nat)
    requires s.Ready() && i < |FirstFates(s, state)| && FirstFates(s, state)[i].Becomes?
    ensures StandsForSome(s, state, FirstFates(s, state)[i].candidate)
  {
    hide EntityFates, ClaimFates, EntityFate, ClaimFate, StandsForRepository, StandsForCapability, StandsForClaim, StandsForEdge;
    var a, b := |state.repositories|, |state.capabilities|;
    if i < a {
      EntityFateAt(s, "repository", REPOSITORY_FIELDS, state.repositories, i);
      RepositoryFateMeans(s, state.repositories[i]);
    } else if i < a + b {
      EntityFateAt(s, "capability", CAPABILITY_FIELDS, state.capabilities, i - a);
      CapabilityFateMeans(s, state.capabilities[i - a]);
    } else {
      ClaimFateAt(s, state.claims, i - a - b);
      ClaimFateMeans(s, state.claims[i - a - b]);
    }
  }

  lemma {:induction false} LaterStandsForSome(s: Setting, state: State, i: nat)
    requires s.Ready() && i < |state.edges| && EdgeFates(s, state.edges)[i].Becomes?
    ensures StandsForSome(s, state, EdgeFates(s, state.edges)[i].candidate)
  {
    hide EdgeFates, EdgeFate, StandsForRepository, StandsForCapability, StandsForClaim, StandsForEdge;
    EdgeFateAt(s, state.edges, i);
    EdgeFateMeans(s, state.edges[i]);
  }

  /** Every candidate of a plan stands for a record the policy selects, and is judged with exactly the reasons
      the policy has for it. */
  lemma {:induction false} CandidatesAreJudged(s: Setting, state: State, c: PlanCandidate)
    requires s.Ready() && Planned(s, state).Ok? && c in Planned(s, state).value.candidates
    ensures StandsForSome(s, state, c)
  {
    hide FirstFates, EdgeFates, HeldFates, Withheld, CandidatesIn, SkipsIn, FirstFailure, Fates, DiagnosticsOf, SortBy, StandsForSome;
    var plan := Planned(s, state).value;
    SameMembers(plan.candidates, CandidatesIn(Fates(s, state)), c);
    FatesParts(s, state);
    if c in CandidatesIn(FirstFates(s, state)) {
      CandidateHasFate(FirstFates(s, state), c);
      var i :| 0 <= i < |FirstFates(s, state)| && FirstFates(s, state)[i] == Becomes(c);
      FirstStandsForSome(s, state, i);
    } else {
      CandidateHasFate(EdgeFates(s, state.edges), c);
      var i :| 0 <= i < |EdgeFates(s, state.edges)| && EdgeFates(s, state.edges)[i] == Becomes(c);
      LaterStandsForSome(s, state, i);
    }
  }

  /** The kinds of candidate are told apart, so a claim or an edge is behind each of its kind. */
  lemma {:induction false} KindsStandFor(s: Setting, state: State, c: PlanCandidate)
    requires StandsForSome(s, state, c)
    ensures c.lowered.kind == "claim" ==> exists x :: x in state.claims && StandsForClaim(s, x, c)
    ensures c.lowered.kind == "relationship" ==> exists e :: e in state.edges && StandsForEdge(s, e, c)
  {
    hide Judged, ClaimSelected, EdgeSelected, TypeName, Fitted;
    assert "entity"[0] == 'e' && "claim"[0] == 'c' && "relationship"[0] == 'r';
  }

  /** Under a strict policy the edge's own evidence proves it; and its target is exact, where it says so at all. */
  ghost predicate ProvedIfStrict(s: Setting, e: Edge) {
    && (s.settings.strict ==> QualifiedRelations.Grounded(e, s.index) && QualifiedRelations.Proved(e, s.index))
    && ("target_resolution" in e.properties ==> e.properties["target_resolution"] == Word("exact-artifact"))
  }

  /** Under a strict policy every relationship of a plan is proved by the evidence of an edge; strict or not,
      none has a target that is known to be anything but one artifact. */
  lemma {:induction false} RelationshipsAreProved(s: Setting, state: State, c: PlanCandidate)
    requires s.Ready() && Planned(s, state).Ok? && c in Planned(s, state).value.candidates && c.lowered.kind == "relationship"
    ensures exists e :: e in state.edges && StandsForEdge(s, e, c) && ProvedIfStrict(s, e)
  {
    hide Planned, StandsForSome, Answers, TypeName, Qualification.IsQualified, QualifiedRelations.Grounded, QualifiedRelations.Proved;
    CandidatesAreJudged(s, state, c);
    KindsStandFor(s, state, c);
    var e :| e in state.edges && StandsForEdge(s, e, c);
    QualifiedRelations.QualifiedExactlyWhen(e, s.index);
  }

  // ---- When there is a plan ----

  ghost predicate EntitiesPlannable(s: Setting, kind: string, xs: seq<Entity>) {
    kind in s.settings.entityKinds ==> forall x :: x in xs ==> LoweredWrites.Lowerable(s.lowering, s.around, EntityRequest(x))
  }

  ghost predicate EdgesPlannable(s: Setting, xs: seq<Edge>) {
    forall e :: e in xs && EdgeSelected(s, e) ==>
      e.source != "" && e.target != "" && LoweredWrites.Lowerable(s.lowering, s.around, EdgeRequest(s, e))
  }

  lemma {:induction false} NoFailureMeans(fates: seq<Fate>)
    ensures FirstFailure(fates) == None <==> forall i :: 0 <= i < |fates| ==> !fates[i].Fails?
  {
    if fates != [] {
      var n := |fates| - 1;
      NoFailureMeans(fates[..n]);
      assert forall i :: 0 <= i < n ==> fates[..n][i] == fates[i];
    }
  }

  lemma {:induction false} RepositoriesFail(s: Setting, xs: seq<Entity>)
    requires s.Ready()
    ensures FirstFailure(EntityFates(s, "repository", REPOSITORY_FIELDS, xs)) == None <==> EntitiesPlannable(s, "repository", xs)
  {
    hide EntityFates, EntityFate, FirstFailure, LoweredWrites.Lowerable, StandsForRepository, EntityRequest;
    var fates := EntityFates(s, "repository", REPOSITORY_FIELDS, xs);
    NoFailureMeans(fates);
    forall i | 0 <= i < |xs|
      ensures fates[i].Fails? <==> "repository" in s.settings.entityKinds && !LoweredWrites.Lowerable(s.lowering, s.around, EntityRequest(xs[i]))
    {
      EntityFateAt(s, "repository", REPOSITORY_FIELDS, xs, i);
      RepositoryFateMeans(s, xs[i]);
    }
  }

  lemma {:induction false} CapabilitiesFail(s: Setting, xs: seq<Entity>)
    requires s.Ready()
    ensures FirstFailure(EntityFates(s, "capability", CAPABILITY_FIELDS, xs)) == None <==> EntitiesPlannable(s, "capability", xs)
  {
    hide EntityFates, EntityFate, FirstFailure, LoweredWrites.Lowerable, StandsForCapability, EntityRequest;
    var fates := EntityFates(s, "capability", CAPABILITY_FIELDS, xs);
    NoFailureMeans(fates);
    forall i | 0 <= i < |xs|
      ensures fates[i].Fails? <==> "capability" in s.settings.entityKinds && !LoweredWrites.Lowerable(s.lowering, s.around, EntityRequest(xs[i]))
    {
      EntityFateAt(s, "capability", CAPABILITY_FIELDS, xs, i);
      CapabilityFateMeans(s, xs[i]);
    }
  }

  lemma {:induction false} ClaimsNeverFail(s: Setting, xs: seq<Claim>)
    requires s.Ready()
    ensures FirstFailure(ClaimFates(s, xs)) == None
  {
    hide ClaimFates, ClaimFate, FirstFailure;
    NoFailureMeans(ClaimFates(s, xs));
    forall i | 0 <= i < |xs| ensures !ClaimFates(s, xs)[i].Fails? { ClaimFateAt(s, xs, i); }
  }

  lemma {:induction false} EdgesFail(s: Setting, xs: seq<Edge>)
    requires s.Ready()
    ensures FirstFailure(EdgeFates(s, xs)) == None <==> EdgesPlannable(s, xs)
  {
    hide EdgeFates, EdgeFate, FirstFailure, LoweredWrites.Lowerable, StandsForEdge, EdgeRequest, EdgeSelected;
    var fates := EdgeFates(s, xs);
    NoFailureMeans(fates);
    forall i | 0 <= i < |xs|
      ensures fates[i].Fails? <==>
        EdgeSelected(s, xs[i]) && !(xs[i].source != "" && xs[i].target != "" && LoweredWrites.Lowerable(s.lowering, s.around, EdgeRequest(s, xs[i])))
    {
      EdgeFateAt(s, xs, i);
      EdgeFateMeans(s, xs[i]);
    }
  }

  /** There is a plan exactly when the topology is validated if it has to be, artifacts are not asked for, and
      the policy can answer for every selected entity and edge; no claim ever stops a plan. */
  lemma {:induction false} PlannedExactlyWhen(s: Setting, state: State)
    requires s.Ready()
    ensures Planned(s, state).Ok? <==>
      && (s.settings.requireValidated ==> s.validated) && "artifact" !in s.settings.entityKinds
      && EntitiesPlannable(s, "repository", state.repositories) && EntitiesPlannable(s, "capability", state.capabilities)
      && EdgesPlannable(s, state.edges)
  {
    hide FirstFates, EntityFates, ClaimFates, EdgeFates, CandidatesIn, SkipsIn, FirstFailure, Fates, EntitiesPlannable, EdgesPlannable;
    FirstFatesParts(s, state);
    RepositoriesFail(s, state.repositories);
    CapabilitiesFail(s, state.capabilities);
    ClaimsNeverFail(s, state.claims);
    EdgesFail(s, state.edges);
  }

  // ---- What a plan skips ----

  /** Why a claim does not become a candidate: the first reason that applies. */
  function ClaimReason(s: Setting, x: Claim): string {
    if "semantic_claim" !in s.settings.entityKinds then "policy.entity_kind_not_selected"
    else if ClaimSelection(s, x.predicat) != Some(false) then "claim.not_expressible_as_assertion"
    else if x.predicat in s.index.registry.declarationOnly then "policy.declaration_only_claim_not_opted_in"
    else "policy.claim_predicate_not_selected"
  }

  function EdgeReason(s: Setting, e: Edge): string {
    if s.settings.strict && Qualification.Qualify(e, s.index).Unqualified? then ReasonText(Qualification.Qualify(e, s.index).reason)
    else if TypeName(e.edgeType) !in s.settings.edgeTypes then "policy.edge_type_not_selected"
    else "relation.work_target_not_exactly_resolved"
  }

  ghost predicate ClaimExpressed(s: Setting, x: Claim) {
    ClaimSelected(s, x) && x.subject != "" && x.predicat != "" && x.object_ != "" && LoweredWrites.Lowerable(s.lowering, s.around, ClaimRequest(s, x))
  }

  ghost predicate SkipsClaim(s: Setting, state: State, k: Skip) {
    exists x :: x in state.claims && !ClaimExpressed(s, x) && k == Skip("claim", x.claimId, ClaimReason(s, x))
  }

  ghost predicate SkipsEdge(s: Setting, state: State, k: Skip) {
    exists e :: e in state.edges && !EdgeSelected(s, e) && k == Skip("relationship", e.edgeId, EdgeReason(s, e))
  }

  ghost predicate SkipsEntity(s: Setting, kind: string, xs: seq<Entity>, k: Skip) {
    kind !in s.settings.entityKinds && exists x :: x in xs && k == Skip("entity", x.id, "policy.entity_kind_not_selected")
  }

  /** The record is of a domain that is never published. */
  ghost predicate SkipsHeld(state: State, k: Skip) {
    || (k.kind == "relationship" && k.id in state.candidateRelations && k.reason == "policy.candidate_domain_not_published")
    || (k.kind == "entity" && k.id in state.candidateClusters && k.reason == "policy.candidate_domain_not_published")
    || (k.kind == "entity" && k.id in state.readiness && k.reason == "policy.readiness_evidence_not_published")
    || (k.kind == "entity" && k.id in state.reasoning && k.reason == "policy.reasoning_candidate_not_published")
    || (k.kind == "entity" && k.id in state.artifacts && k.reason == "policy.entity_kind_not_selected")
  }

  lemma {:induction false} SkipsMembers(fates: seq<Fate>, k: Skip)
    ensures k in SkipsIn(fates) <==> exists i :: 0 <= i < |fates| && fates[i] == SkippedAs(k)
  {
    if fates != [] {
      var n := |fates| - 1;
      SkipsMembers(fates[..n], k);
      assert forall i :: 0 <= i < n ==> fates[..n][i] == fates[i];
    }
  }

  lemma {:induction false} WithheldMembers(kind: string, reason: string, ids: seq<string>, k: Skip)
    ensures k in SkipsIn(Withheld(kind, reason, ids)) <==> k.kind == kind && k.reason == reason && k.id in ids
  {
    hide SkipsIn;
    var fates := Withheld(kind, reason, ids);
    SkipsMembers(fates, k);
    if k.kind == kind && k.reason == reason && k.id in ids {
      var i :| 0 <= i < |ids| && ids[i] == k.id;
      assert fates[i] == SkippedAs(k);
    }
  }

  lemma {:induction false} HeldMembers(state: State, k: Skip)
    ensures k in SkipsIn(HeldFates(state)) || k in SkipsIn(Withheld("entity", "policy.entity_kind_not_selected", state.artifacts)) <==>
      SkipsHeld(state, k)
  {
    hide Withheld, SkipsIn, HeldFates;
    HeldFatesParts(state);
    WithheldMembers("relationship", "policy.candidate_domain_not_published", state.candidateRelations, k);
    WithheldMembers("entity", "policy.candidate_domain_not_published", state.candidateClusters, k);
    WithheldMembers("entity", "policy.readiness_evidence_not_published", state.readiness, k);
    WithheldMembers("entity", "policy.reasoning_candidate_not_published", state.reasoning, k);
    WithheldMembers("entity", "policy.entity_kind_not_selected", state.artifacts, k);
  }

  lemma {:induction false} RepositoriesSkipped(s: Setting, xs: seq<Entity>, k: Skip)
    requires s.Ready()
    ensures k in SkipsIn(EntityFates(s, "repository", REPOSITORY_FIELDS, xs)) <==> SkipsEntity(s, "repository", xs, k)
  {
    hide SkipsIn, EntityFates, Lowered;
    var fates := EntityFates(s, "repository", REPOSITORY_FIELDS, xs);
    SkipsMembers(fates, k);
    forall i | 0 <= i < |xs|
      ensures if "repository" in s.settings.entityKinds then !fates[i].SkippedAs?
              else fates[i] == SkippedAs(Skip("entity", xs[i].id, "policy.entity_kind_not_selected"))
    {
      EntityFateAt(s, "repository", REPOSITORY_FIELDS, xs, i);
      LoweredAnswers(s, EntityRequest(xs[i]), REPOSITORY_FIELDS, false);
    }
    if SkipsEntity(s, "repository", xs, k) {
      var x :| x in xs && k == Skip("entity", x.id, "policy.entity_kind_not_selected");
      var i :| 0 <= i < |xs| && xs[i] == x;
      assert fates[i] == SkippedAs(k);
    }
  }

  lemma {:induction false} CapabilitiesSkipped(s: Setting, xs: seq<Entity>, k: Skip)
    requires s.Ready()
    ensures k in SkipsIn(EntityFates(s, "capability", CAPABILITY_FIELDS, xs)) <==> SkipsEntity(s, "capability", xs, k)
  {
    hide SkipsIn, EntityFates, Lowered;
    var fates := EntityFates(s, "capability", CAPABILITY_FIELDS, xs);
    SkipsMembers(fates, k);
    forall i | 0 <= i < |xs|
      ensures if "capability" in s.settings.entityKinds then !fates[i].SkippedAs?
              else fates[i] == SkippedAs(Skip("entity", xs[i].id, "policy.entity_kind_not_selected"))
    {
      EntityFateAt(s, "capability", CAPABILITY_FIELDS, xs, i);
      LoweredAnswers(s, EntityRequest(xs[i]), CAPABILITY_FIELDS, false);
    }
    if SkipsEntity(s, "capability", xs, k) {
      var x :| x in xs && k == Skip("entity", x.id, "policy.entity_kind_not_selected");
      var i :| 0 <= i < |xs| && xs[i] == x;
      assert fates[i] == SkippedAs(k);
    }
  }

  lemma {:induction false} ClaimFateIs(s: Setting, x: Claim)
    requires s.Ready()
    ensures ClaimFate(s, x).Becomes? <==> ClaimExpressed(s, x)
    ensures !ClaimExpressed(s, x) ==> ClaimFate(s, x) == SkippedAs(Skip("claim", x.claimId, ClaimReason(s, x)))
  {
    hide ClaimFate, ClaimSelected, ClaimSelection, LoweredWrites.Lowerable, StandsForClaim;
    ClaimFateMeans(s, x);
    SelectionMeans(s, x);
  }

  lemma {:induction false} EdgeFateIs(s: Setting, e: Edge)
    requires s.Ready()
    ensures EdgeFate(s, e).SkippedAs? <==> !EdgeSelected(s, e)
    ensures !EdgeSelected(s, e) ==> EdgeFate(s, e) == SkippedAs(Skip("relationship", e.edgeId, EdgeReason(s, e)))
  {
    hide EdgeFate, EdgeSelected, LoweredWrites.Lowerable, StandsForEdge, Qualification.Qualify, TypeName, ReasonText;
    EdgeFateMeans(s, e);
  }

  lemma {:induction false} ClaimsSkipped(s: Setting, state: State, k: Skip)
    requires s.Ready()
    ensures k in SkipsIn(ClaimFates(s, state.claims)) <==> SkipsClaim(s, state, k)
  {
    hide SkipsIn, ClaimFates, ClaimFate, ClaimExpressed, ClaimReason;
    var fates := ClaimFates(s, state.claims);
    SkipsMembers(fates, k);
    forall i | 0 <= i < |fates| ensures fates[i] == ClaimFate(s, state.claims[i]) { ClaimFateAt(s, state.claims, i); }
    forall x { ClaimFateIs(s, x); }
    if SkipsClaim(s, state, k) {
      var x :| x in state.claims && !ClaimExpressed(s, x) && k == Skip("claim", x.claimId, ClaimReason(s, x));
      var i :| 0 <= i < |state.claims| && state.claims[i] == x;
      assert fates[i] == SkippedAs(k);
    }
  }

  lemma {:induction false} EdgesSkipped(s: Setting, state: State, k: Skip)
    requires s.Ready()
    ensures k in SkipsIn(EdgeFates(s, state.edges)) <==> SkipsEdge(s, state, k)
  {
    hide SkipsIn, EdgeFates, EdgeFate, EdgeSelected, EdgeReason;
    var fates := EdgeFates(s, state.edges);
    SkipsMembers(fates, k);
    forall i | 0 <= i < |fates| ensures fates[i] == EdgeFate(s, state.edges[i]) { EdgeFateAt(s, state.edges, i); }
    forall e { EdgeFateIs(s, e); }
    if SkipsEdge(s, state, k) {
      var e :| e in state.edges && !EdgeSelected(s, e) && k == Skip("relationship", e.edgeId, EdgeReason(s, e));
      var i :| 0 <= i < |state.edges| && state.edges[i] == e;
      assert fates[i] == SkippedAs(k);
    }
  }

  /** A plan skips exactly the records that are not selected, cannot be said, are not proved or are never
      published, each for the first reason that applies to it. */
  lemma {:induction false} SkippedExactlyWhen(s: Setting, state: State, k: Skip)
    requires s.Ready() && Planned(s, state).Ok?
    ensures k in Planned(s, state).value.skipped <==>
      || SkipsEntity(s, "repository", state.repositories, k) || SkipsEntity(s, "capability", state.capabilities, k)
      || SkipsClaim(s, state, k) || SkipsEdge(s, state, k) || SkipsHeld(state, k)
  {
    hide FirstFates, EntityFates, ClaimFates, EdgeFates, HeldFates, Withheld, CandidatesIn, SkipsIn, FirstFailure, Fates, DiagnosticsOf, SortBy,
         SkipsEntity, SkipsClaim, SkipsEdge, SkipsHeld;
    var fates := Fates(s, state);
    SameMembers(Planned(s, state).value.skipped, SkipsIn(fates), k);
    FatesParts(s, state);
    FirstFatesParts(s, state);
    RepositoriesSkipped(s, state.repositories, k);
    CapabilitiesSkipped(s, state.capabilities, k);
    ClaimsSkipped(s, state, k);
    EdgesSkipped(s, state, k);
    HeldMembers(state, k);
  }

  /** No two reasons to refuse an edge read alike. */
  lemma {:induction false} ReasonsReadApart(a: Qualification.Reason, b: Qualification.Reason)
    ensures ReasonText(a) == ReasonText(b) <==> a == b
  {
    hide ReasonText;
    ReasonLength(a);
    ReasonLength(b);
  }

  lemma {:induction false} ReasonLength(r: Qualification.Reason)
    ensures |ReasonText(r)| ==
      match r
      case TypeUnrecognized => 40
      case OriginUnsupported => 41
      case EvidenceMissing => 39
      case ClassificationOnly => 42
      case ClaimNotProjectable => 47
      case EndpointUnresolved => 33
      case EndpointMismatch => 36
      case WorkTargetUnresolved => 41
    ensures r == Qualification.OriginUnsupported ==> ReasonText(r)[0] == 'q'
    ensures r == Qualification.WorkTargetUnresolved ==> ReasonText(r)[0] == 'r'
  {
    assert "qualification.evidence_origin_unsupported"[0] == 'q' && "relation.work_target_not_exactly_resolved"[0] == 'r';
  }

  /** What is cut off is counted over all candidates. */
  lemma {:induction false} TruncationAddsUp(a: seq<PlanCandidate>, b: seq<PlanCandidate>, c: PlanCandidate)
    ensures TruncatedSum(a + b) == TruncatedSum(a) + TruncatedSum(b)
    ensures TruncatedSum([]) == 0 && TruncatedSum([c]) == c.lowered.truncated
    decreases |b|
  {
    assert [c][..|[c]| - 1] == [];
    if b == [] {
      assert a + b == a;
    } else {
      assert (a + b)[..|a + b| - 1] == a + b[..|b| - 1];
      TruncationAddsUp(a, b[..|b| - 1], c);
    }
  }

  // ---- From statements to eligibility ----

  /** What was reconciled is what the plan looks conflicts and unknowns up in. */
  ghost predicate Consults(s: Setting, outcome: Reconciliation.Outcome) {
    && (forall v :: v in outcome.conflicts ==> v.subject in s.conflicts && v in s.conflicts[v.subject])
    && (forall u :: u in outcome.unknowns ==> u.subject in s.unknowns && u in s.unknowns[u.subject])
  }

  ghost predicate ClaimsAreFrom(state: State, outcome: Reconciliation.Outcome) {
    forall x :: x in state.claims ==> exists y :: y in outcome.claims && Qualification.SameButStamp(x, y)
  }

  lemma {:induction false} EligibleHasNoReason(s: Setting, x: Claim, c: PlanCandidate, reason: string)
    requires StandsForClaim(s, x, c) && c.decision.status == Eligible
    ensures !Holds(s, ClaimRequest(s, x), {"subject_id", "predicate", "object", x.predicat}, x.support == Domain.Unsupported, reason)
  {
    hide Rejects, Holds, ClaimRequest, ClaimSelected;
  }

  /** A claim is not eligible while a conflict over its own predicate is consulted and conflicts hold. */
  lemma {:induction false} ConflictHoldsClaim(s: Setting, x: Claim, c: PlanCandidate, v: Conflict)
    requires StandsForClaim(s, x, c) && s.settings.holdConflict
    requires v.subject == x.subject && v.field == x.predicat && v.subject in s.conflicts && v in s.conflicts[v.subject]
    ensures c.decision.status != Eligible
  {
    hide StandsForClaim;
    if c.decision.status == Eligible { EligibleHasNoReason(s, x, c, "conflict.unresolved_material"); }
    assert Contradicted(s, [x.subject], {"subject_id", "predicate", "object", x.predicat}) by { assert x.subject in [x.subject]; }
  }

  lemma {:induction false} UnknownHoldsClaim(s: Setting, x: Claim, c: PlanCandidate, u: Unknown)
    requires StandsForClaim(s, x, c) && s.settings.holdUnknown
    requires u.subject == x.subject && u.field == Some(x.predicat) && u.subject in s.unknowns && u in s.unknowns[u.subject]
    ensures c.decision.status != Eligible
  {
    hide StandsForClaim;
    if c.decision.status == Eligible { EligibleHasNoReason(s, x, c, "unknown.unresolved_material"); }
    assert Undetermined(s, [x.subject], {"subject_id", "predicate", "object", x.predicat}) by { assert x.subject in [x.subject]; }
  }

  /** What the policy holds for does not apply to the claim. */
  ghost predicate Settled(s: Setting, statements: seq<Reconciliation.Statement>, x: Claim) {
    && (s.settings.holdConflict && x.support == SingleValued ==> !ClaimEvidence.Contested(statements, (x.subject, x.predicat)))
    && (s.settings.holdUnknown || s.settings.holdUnsupported ==> x.support != Domain.Unsupported)
  }

  /** From statements to the plan: where the policy holds what conflicts, an eligible claim about a predicate
      that takes one value answers a question that no statement answers differently; where it holds what is
      unknown, its predicate is declared by some table. */
  lemma {:induction false} EligibleClaimsAreSettled(
      s: Setting, state: State, c: PlanCandidate, codec: Codec, registry: Reconciliation.Registry,
      evidence: seq<Evidence>, statements: seq<Reconciliation.Statement>)
    requires s.Ready() && Planned(s, state).Ok? && c in Planned(s, state).value.candidates
    requires c.lowered.kind == "claim" && c.decision.status == Eligible
    requires var outcome := Reconciliation.Reconciled(Reconciliation.CompilerOf(codec, registry, evidence), statements);
      Consults(s, outcome) && ClaimsAreFrom(state, outcome)
    ensures exists x :: x in state.claims && StandsForClaim(s, x, c) && Settled(s, statements, x)
  {
    hide Planned, StandsForSome, StandsForClaim, ClaimEvidence.Contested, Reconciliation.Reconciled;
    CandidatesAreJudged(s, state, c);
    KindsStandFor(s, state, c);
    var x :| x in state.claims && StandsForClaim(s, x, c);
    var outcome := Reconciliation.Reconciled(Reconciliation.CompilerOf(codec, registry, evidence), statements);
    var y :| y in outcome.claims && Qualification.SameButStamp(x, y);
    ClaimEvidence.ClaimStandsAsTheTablesSay(codec, registry, evidence, statements, y);
    if s.settings.holdConflict && y.conflictStatus == Confirmed {
      var v := ConflictOf(codec, registry, evidence, statements, y);
      ConflictHoldsClaim(s, x, c, v);
    }
    if x.support == Domain.Unsupported {
      if s.settings.holdUnsupported { EligibleHasNoReason(s, x, c, "predicate.unsupported_by_registry"); }
      if s.settings.holdUnknown {
        var u := UnknownOf(codec, registry, evidence, statements, y);
        UnknownHoldsClaim(s, x, c, u);
      }
    }
  }

  lemma {:induction false} ConflictOf(
      codec: Codec, registry: Reconciliation.Registry, evidence: seq<Evidence>,
      statements: seq<Reconciliation.Statement>, y: Claim) returns (v: Conflict)
    requires y in Reconciliation.Reconciled(Reconciliation.CompilerOf(codec, registry, evidence), statements).claims && y.conflictStatus == Confirmed
    ensures v in Reconciliation.Reconciled(Reconciliation.CompilerOf(codec, registry, evidence), statements).conflicts
    ensures v.subject == y.subject && v.field == y.predicat
  {
    hide Reconciliation.Claims, Reconciliation.Conflicts, Reconciliation.Unknowns, Reconciliation.Diagnostics, Reconciliation.Objects;
    var compiler, all := Reconciliation.CompilerOf(codec, registry, evidence), Reconciliation.SetOf(statements);
    Reconciliation.ConfirmedExactlyWhenContested(compiler, all, y);
    v :| v in Reconciliation.Conflicts(compiler, all) && y.conflictIds == [v.conflictId] && v.subject == y.subject && v.field == y.predicat;
  }

  lemma {:induction false} UnknownOf(
      codec: Codec, registry: Reconciliation.Registry, evidence: seq<Evidence>,
      statements: seq<Reconciliation.Statement>, y: Claim) returns (u: Unknown)
    requires y in Reconciliation.Reconciled(Reconciliation.CompilerOf(codec, registry, evidence), statements).claims && y.support == Domain.Unsupported
    ensures u in Reconciliation.Reconciled(Reconciliation.CompilerOf(codec, registry, evidence), statements).unknowns
    ensures u.subject == y.subject && u.field == Some(y.predicat)
  {
    hide Reconciliation.Reconciled;
    ClaimEvidence.ClaimStandsAsTheTablesSay(codec, registry, evidence, statements, y);
    Asked(codec, registry, evidence, statements, y);
    ClaimEvidence.UnknownExactlyWhenLeftOpen(codec, registry, evidence, statements, (y.subject, y.predicat));
    u :| u in Reconciliation.Reconciled(Reconciliation.CompilerOf(codec, registry, evidence), statements).unknowns
      && u.subject == y.subject && u.field == Some(y.predicat);
  }

  lemma {:induction false} Asked(
      codec: Codec, registry: Reconciliation.Registry, evidence: seq<Evidence>,
      statements: seq<Reconciliation.Statement>, y: Claim)
    requires y in Reconciliation.Reconciled(Reconciliation.CompilerOf(codec, registry, evidence), statements).claims
    ensures exists z :: z in statements && Reconciliation.Asked(z) == (y.subject, y.predicat)
  {
    hide Reconciliation.Claims, Reconciliation.Conflicts, Reconciliation.Unknowns, Reconciliation.Diagnostics, Reconciliation.ClaimFor;
    var compiler, all := Reconciliation.CompilerOf(codec, registry, evidence), Reconciliation.SetOf(statements);
    Reconciliation.ClaimAnswersItsQuestion(compiler, all, y);
    var z :| z in all && Reconciliation.Asked(z) == (y.subject, y.predicat);
  }
}
