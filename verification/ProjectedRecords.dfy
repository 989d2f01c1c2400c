/** What each claim projects, in full (topology/claim_projection.py). */
module ProjectedRecords {
  import opened Wrappers
  import opened CanonicalHash
  import opened Identities
  import opened Domain
  import opened Reconciliation
  import opened ClaimProjection

  // ---- Which claims project ----

  /** A claim may project exactly when its predicate is in one of the two tables of claims, is not declared only
      to be kept, and nothing is in conflict about it; the predicate is asked about first. */
  lemma {:induction false} MayProjectExactlyWhen(registry: Registry, x: Claim)
    ensures var p := x.predicat;
      var projectable := p !in registry.declarationOnly && (p in registry.many || p in registry.single);
      && (Ineligibility(registry, x) == Some(PredicateNotProjectable) <==> !projectable)
      && (Ineligibility(registry, x) == Some(Conflicted) <==> projectable && (x.conflictStatus in {Possible, Confirmed} || |x.conflictIds| > 0))
  {
  }

  ghost predicate Projects(registry: Registry, x: Claim) {
    && Ineligibility(registry, x).None?
    && (x.predicat == "authority.canonical_contract" || x.predicat == "http.route" || x.predicat == "package.dependency"
        || x.predicat == "repository.replaced_by" || x.predicat == "service.action")
  }

  // ---- What they project ----

  /** The edge leads from one end to the other and records the claim, its endpoint's kind and one thing more. */
  ghost predicate IsLink(x: Claim, e: Edge, source: string, target: string, edgeType: EdgeType, kind: string, key: string, value: string) {
    && e.source == source && e.target == target && e.edgeType == edgeType && e.direction == Outbound
    && e.evidenceRefs == x.evidenceRefs && e.confidence == x.confidence
    && e.properties == map["projected_from_claim_id" := Word(x.claimId), "assertion_predicate" := Word(x.predicat), "assertion_object" := Word(x.object_),
                           "endpoint_kind" := Word(kind), key := Word(value)]
  }

  /** The node stands for something referred to that was not itself observed. */
  ghost predicate IsReference(x: Claim, n: Node, id: string, kind: string, key: string, flag: string) {
    && n.entityId == id && n.kind == kind && n.evidenceRefs == x.evidenceRefs && n.confidence == x.confidence
    && n.properties == map[key := Word(x.object_), flag := Flag(false), "projected_from_claim_id" := Word(x.claimId)]
  }

  ghost predicate IsOffer(x: Claim, c: Capability, implementedBy: seq<string>, exposedBy: seq<string>) {
    && c.name == x.object_ && c.implementedBy == implementedBy && c.exposedBy == exposedBy && c.validatedBy == []
    && c.evidenceRefs == x.evidenceRefs && c.confidence == x.confidence
  }

  /** What the claim's predicate makes of it. */
  ghost predicate Renders(x: Claim, p: Projected) {
    if x.predicat == "package.dependency" then
      && p.capability.None? && p.edge.Some? && p.node.Some?
      && IsLink(x, p.edge.value, x.subject, "package:" + x.object_, DependsOn, "external-package-reference", "package_name", x.object_)
      && IsReference(x, p.node.value, "package:" + x.object_, "ExternalPackage", "package_name", "observed_as_repository")
    else if x.predicat == "authority.canonical_contract" then
      && p.capability.None? && p.edge.Some? && p.node.Some?
      && IsLink(x, p.edge.value, x.subject, "contract-reference:" + x.object_, GovernedBy, "declared-contract-reference", "contract_reference", x.object_)
      && IsReference(x, p.node.value, "contract-reference:" + x.object_, "ContractReference", "contract_reference", "resolved_to_artifact")
    else if x.predicat == "repository.replaced_by" then
      && p.capability.None? && p.edge.Some? && p.node.Some?
      && IsLink(x, p.edge.value, "repository-reference:" + x.object_, x.subject, Supersedes, "declared-repository-reference", "declared_by", x.subject)
      && IsReference(x, p.node.value, "repository-reference:" + x.object_, "RepositoryReference", "reference", "observed_in_constellation")
    else if x.predicat == "service.action" then
      p.edge.None? && p.node.None? && p.capability.Some? && IsOffer(x, p.capability.value, [x.subject], [])
    else
      p.edge.None? && p.node.None? && p.capability.Some? && IsOffer(x, p.capability.value, [], [x.subject])
  }

  lemma {:induction false} FiveWordsAre(keys: seq<string>, values: seq<string>)
    requires |keys| == |values| == 5 && forall i, j :: 0 <= i < j < |keys| ==> keys[i] != keys[j]
    ensures Words(keys, values) ==
      map[keys[0] := Word(values[0]), keys[1] := Word(values[1]), keys[2] := Word(values[2]), keys[3] := Word(values[3]), keys[4] := Word(values[4])]
  {
    var k1, k2, k3, k4 := keys[1..], keys[2..], keys[3..], keys[4..];
    var v1, v2, v3, v4 := values[1..], values[2..], values[3..], values[4..];
    assert k1[1..] == k2 && k2[1..] == k3 && k3[1..] == k4 && v1[1..] == v2 && v2[1..] == v3 && v3[1..] == v4;
    assert Words(k4, v4) == map[keys[4] := Word(values[4])];
    assert Words(k3, v3) == Words(k4, v4)[keys[3] := Word(values[3])];
    assert Words(k2, v2) == Words(k3, v3)[keys[2] := Word(values[2])];
    assert Words(k1, v1) == Words(k2, v2)[keys[1] := Word(values[1])];
    assert Words(keys, values) == Words(k1, v1)[keys[0] := Word(values[0])];
  }

  lemma {:induction false} DependencyRenders(codec: Codec, x: Claim)
    requires x.predicat == "package.dependency"
    ensures Renders(x, ProjectDependency(codec, x))
  {
    hide EdgeId, Words;
    DependencyKeysAreGood();
    FiveWordsAre(DEPENDENCY_KEYS, [x.claimId, x.predicat, x.object_, "external-package-reference", x.object_]);
  }

  lemma {:induction false} ContractRenders(codec: Codec, x: Claim)
    requires x.predicat == "authority.canonical_contract"
    ensures Renders(x, ProjectContract(codec, x))
  {
    hide EdgeId, Words;
    ContractKeysAreGood();
    FiveWordsAre(CONTRACT_KEYS, [x.claimId, x.predicat, x.object_, "declared-contract-reference", x.object_]);
  }

  lemma {:induction false} ReplacedRenders(codec: Codec, x: Claim)
    requires x.predicat == "repository.replaced_by"
    ensures Renders(x, ProjectReplacedBy(codec, x))
  {
    hide EdgeId, Words;
    ReplacedKeysAreGood();
    FiveWordsAre(REPLACED_KEYS, [x.claimId, x.predicat, x.object_, "declared-repository-reference", x.subject]);
  }

  lemma {:induction false} OfferRenders(codec: Codec, x: Claim)
    ensures x.predicat == "service.action" ==> Renders(x, ProjectAction(codec, x))
    ensures x.predicat == "http.route" ==> Renders(x, ProjectRoute(codec, x))
  {
    hide IdOf;
  }

  /** A claim projects exactly when it may and its predicate is one of the five that say what is there; it then
      projects what that predicate makes of it. */
  lemma {:induction false} ProjectsExactly(codec: Codec, registry: Registry, x: Claim)
    ensures Project(codec, registry, x).Some? <==> Projects(registry, x)
    ensures Project(codec, registry, x).Some? ==> Renders(x, Project(codec, registry, x).value)
  {
    hide Ineligibility, Renders, ProjectDependency, ProjectContract, ProjectReplacedBy, ProjectAction, ProjectRoute;
    if x.predicat == "package.dependency" { DependencyRenders(codec, x); }
    if x.predicat == "authority.canonical_contract" { ContractRenders(codec, x); }
    if x.predicat == "repository.replaced_by" { ReplacedRenders(codec, x); }
    OfferRenders(codec, x);
  }

  /** Two projected capabilities of one kind are the same exactly when one subject claims one thing. */
  lemma {:induction false} CapabilitiesToldApart(codec: Codec, registry: Registry, x: Claim, y: Claim)
    requires codec.Faithful() && x.predicat == y.predicat && (x.predicat == "service.action" || x.predicat == "http.route")
    requires Project(codec, registry, x).Some? && Project(codec, registry, y).Some?
    ensures var p, q := Project(codec, registry, x).value, Project(codec, registry, y).value;
      && p.capability.Some? && q.capability.Some?
      && (p.capability.value.capabilityId == q.capability.value.capabilityId <==> x.subject == y.subject && x.object_ == y.object_)
  {
    hide Ineligibility, IdOf;
    CapabilityKeysAreGood();
    var p, q := Project(codec, registry, x).value, Project(codec, registry, y).value;
    var a, b := [Text(x.subject), Text(x.object_)], [Text(y.subject), Text(y.object_)];
    if p.capability.value.capabilityId == q.capability.value.capabilityId {
      if x.predicat == "service.action" {
        IdTellsApart(codec, "capability:service-action", ACTION_KEYS, a, b);
      } else {
        IdTellsApart(codec, "capability:http-route", ROUTE_KEYS, a, b);
      }
      assert a[0] == b[0] && a[1] == b[1];
    }
  }
}
