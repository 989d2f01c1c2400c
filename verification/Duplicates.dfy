/** Exact duplicates compiled into stars of DUPLICATE_OF edges (topology/duplicates.py). */
module Duplicates {
  import opened Wrappers
  import opened Ordering
  import opened CanonicalHash
  import opened Identities
  import opened Domain

  datatype Relation = Relation(relationId: string, clusterId: string, a: string, b: string, contentHash: string)

  datatype Cluster = Cluster(clusterId: string, contentHash: string, members: seq<string>)

  /** `canonical_pair`. */
  function CanonicalPair(x: string, y: string): (string, string) {
    if Leq(x, y) then (x, y) else (y, x)
  }

  const EDGE_KEYS: seq<string> := ["edge_type", "artifact_a_id", "artifact_b_id", "content_hash"]

  lemma {:induction false} EdgeKeysAreGood()
    ensures GoodKeys(EDGE_KEYS)
  {
  }

  /** `duplicate_edge_id`. */
  function DuplicateEdgeId(codec: Codec, x: string, y: string, contentHash: string): string {
    EdgeKeysAreGood();
    var pair := CanonicalPair(x, y);
    IdOf(codec, "edge", EDGE_KEYS, [Text(TypeName(DuplicateOf)), Text(pair.0), Text(pair.1), Text(contentHash)])
  }

  lemma {:induction false} PairIsUnordered(x: string, y: string)
    ensures CanonicalPair(x, y) == CanonicalPair(y, x)
  {
    LessTrichotomy(x, y);
  }

  /** An edge's identity names its unordered endpoints and their hash, whichever is given first. */
  lemma {:induction false} DuplicateEdgeIdIdentifies(codec: Codec, x: string, y: string, h: string, u: string, v: string, g: string)
    requires codec.Faithful()
    ensures DuplicateEdgeId(codec, x, y, h) == DuplicateEdgeId(codec, u, v, g) <==> {x, y} == {u, v} && h == g
  {
    hide IdOf, Leq;
    EdgeKeysAreGood();
    var p, q := CanonicalPair(x, y), CanonicalPair(u, v);
    if DuplicateEdgeId(codec, x, y, h) == DuplicateEdgeId(codec, u, v, g) {
      var a := [Text(TypeName(DuplicateOf)), Text(p.0), Text(p.1), Text(h)];
      var b := [Text(TypeName(DuplicateOf)), Text(q.0), Text(q.1), Text(g)];
      IdTellsApart(codec, "edge", EDGE_KEYS, a, b);
      assert a[1] == b[1] && a[2] == b[2] && a[3] == b[3];
      assert {x, y} == {p.0, p.1} && {u, v} == {q.0, q.1};
    }
    if {x, y} == {u, v} { SamePairs(x, y, u, v); }
  }

  lemma {:induction false} SamePairs(x: string, y: string, u: string, v: string)
    requires {x, y} == {u, v}
    ensures CanonicalPair(x, y) == CanonicalPair(u, v)
  {
    PairIsUnordered(x, y);
    assert x in {u, v} && y in {u, v} && u in {x, y} && v in {x, y};
  }

  // ---- Clusters ----

  function MembersOf(relations: seq<Relation>, id: string): set<string> {
    (set r | r in relations && r.clusterId == id :: r.a) + (set r | r in relations && r.clusterId == id :: r.b)
  }

  function ClusterIds(relations: seq<Relation>): set<string> { set r | r in relations :: r.clusterId }

  /** The content hash of a cluster; the last relation's wins. */
  function HashOf(relations: seq<Relation>, id: string): string {
    if relations == [] then ""
    else if relations[|relations| - 1].clusterId == id then relations[|relations| - 1].contentHash
    else HashOf(relations[..|relations| - 1], id)
  }

  function ClusterOf(relations: seq<Relation>, id: string): Cluster {
    Cluster(id, HashOf(relations, id), SortedIds(MembersOf(relations, id)))
  }

  function ClustersFor(relations: seq<Relation>, ids: seq<string>): (r: seq<Cluster>)
    ensures |r| == |ids|
    ensures forall i :: 0 <= i < |r| ==> r[i] == ClusterOf(relations, ids[i])
  {
    if ids == [] then [] else ClustersFor(relations, ids[..|ids| - 1]) + [ClusterOf(relations, ids[|ids| - 1])]
  }

  function ClustersOf(relations: seq<Relation>): seq<Cluster> {
    ClustersFor(relations, SortedIds(ClusterIds(relations)))
  }

  lemma {:induction false} MoreClusters(relations: seq<Relation>, ids: seq<string>, i: nat)
    ensures ClustersFor(relations, []) == []
    ensures i < |ids| ==>
      ClustersFor(relations, ids[..i + 1]) ==
        ClustersFor(relations, ids[..i]) + [Cluster(ids[i], HashOf(relations, ids[i]), SortedIds(MembersOf(relations, ids[i])))]
  {
    hide MembersOf, HashOf;
    if i < |ids| { assert ids[..i + 1][..i] == ids[..i]; }
  }

  lemma {:induction false} ClustersUnfold(relations: seq<Relation>)
    ensures ClustersOf(relations) == ClustersFor(relations, SortedIds(ClusterIds(relations)))
  {
  }

  /** `cluster_relations`. */
  method ClusterRelations(relations: seq<Relation>) returns (clusters: seq<Cluster>)
    ensures clusters == ClustersOf(relations)
  {
    var members, hashes := GroupRelations(relations);
    hide *;
    var ids := SortedIds(members.Keys);
    ClustersUnfold(relations);
    clusters := [];
    MoreClusters(relations, ids, 0);
    for i := 0 to |ids|
      invariant clusters == ClustersFor(relations, ids[..i])
    {
      MoreClusters(relations, ids, i);
      var id := ids[i];
      assert id in members;
      clusters := clusters + [Cluster(id, hashes[id], SortedIds(members[id]))];
    }
    assert ids[..|ids|] == ids;
  }

  /** The loop of `cluster_relations`. */
  method GroupRelations(relations: seq<Relation>) returns (members: map<string, set<string>>, hashes: map<string, string>)
    ensures members.Keys == hashes.Keys == ClusterIds(relations)
    ensures forall id :: id in members ==> members[id] == MembersOf(relations, id) && hashes[id] == HashOf(relations, id)
  {
    members, hashes := map[], map[];
    NoRelations();
    hide MembersOf, HashOf, ClusterIds;
    for i := 0 to |relations|
      invariant members.Keys == hashes.Keys == ClusterIds(relations[..i])
      invariant forall id :: id in members ==> members[id] == MembersOf(relations[..i], id) && hashes[id] == HashOf(relations[..i], id)
    {
      var r := relations[i];
      forall id { OneMoreRelation(relations, i, id); }
      NoMembers(relations[..i], r.clusterId);
      members := members[r.clusterId := (if r.clusterId in members then members[r.clusterId] else {}) + {r.a, r.b}];
      hashes := hashes[r.clusterId := r.contentHash];
    }
    assert relations[..|relations|] == relations;
  }

  lemma {:induction false} NoRelations()
    ensures ClusterIds([]) == {}
  {
  }

  lemma {:induction false} OneMoreRelation(relations: seq<Relation>, i: nat, id: string)
    requires i < |relations|
    ensures var r := relations[i];
      && ClusterIds(relations[..i + 1]) == ClusterIds(relations[..i]) + {r.clusterId}
      && MembersOf(relations[..i + 1], id) == MembersOf(relations[..i], id) + (if r.clusterId == id then {r.a, r.b} else {})
      && HashOf(relations[..i + 1], id) == if r.clusterId == id then r.contentHash else HashOf(relations[..i], id)
  {
    assert relations[..i + 1] == relations[..i] + [relations[i]];
    assert relations[..i + 1][..i] == relations[..i];
  }

  lemma {:induction false} NoMembers(relations: seq<Relation>, id: string)
    ensures id !in ClusterIds(relations) ==> MembersOf(relations, id) == {}
  {
  }

  // ---- Edges ----

  const EXACT_METHOD: string := "content-hash-equality/v1"
  const CERTAIN: Confidence := Confidence(High, Direct, Deterministic, ValidatedMachine, Complete, NoConflict)

  /** The evidence cited by the relations of a cluster. */
  function EvidenceOf(relations: seq<Relation>, cited: map<string, seq<string>>, id: string): set<string> {
    set r, x | r in relations && r.clusterId == id && r.relationId in cited && x in cited[r.relationId] :: x
  }

  /** The edge that joins a member to its cluster's representative. */
  function StarEdge(codec: Codec, cluster: Cluster, evidence: seq<string>, member: string): Edge
    requires cluster.members != []
  {
    var representative := cluster.members[0];
    var pair := CanonicalPair(representative, member);
    Edge(DuplicateEdgeId(codec, pair.0, pair.1, cluster.contentHash), pair.0, pair.1, DuplicateOf, Bidirectional,
         map["duplicate_cluster_id" := Word(cluster.clusterId), "content_hash" := Word(cluster.contentHash), "method" := Word(EXACT_METHOD),
             "cluster_member_count" := Count(|cluster.members|), "representative_artifact_id" := Word(representative),
             "representative_is_arbitrary" := Flag(true)],
         evidence, CERTAIN)
  }

  /** The edges, by identity, once the first `n` members of a cluster are joined. */
  function WithMembers(codec: Codec, edges: map<string, Edge>, cluster: Cluster, evidence: seq<string>, n: nat): map<string, Edge>
    requires n <= |cluster.members|
  {
    if n == 0 then edges
    else
      var earlier := WithMembers(codec, edges, cluster, evidence, n - 1);
      var member := cluster.members[n - 1];
      if member == cluster.members[0] then earlier
      else
        var e := StarEdge(codec, cluster, evidence, member);
        earlier[e.edgeId := e]
  }

  function EvidenceList(relations: seq<Relation>, cited: map<string, seq<string>>, id: string): seq<string> {
    SortedIds(EvidenceOf(relations, cited, id))
  }

  /** The edges, by identity, of the first `n` clusters. */
  function StarsOf(codec: Codec, relations: seq<Relation>, cited: map<string, seq<string>>, clusters: seq<Cluster>, n: nat): map<string, Edge>
    requires n <= |clusters|
  {
    if n == 0 then map[]
    else
      var cluster := clusters[n - 1];
      WithMembers(codec, StarsOf(codec, relations, cited, clusters, n - 1), cluster, EvidenceList(relations, cited, cluster.clusterId), |cluster.members|)
  }

  function DuplicateTable(codec: Codec, relations: seq<Relation>, cited: map<string, seq<string>>): map<string, Edge> {
    StarsOf(codec, relations, cited, ClustersOf(relations), |ClustersOf(relations)|)
  }

  function DuplicateEdges(codec: Codec, relations: seq<Relation>, cited: map<string, seq<string>>): seq<Edge> {
    InKeyOrder(DuplicateTable(codec, relations, cited))
  }

  lemma {:induction false} MoreStars(codec: Codec, relations: seq<Relation>, cited: map<string, seq<string>>, clusters: seq<Cluster>, k: nat)
    ensures StarsOf(codec, relations, cited, clusters, 0) == map[]
    ensures k < |clusters| ==>
      StarsOf(codec, relations, cited, clusters, k + 1) ==
        WithMembers(codec, StarsOf(codec, relations, cited, clusters, k), clusters[k], SortedIds(EvidenceOf(relations, cited, clusters[k].clusterId)),
                    |clusters[k].members|)
  {
    hide WithMembers;
  }

  /** `build_duplicate_edges`. */
  method BuildDuplicateEdges(codec: Codec, relations: seq<Relation>, cited: map<string, seq<string>>) returns (edges: seq<Edge>)
    ensures edges == DuplicateEdges(codec, relations, cited)
  {
    hide WithMembers, StarEdge, EvidenceOf, ClustersOf, ClusterIds, StarsOf, InKeyOrder;
    var byCluster := CollectEvidence(relations, cited);
    var clusters := ClusterRelations(relations);
    var table: map<string, Edge> := map[];
    MoreStars(codec, relations, cited, clusters, 0);
    for k := 0 to |clusters|
      invariant table == StarsOf(codec, relations, cited, clusters, k)
    {
      KnownCluster(relations, k);
      MoreStars(codec, relations, cited, clusters, k);
      var refs := SortedIds(byCluster[clusters[k].clusterId]);
      table := JoinMembers(codec, table, clusters[k], refs);
    }
    edges := InKeyOrder(table);
  }

  /** The inner loop: a star for one cluster. */
  method JoinMembers(codec: Codec, before: map<string, Edge>, cluster: Cluster, refs: seq<string>) returns (table: map<string, Edge>)
    ensures table == WithMembers(codec, before, cluster, refs, |cluster.members|)
  {
    hide StarEdge;
    table := before;
    for j := 0 to |cluster.members|
      invariant table == WithMembers(codec, before, cluster, refs, j)
    {
      if cluster.members[j] == cluster.members[0] { continue; }
      var e := StarEdge(codec, cluster, refs, cluster.members[j]);
      table := table[e.edgeId := e];
    }
  }

  lemma {:induction false} KnownCluster(relations: seq<Relation>, k: nat)
    requires k < |ClustersOf(relations)|
    ensures ClustersOf(relations)[k].clusterId in ClusterIds(relations)
  {
  }

  method CollectEvidence(relations: seq<Relation>, cited: map<string, seq<string>>) returns (byCluster: map<string, set<string>>)
    ensures byCluster.Keys == ClusterIds(relations)
    ensures forall id :: id in byCluster ==> byCluster[id] == EvidenceOf(relations, cited, id)
  {
    byCluster := map[];
    for i := 0 to |relations|
      invariant byCluster.Keys == ClusterIds(relations[..i])
      invariant forall id :: id in byCluster ==> byCluster[id] == EvidenceOf(relations[..i], cited, id)
    {
      var r := relations[i];
      var more := if r.relationId in cited then set x | x in cited[r.relationId] else {};
      forall id { MoreEvidence(relations, cited, i, id); }
      byCluster := byCluster[r.clusterId := (if r.clusterId in byCluster then byCluster[r.clusterId] else {}) + more];
    }
    assert relations[..|relations|] == relations;
  }

  lemma {:induction false} MoreEvidence(relations: seq<Relation>, cited: map<string, seq<string>>, i: nat, id: string)
    requires i < |relations|
    ensures var r := relations[i];
      var more := if r.relationId in cited then set x | x in cited[r.relationId] else {};
      EvidenceOf(relations[..i + 1], cited, id) == EvidenceOf(relations[..i], cited, id) + if r.clusterId == id then more else {}
    ensures ClusterIds(relations[..i + 1]) == ClusterIds(relations[..i]) + {relations[i].clusterId}
    ensures id !in ClusterIds(relations[..i]) ==> EvidenceOf(relations[..i], cited, id) == {}
  {
    assert relations[..i + 1] == relations[..i] + [relations[i]];
  }

  // ---- What the edges are ----

  /** The edge joins a member of the cluster to its representative. */
  ghost predicate IsSpoke(codec: Codec, cluster: Cluster, e: Edge) {
    exists j, refs: seq<string> :: 0 <= j < |cluster.members| && cluster.members[j] != cluster.members[0] && e == StarEdge(codec, cluster, refs, cluster.members[j])
  }

  lemma {:induction false} SpokesOnly(codec: Codec, before: map<string, Edge>, cluster: Cluster, refs: seq<string>, n: nat, id: string)
    requires n <= |cluster.members| && id in WithMembers(codec, before, cluster, refs, n)
    ensures var e := WithMembers(codec, before, cluster, refs, n)[id];
      (id in before && e == before[id]) || (e.edgeId == id && IsSpoke(codec, cluster, e))
  {
    hide StarEdge;
    if n > 0 {
      var m := cluster.members[n - 1];
      var e := StarEdge(codec, cluster, refs, m);
      if m == cluster.members[0] || e.edgeId != id { SpokesOnly(codec, before, cluster, refs, n - 1, id); }
    }
  }

  /** Every edge is a spoke of some cluster. */
  lemma {:induction false} EdgesAreSpokes(codec: Codec, relations: seq<Relation>, cited: map<string, seq<string>>, clusters: seq<Cluster>, n: nat, id: string)
    requires n <= |clusters| && id in StarsOf(codec, relations, cited, clusters, n)
    ensures var e := StarsOf(codec, relations, cited, clusters, n)[id];
      e.edgeId == id && exists k :: 0 <= k < n && IsSpoke(codec, clusters[k], e)
  {
    hide WithMembers, IsSpoke, EvidenceList;
    var cluster := clusters[n - 1];
    var before := StarsOf(codec, relations, cited, clusters, n - 1);
    SpokesOnly(codec, before, cluster, EvidenceList(relations, cited, cluster.clusterId), |cluster.members|, id);
    var e := StarsOf(codec, relations, cited, clusters, n)[id];
    if id in before && e == before[id] {
      EdgesAreSpokes(codec, relations, cited, clusters, n - 1, id);
    } else {
      assert IsSpoke(codec, clusters[n - 1], e);
    }
  }

  lemma {:induction false} SpokesKept(codec: Codec, before: map<string, Edge>, cluster: Cluster, refs: seq<string>, n: nat)
    requires n <= |cluster.members|
    ensures before.Keys <= WithMembers(codec, before, cluster, refs, n).Keys
    ensures forall j :: 0 <= j < n && cluster.members[j] != cluster.members[0] ==>
      StarEdge(codec, cluster, refs, cluster.members[j]).edgeId in WithMembers(codec, before, cluster, refs, n)
  {
    hide StarEdge;
    if n > 0 { SpokesKept(codec, before, cluster, refs, n - 1); }
  }

  /** Every spoke of every cluster has an edge under its identity. */
  lemma {:induction false} SpokesPresent(
      codec: Codec, relations: seq<Relation>, cited: map<string, seq<string>>, clusters: seq<Cluster>, n: nat, k: nat, j: nat)
    requires k < n <= |clusters| && j < |clusters[k].members| && clusters[k].members[j] != clusters[k].members[0]
    ensures DuplicateEdgeId(codec, clusters[k].members[0], clusters[k].members[j], clusters[k].contentHash) in StarsOf(codec, relations, cited, clusters, n)
  {
    hide WithMembers, DuplicateEdgeId;
    var cluster := clusters[n - 1];
    var refs := EvidenceList(relations, cited, cluster.clusterId);
    SpokesKept(codec, StarsOf(codec, relations, cited, clusters, n - 1), cluster, refs, |cluster.members|);
    if k < n - 1 {
      SpokesPresent(codec, relations, cited, clusters, n - 1, k, j);
    } else {
      SpokeId(codec, cluster, refs, cluster.members[j]);
    }
  }

  lemma {:induction false} SpokeId(codec: Codec, cluster: Cluster, refs: seq<string>, member: string)
    requires cluster.members != []
    ensures StarEdge(codec, cluster, refs, member).edgeId == DuplicateEdgeId(codec, cluster.members[0], member, cluster.contentHash)
    ensures var e := StarEdge(codec, cluster, refs, member); {e.source, e.target} == {cluster.members[0], member}
  {
    var x, y := cluster.members[0], member;
    var pair := CanonicalPair(x, y);
    assert {pair.0, pair.1} == {x, y};
    SamePairs(pair.0, pair.1, x, y);
  }

  // ---- Closure ----

  ghost predicate ShareCluster(relations: seq<Relation>, x: string, y: string) {
    exists id :: id in ClusterIds(relations) && x in MembersOf(relations, id) && y in MembersOf(relations, id)
  }

  ghost predicate Joined(edges: seq<Edge>, x: string, y: string) {
    exists e :: e in edges && {e.source, e.target} == {x, y}
  }

  ghost predicate RelatedAlong(relations: seq<Relation>, p: seq<string>) {
    forall i :: 0 <= i < |p| - 1 ==> ShareCluster(relations, p[i], p[i + 1])
  }

  ghost predicate JoinedAlong(edges: seq<Edge>, p: seq<string>) {
    forall i :: 0 <= i < |p| - 1 ==> Joined(edges, p[i], p[i + 1])
  }

  ghost predicate Leads(p: seq<string>, x: string, y: string) { p != [] && p[0] == x && p[|p| - 1] == y }

  /** The closure of sharing a cluster. */
  ghost predicate Related(relations: seq<Relation>, x: string, y: string) {
    exists p :: Leads(p, x, y) && RelatedAlong(relations, p)
  }

  ghost predicate Connected(edges: seq<Edge>, x: string, y: string) {
    exists p :: Leads(p, x, y) && JoinedAlong(edges, p)
  }

  lemma {:induction false} ConnectedSelf(edges: seq<Edge>, x: string)
    ensures Connected(edges, x, x)
  {
    assert Leads([x], x, x) && JoinedAlong(edges, [x]);
  }

  lemma {:induction false} ConnectedStep(edges: seq<Edge>, x: string, y: string, z: string)
    requires Connected(edges, x, y) && Joined(edges, y, z)
    ensures Connected(edges, x, z)
  {
    hide Joined;
    var p :| Leads(p, x, y) && JoinedAlong(edges, p);
    var q := p + [z];
    forall i | 0 <= i < |q| - 1 ensures Joined(edges, q[i], q[i + 1]) { assert q[i] == p[i]; }
    assert Leads(q, x, z);
  }

  lemma {:induction false} JoinedMeansShared(codec: Codec, relations: seq<Relation>, cited: map<string, seq<string>>, x: string, y: string)
    requires Joined(DuplicateEdges(codec, relations, cited), x, y)
    ensures ShareCluster(relations, x, y)
  {
    hide DuplicateEdges, ClustersOf, MembersOf, ClusterIds, IsSpoke;
    var e :| e in DuplicateEdges(codec, relations, cited) && {e.source, e.target} == {x, y};
    EdgeOrigin(codec, relations, cited, e);
    var k :| 0 <= k < |ClustersOf(relations)| && IsSpoke(codec, ClustersOf(relations)[k], e);
    SpokeEnds(codec, ClustersOf(relations)[k], e);
    ClusterMembers(relations, k);
    assert x in {e.source, e.target} && y in {e.source, e.target};
  }

  lemma {:induction false} EdgeOrigin(codec: Codec, relations: seq<Relation>, cited: map<string, seq<string>>, e: Edge)
    requires e in DuplicateEdges(codec, relations, cited)
    ensures exists k :: 0 <= k < |ClustersOf(relations)| && IsSpoke(codec, ClustersOf(relations)[k], e)
  {
    hide StarsOf, ClustersOf, IsSpoke;
    var table := DuplicateTable(codec, relations, cited);
    var id :| id in table && table[id] == e;
    EdgesAreSpokes(codec, relations, cited, ClustersOf(relations), |ClustersOf(relations)|, id);
  }

  lemma {:induction false} SpokeEnds(codec: Codec, cluster: Cluster, e: Edge)
    requires IsSpoke(codec, cluster, e)
    ensures e.source in cluster.members && e.target in cluster.members && e.source != e.target
  {
    hide StarEdge;
    var j, refs: seq<string> :| 0 <= j < |cluster.members| && cluster.members[j] != cluster.members[0] && e == StarEdge(codec, cluster, refs, cluster.members[j]);
    SpokeId(codec, cluster, refs, cluster.members[j]);
    assert e.source in {e.source, e.target} && e.target in {e.source, e.target} && cluster.members[j] in {e.source, e.target};
  }

  lemma {:induction false} ClusterMembers(relations: seq<Relation>, k: nat)
    requires k < |ClustersOf(relations)|
    ensures var cluster := ClustersOf(relations)[k];
      cluster.clusterId in ClusterIds(relations) && cluster.members == SortedIds(MembersOf(relations, cluster.clusterId))
  {
  }

  lemma {:induction false} EveryCluster(relations: seq<Relation>, id: string)
    requires id in ClusterIds(relations)
    ensures exists k :: 0 <= k < |ClustersOf(relations)| && ClustersOf(relations)[k].clusterId == id
  {
    var ids := SortedIds(ClusterIds(relations));
    var k :| 0 <= k < |ids| && ids[k] == id;
    assert ClustersOf(relations)[k].clusterId == id;
  }

  lemma {:induction false} MemberJoined(codec: Codec, relations: seq<Relation>, cited: map<string, seq<string>>, k: nat, x: string)
    requires codec.Faithful() && k < |ClustersOf(relations)| && x in ClustersOf(relations)[k].members
    ensures x == ClustersOf(relations)[k].members[0] || Joined(DuplicateEdges(codec, relations, cited), ClustersOf(relations)[k].members[0], x)
  {
    hide StarsOf, ClustersOf, DuplicateEdgeId;
    var clusters := ClustersOf(relations);
    var cluster := clusters[k];
    var j :| 0 <= j < |cluster.members| && cluster.members[j] == x;
    if x != cluster.members[0] {
      var table := DuplicateTable(codec, relations, cited);
      var id := DuplicateEdgeId(codec, cluster.members[0], x, cluster.contentHash);
      SpokesPresent(codec, relations, cited, clusters, |clusters|, k, j);
      EdgesAreSpokes(codec, relations, cited, clusters, |clusters|, id);
      var e := table[id];
      var l :| 0 <= l < |clusters| && IsSpoke(codec, clusters[l], e);
      SameSpoke(codec, cluster.members[0], x, cluster.contentHash, clusters[l], e);
      assert e in DuplicateEdges(codec, relations, cited);
    }
  }

  lemma {:induction false} SameSpoke(codec: Codec, x: string, y: string, h: string, cluster: Cluster, e: Edge)
    requires codec.Faithful() && IsSpoke(codec, cluster, e) && e.edgeId == DuplicateEdgeId(codec, x, y, h)
    ensures {e.source, e.target} == {x, y} && cluster.contentHash == h
  {
    hide StarEdge, DuplicateEdgeId;
    var j, refs: seq<string> :| 0 <= j < |cluster.members| && cluster.members[j] != cluster.members[0] && e == StarEdge(codec, cluster, refs, cluster.members[j]);
    SpokeId(codec, cluster, refs, cluster.members[j]);
    DuplicateEdgeIdIdentifies(codec, cluster.members[0], cluster.members[j], cluster.contentHash, x, y, h);
  }

  lemma {:induction false} JoinedEitherWay(edges: seq<Edge>, x: string, y: string)
    ensures Joined(edges, x, y) <==> Joined(edges, y, x)
  {
    assert {x, y} == {y, x};
  }

  lemma {:induction false} SharedMeansConnected(codec: Codec, relations: seq<Relation>, cited: map<string, seq<string>>, w: string, x: string, y: string)
    requires codec.Faithful() && ShareCluster(relations, x, y) && Connected(DuplicateEdges(codec, relations, cited), w, x)
    ensures Connected(DuplicateEdges(codec, relations, cited), w, y)
  {
    hide DuplicateEdges, ClustersOf, MembersOf, ClusterIds, Connected, Joined;
    var edges := DuplicateEdges(codec, relations, cited);
    var id :| id in ClusterIds(relations) && x in MembersOf(relations, id) && y in MembersOf(relations, id);
    EveryCluster(relations, id);
    var k :| 0 <= k < |ClustersOf(relations)| && ClustersOf(relations)[k].clusterId == id;
    ClusterMembers(relations, k);
    var centre := ClustersOf(relations)[k].members[0];
    MemberJoined(codec, relations, cited, k, x);
    MemberJoined(codec, relations, cited, k, y);
    if x != centre {
      JoinedEitherWay(edges, centre, x);
      ConnectedStep(edges, w, x, centre);
    }
    if y != centre { ConnectedStep(edges, w, centre, y); }
  }

  lemma {:induction false} RelatedMeansConnected(codec: Codec, relations: seq<Relation>, cited: map<string, seq<string>>, p: seq<string>)
    requires codec.Faithful() && p != [] && RelatedAlong(relations, p)
    ensures Connected(DuplicateEdges(codec, relations, cited), p[0], p[|p| - 1])
    decreases |p|
  {
    hide DuplicateEdges, Connected, ShareCluster;
    if |p| == 1 {
      ConnectedSelf(DuplicateEdges(codec, relations, cited), p[0]);
    } else {
      var q := p[..|p| - 1];
      assert forall i :: 0 <= i < |q| ==> q[i] == p[i];
      RelatedMeansConnected(codec, relations, cited, q);
      assert ShareCluster(relations, p[|p| - 2], p[|p| - 2 + 1]);
      SharedMeansConnected(codec, relations, cited, p[0], p[|p| - 2], p[|p| - 1]);
    }
  }

  /** The stars connect two artifacts exactly when they are related by the closure of sharing a cluster. */
  lemma {:induction false} StarsPreserveClosure(codec: Codec, relations: seq<Relation>, cited: map<string, seq<string>>, x: string, y: string)
    requires codec.Faithful()
    ensures Connected(DuplicateEdges(codec, relations, cited), x, y) <==> Related(relations, x, y)
  {
    hide DuplicateEdges, ShareCluster, Joined;
    var edges := DuplicateEdges(codec, relations, cited);
    if Connected(edges, x, y) {
      var p :| Leads(p, x, y) && JoinedAlong(edges, p);
      forall i | 0 <= i < |p| - 1 ensures ShareCluster(relations, p[i], p[i + 1]) {
        JoinedMeansShared(codec, relations, cited, p[i], p[i + 1]);
      }
      assert RelatedAlong(relations, p);
    }
    if Related(relations, x, y) {
      var p :| Leads(p, x, y) && RelatedAlong(relations, p);
      RelatedMeansConnected(codec, relations, cited, p);
    }
  }

  /** The edge joins two different members of the cluster and records the cluster's hash. */
  ghost predicate JoinsMembers(relations: seq<Relation>, id: string, e: Edge) {
    && id in ClusterIds(relations) && e.source in MembersOf(relations, id) && e.target in MembersOf(relations, id) && e.source != e.target
    && e.edgeType == DuplicateOf && e.direction == Bidirectional
    && "content_hash" in e.properties && e.properties["content_hash"] == Word(HashOf(relations, id))
  }

  /** No edge joins an artifact to itself, and every edge joins members of one cluster under its hash. */
  lemma {:induction false} EdgesAreProper(codec: Codec, relations: seq<Relation>, cited: map<string, seq<string>>, e: Edge)
    requires e in DuplicateEdges(codec, relations, cited)
    ensures exists id :: JoinsMembers(relations, id, e)
  {
    hide DuplicateEdges, ClustersOf, MembersOf, ClusterIds, HashOf, IsSpoke;
    EdgeOrigin(codec, relations, cited, e);
    var k :| 0 <= k < |ClustersOf(relations)| && IsSpoke(codec, ClustersOf(relations)[k], e);
    var cluster := ClustersOf(relations)[k];
    SpokeEnds(codec, cluster, e);
    SpokeRecords(codec, cluster, e);
    ClusterMembers(relations, k);
    ClusterHash(relations, k);
    assert JoinsMembers(relations, cluster.clusterId, e);
  }

  lemma {:induction false} SpokeRecords(codec: Codec, cluster: Cluster, e: Edge)
    requires IsSpoke(codec, cluster, e)
    ensures e.edgeType == DuplicateOf && e.direction == Bidirectional
    ensures "content_hash" in e.properties && e.properties["content_hash"] == Word(cluster.contentHash)
  {
    hide DuplicateEdgeId;
  }

  lemma {:induction false} ClusterHash(relations: seq<Relation>, k: nat)
    requires k < |ClustersOf(relations)|
    ensures ClustersOf(relations)[k].contentHash == HashOf(relations, ClustersOf(relations)[k].clusterId)
  {
    hide HashOf, MembersOf;
  }

  // ---- How many edges ----

  /** The members beyond the first, over the first `n` clusters. */
  function Spokes(clusters: seq<Cluster>, n: nat): nat
    requires n <= |clusters|
  {
    if n == 0 then 0 else Spokes(clusters, n - 1) + if clusters[n - 1].members == [] then 0 else |clusters[n - 1].members| - 1
  }

  lemma {:induction false} JoiningAdds(codec: Codec, before: map<string, Edge>, cluster: Cluster, refs: seq<string>, n: nat)
    requires n <= |cluster.members|
    ensures |WithMembers(codec, before, cluster, refs, n)| <= |before| + if n == 0 then 0 else n - 1
  {
    hide StarEdge;
    if n > 0 {
      JoiningAdds(codec, before, cluster, refs, n - 1);
      var earlier := WithMembers(codec, before, cluster, refs, n - 1);
      OneKeyMore(earlier, StarEdge(codec, cluster, refs, cluster.members[n - 1]));
    }
  }

  lemma {:induction false} OneKeyMore(m: map<string, Edge>, e: Edge)
    ensures |m[e.edgeId := e]| == if e.edgeId in m then |m| else |m| + 1
  {
    var more := m[e.edgeId := e];
    assert more.Keys == m.Keys + {e.edgeId};
    assert |more.Keys| == |more| && |m.Keys| == |m|;
  }

  lemma {:induction false} AtMostSpokes(codec: Codec, relations: seq<Relation>, cited: map<string, seq<string>>, clusters: seq<Cluster>, n: nat)
    requires n <= |clusters|
    ensures |StarsOf(codec, relations, cited, clusters, n)| <= Spokes(clusters, n)
  {
    hide WithMembers, EvidenceList;
    if n > 0 {
      AtMostSpokes(codec, relations, cited, clusters, n - 1);
      var cluster := clusters[n - 1];
      JoiningAdds(codec, StarsOf(codec, relations, cited, clusters, n - 1), cluster, EvidenceList(relations, cited, cluster.clusterId), |cluster.members|);
    }
  }

  /** No artifact is in two clusters, and no member is listed twice. */
  ghost predicate Separate(clusters: seq<Cluster>) {
    && (forall k, l, x :: 0 <= k < l < |clusters| && x in clusters[k].members ==> x !in clusters[l].members)
    && (forall k, i, j :: 0 <= k < |clusters| && 0 <= i < j < |clusters[k].members| ==> clusters[k].members[i] != clusters[k].members[j])
  }

  ghost predicate SpokeBefore(codec: Codec, cluster: Cluster, refs: seq<string>, n: nat, id: string)
    requires n <= |cluster.members|
  {
    exists j :: 0 < j < n && id == StarEdge(codec, cluster, refs, cluster.members[j]).edgeId
  }

  lemma {:induction false} LaterSpokeIsNew(codec: Codec, cluster: Cluster, refs: seq<string>, n: nat)
    requires codec.Faithful() && 0 < n < |cluster.members|
    requires forall i, j :: 0 <= i < j < |cluster.members| ==> cluster.members[i] != cluster.members[j]
    ensures !SpokeBefore(codec, cluster, refs, n, StarEdge(codec, cluster, refs, cluster.members[n]).edgeId)
  {
    hide StarEdge;
    forall j | 0 < j < n
      ensures StarEdge(codec, cluster, refs, cluster.members[j]).edgeId != StarEdge(codec, cluster, refs, cluster.members[n]).edgeId
    {
      SpokesDiffer(codec, cluster, refs, j, n);
    }
  }

  lemma {:induction false} JoiningAddsEach(codec: Codec, before: map<string, Edge>, cluster: Cluster, refs: seq<string>, n: nat)
    requires codec.Faithful() && n <= |cluster.members|
    requires forall i, j :: 0 <= i < j < |cluster.members| ==> cluster.members[i] != cluster.members[j]
    requires forall j :: 0 < j < n ==> StarEdge(codec, cluster, refs, cluster.members[j]).edgeId !in before
    ensures |WithMembers(codec, before, cluster, refs, n)| == |before| + if n == 0 then 0 else n - 1
    ensures forall id :: id in WithMembers(codec, before, cluster, refs, n) ==> id in before || SpokeBefore(codec, cluster, refs, n, id)
  {
    hide *;
    if n == 0 {
      NobodyJoined(codec, before, cluster, refs);
    } else {
      JoiningAddsEach(codec, before, cluster, refs, n - 1);
      var earlier := WithMembers(codec, before, cluster, refs, n - 1);
      var e := StarEdge(codec, cluster, refs, cluster.members[n - 1]);
      LastJoined(codec, before, cluster, refs, n);
      OneKeyMore(earlier, e);
      MoreSpokes(codec, cluster, refs, n);
      if n > 1 { LaterSpokeIsNew(codec, cluster, refs, n - 1); }
    }
  }

  lemma {:induction false} NobodyJoined(codec: Codec, before: map<string, Edge>, cluster: Cluster, refs: seq<string>)
    ensures WithMembers(codec, before, cluster, refs, 0) == before
  {
  }

  lemma {:induction false} LastJoined(codec: Codec, before: map<string, Edge>, cluster: Cluster, refs: seq<string>, n: nat)
    requires 0 < n <= |cluster.members|
    requires forall i, j :: 0 <= i < j < |cluster.members| ==> cluster.members[i] != cluster.members[j]
    ensures var earlier, e := WithMembers(codec, before, cluster, refs, n - 1), StarEdge(codec, cluster, refs, cluster.members[n - 1]);
      WithMembers(codec, before, cluster, refs, n) == if n == 1 then earlier else earlier[e.edgeId := e]
  {
    hide StarEdge;
  }

  lemma {:induction false} MoreSpokes(codec: Codec, cluster: Cluster, refs: seq<string>, n: nat)
    requires 0 < n <= |cluster.members|
    ensures forall id :: SpokeBefore(codec, cluster, refs, n, id) <==>
      SpokeBefore(codec, cluster, refs, n - 1, id) || (n > 1 && id == StarEdge(codec, cluster, refs, cluster.members[n - 1]).edgeId)
  {
    hide StarEdge;
  }

  lemma {:induction false} SpokesDiffer(codec: Codec, cluster: Cluster, refs: seq<string>, i: nat, j: nat)
    requires codec.Faithful() && 0 < i < j < |cluster.members|
    requires forall i, j :: 0 <= i < j < |cluster.members| ==> cluster.members[i] != cluster.members[j]
    ensures StarEdge(codec, cluster, refs, cluster.members[i]).edgeId != StarEdge(codec, cluster, refs, cluster.members[j]).edgeId
  {
    hide StarEdge, DuplicateEdgeId;
    var centre, x, y := cluster.members[0], cluster.members[i], cluster.members[j];
    SpokeId(codec, cluster, refs, x);
    SpokeId(codec, cluster, refs, y);
    DuplicateEdgeIdIdentifies(codec, centre, x, cluster.contentHash, centre, y, cluster.contentHash);
    assert x in {centre, x} && x !in {centre, y};
  }

  lemma {:induction false} ExactlySpokes(codec: Codec, relations: seq<Relation>, cited: map<string, seq<string>>, clusters: seq<Cluster>, n: nat)
    requires codec.Faithful() && n <= |clusters| && Separate(clusters)
    ensures |StarsOf(codec, relations, cited, clusters, n)| == Spokes(clusters, n)
  {
    hide WithMembers, EvidenceList, StarEdge;
    if n > 0 {
      ExactlySpokes(codec, relations, cited, clusters, n - 1);
      var cluster, before := clusters[n - 1], StarsOf(codec, relations, cited, clusters, n - 1);
      var refs := EvidenceList(relations, cited, cluster.clusterId);
      forall j | 0 < j < |cluster.members| ensures StarEdge(codec, cluster, refs, cluster.members[j]).edgeId !in before {
        NewSpoke(codec, relations, cited, clusters, n, refs, j);
      }
      JoiningAddsEach(codec, before, cluster, refs, |cluster.members|);
    }
  }

  lemma {:induction false} NewSpoke(
      codec: Codec, relations: seq<Relation>, cited: map<string, seq<string>>, clusters: seq<Cluster>, n: nat, refs: seq<string>, j: nat)
    requires codec.Faithful() && 0 < n <= |clusters| && Separate(clusters) && 0 < j < |clusters[n - 1].members|
    ensures StarEdge(codec, clusters[n - 1], refs, clusters[n - 1].members[j]).edgeId !in StarsOf(codec, relations, cited, clusters, n - 1)
  {
    hide StarEdge, DuplicateEdgeId, StarsOf;
    var cluster, before := clusters[n - 1], StarsOf(codec, relations, cited, clusters, n - 1);
    var centre, x := cluster.members[0], cluster.members[j];
    var id := StarEdge(codec, cluster, refs, x).edgeId;
    SpokeId(codec, cluster, refs, x);
    if id in before {
      EdgesAreSpokes(codec, relations, cited, clusters, n - 1, id);
      var e := before[id];
      var k :| 0 <= k < n - 1 && IsSpoke(codec, clusters[k], e);
      NotAnothersSpoke(codec, clusters, k, n - 1, j, e);
    }
  }

  lemma {:induction false} NotAnothersSpoke(codec: Codec, clusters: seq<Cluster>, k: nat, l: nat, j: nat, e: Edge)
    requires codec.Faithful() && k < l < |clusters| && Separate(clusters) && 0 < j < |clusters[l].members| && IsSpoke(codec, clusters[k], e)
    ensures e.edgeId != DuplicateEdgeId(codec, clusters[l].members[0], clusters[l].members[j], clusters[l].contentHash)
  {
    hide DuplicateEdgeId, IsSpoke;
    var cluster := clusters[l];
    SpokeEnds(codec, clusters[k], e);
    InPair(e.source, e.target, cluster.members[0], cluster.members[j]);
    if e.edgeId == DuplicateEdgeId(codec, cluster.members[0], cluster.members[j], cluster.contentHash) {
      SameSpoke(codec, cluster.members[0], cluster.members[j], cluster.contentHash, clusters[k], e);
    }
  }

  lemma {:induction false} InPair(x: string, y: string, u: string, v: string)
    ensures {x, y} == {u, v} ==> v == x || v == y
  {
    assert v in {u, v};
  }

  /** There are at most as many edges as members beyond the first of each cluster, and exactly as many
      when no artifact is in two clusters. */
  lemma {:induction false} EdgeCount(codec: Codec, relations: seq<Relation>, cited: map<string, seq<string>>)
    ensures |DuplicateEdges(codec, relations, cited)| <= Spokes(ClustersOf(relations), |ClustersOf(relations)|)
    ensures codec.Faithful() && InOneClusterEach(relations) ==>
      |DuplicateEdges(codec, relations, cited)| == Spokes(ClustersOf(relations), |ClustersOf(relations)|)
  {
    hide StarsOf, ClustersOf, MembersOf, ClusterIds, Separate;
    var clusters := ClustersOf(relations);
    AtMostSpokes(codec, relations, cited, clusters, |clusters|);
    if codec.Faithful() && InOneClusterEach(relations) {
      ClustersSeparate(relations);
      ExactlySpokes(codec, relations, cited, clusters, |clusters|);
    }
  }

  ghost predicate InOneClusterEach(relations: seq<Relation>) {
    forall i, j, x :: i in ClusterIds(relations) && j in ClusterIds(relations) && x in MembersOf(relations, i) && x in MembersOf(relations, j) ==> i == j
  }

  lemma {:induction false} ClustersSeparate(relations: seq<Relation>)
    requires InOneClusterEach(relations)
    ensures Separate(ClustersOf(relations))
  {
    hide MembersOf, ClusterIds, ClustersFor, HashOf;
    var clusters := ClustersOf(relations);
    var ids := SortedIds(ClusterIds(relations));
    forall k, l, x | 0 <= k < l < |clusters| && x in clusters[k].members ensures x !in clusters[l].members {
      assert Less(ids[k], ids[l]);
    }
    forall k, i, j | 0 <= k < |clusters| && 0 <= i < j < |clusters[k].members| ensures clusters[k].members[i] != clusters[k].members[j] {
      assert Less(clusters[k].members[i], clusters[k].members[j]);
    }
  }

  // ---- Order and orientation ----

  /** What a relation says, whichever endpoint is written first. */
  datatype Face = Face(relationId: string, clusterId: string, ends: set<string>, contentHash: string)

  function FaceOf(r: Relation): Face { Face(r.relationId, r.clusterId, {r.a, r.b}, r.contentHash) }

  function Faces(relations: seq<Relation>): set<Face> { set r | r in relations :: FaceOf(r) }

  /** A cluster's relations carry one hash. */
  ghost predicate OneHashEach(relations: seq<Relation>) {
    forall r, s :: r in relations && s in relations && r.clusterId == s.clusterId ==> r.contentHash == s.contentHash
  }

  lemma {:induction false} HashIsARelations(relations: seq<Relation>, id: string)
    requires id in ClusterIds(relations)
    ensures exists r :: r in relations && r.clusterId == id && r.contentHash == HashOf(relations, id)
  {
    var n := |relations| - 1;
    assert relations == relations[..n] + [relations[n]];
    if relations[n].clusterId != id { HashIsARelations(relations[..n], id); }
  }

  lemma {:induction false} FacesDecide(xs: seq<Relation>, ys: seq<Relation>, cited: map<string, seq<string>>, id: string)
    requires Faces(xs) <= Faces(ys)
    ensures ClusterIds(xs) <= ClusterIds(ys) && MembersOf(xs, id) <= MembersOf(ys, id)
    ensures EvidenceOf(xs, cited, id) <= EvidenceOf(ys, cited, id)
  {
    forall r | r in xs
      ensures exists s :: s in ys && s.clusterId == r.clusterId && s.relationId == r.relationId && r.a in {s.a, s.b} && r.b in {s.a, s.b}
    {
      assert FaceOf(r) in Faces(ys);
      var s :| s in ys && FaceOf(s) == FaceOf(r);
      assert r.a in {r.a, r.b} && r.b in {r.a, r.b};
    }
  }

  lemma {:induction false} FacesDecideHash(xs: seq<Relation>, ys: seq<Relation>, id: string)
    requires Faces(xs) == Faces(ys) && OneHashEach(xs) && id in ClusterIds(xs)
    ensures HashOf(xs, id) == HashOf(ys, id)
  {
    FacesDecide(xs, ys, map[], id);
    HashIsARelations(xs, id);
    HashIsARelations(ys, id);
    var r :| r in xs && r.clusterId == id && r.contentHash == HashOf(xs, id);
    var s :| s in ys && s.clusterId == id && s.contentHash == HashOf(ys, id);
    assert FaceOf(s) in Faces(xs);
  }

  /** Relations with the same faces have the same clusters, members and evidence. */
  lemma {:induction false} FacesEqual(xs: seq<Relation>, ys: seq<Relation>, cited: map<string, seq<string>>, id: string)
    requires Faces(xs) == Faces(ys)
    ensures ClusterIds(xs) == ClusterIds(ys) && MembersOf(xs, id) == MembersOf(ys, id) && EvidenceOf(xs, cited, id) == EvidenceOf(ys, cited, id)
  {
    hide *;
    FacesDecide(xs, ys, cited, id);
    FacesDecide(ys, xs, cited, id);
  }

  lemma {:induction false} SameCluster(xs: seq<Relation>, ys: seq<Relation>, id: string)
    requires Faces(xs) == Faces(ys) && OneHashEach(xs) && id in ClusterIds(xs)
    ensures ClusterOf(xs, id) == ClusterOf(ys, id)
  {
    hide MembersOf, HashOf, ClusterIds, Faces, OneHashEach;
    FacesEqual(xs, ys, map[], id);
    FacesDecideHash(xs, ys, id);
  }

  lemma {:induction false} SameClusters(xs: seq<Relation>, ys: seq<Relation>, ids: seq<string>)
    requires Faces(xs) == Faces(ys) && OneHashEach(xs) && forall i :: 0 <= i < |ids| ==> ids[i] in ClusterIds(xs)
    ensures ClustersFor(xs, ids) == ClustersFor(ys, ids)
  {
    hide *;
    forall i | 0 <= i < |ids| ensures ClusterOf(xs, ids[i]) == ClusterOf(ys, ids[i]) { SameCluster(xs, ys, ids[i]); }
    assert |ClustersFor(xs, ids)| == |ClustersFor(ys, ids)|;
  }

  lemma {:induction false} SameStars(
      codec: Codec, xs: seq<Relation>, ys: seq<Relation>, cited: map<string, seq<string>>, clusters: seq<Cluster>, n: nat)
    requires Faces(xs) == Faces(ys) && n <= |clusters|
    ensures StarsOf(codec, xs, cited, clusters, n) == StarsOf(codec, ys, cited, clusters, n)
  {
    hide *;
    MoreStars(codec, xs, cited, clusters, if n == 0 then 0 else n - 1);
    MoreStars(codec, ys, cited, clusters, if n == 0 then 0 else n - 1);
    if n > 0 {
      SameStars(codec, xs, ys, cited, clusters, n - 1);
      FacesEqual(xs, ys, cited, clusters[n - 1].clusterId);
    }
  }

  /** With one hash per cluster, neither the order or repetition of the relations nor the order of
      their endpoints reaches the edges. */
  lemma {:induction false} OrientationIrrelevant(codec: Codec, xs: seq<Relation>, ys: seq<Relation>, cited: map<string, seq<string>>)
    requires Faces(xs) == Faces(ys) && OneHashEach(xs)
    ensures DuplicateEdges(codec, xs, cited) == DuplicateEdges(codec, ys, cited)
  {
    var ids := SortedIds(ClusterIds(xs));
    hide StarsOf, ClustersFor, ClusterIds, Faces, OneHashEach, MembersOf, InKeyOrder;
    FacesEqual(xs, ys, cited, "");
    SameClusters(xs, ys, ids);
    SameStars(codec, xs, ys, cited, ClustersOf(xs), |ClustersOf(xs)|);
  }
}
