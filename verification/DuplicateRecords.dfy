/** What each duplicate edge records, read off the relations that came in (topology/duplicates.py). */
module DuplicateRecords {
  import opened Wrappers
  import opened Ordering
  import opened CanonicalHash
  import opened Domain
  import opened Duplicates

  // ---- The clusters in the relations ----

  ghost predicate BelongsTo(relations: seq<Relation>, id: string, x: string) {
    exists r :: r in relations && r.clusterId == id && (r.a == x || r.b == x)
  }

  ghost predicate IsLeast(relations: seq<Relation>, id: string, x: string) {
    BelongsTo(relations, id, x) && forall y :: BelongsTo(relations, id, y) ==> Leq(x, y)
  }

  ghost predicate IsLastOf(relations: seq<Relation>, id: string, i: nat) {
    i < |relations| && relations[i].clusterId == id && forall j :: i < j < |relations| ==> relations[j].clusterId != id
  }

  /** The last relation of the cluster carries this hash. */
  ghost predicate Hashed(relations: seq<Relation>, id: string, contentHash: string) {
    exists i: nat :: IsLastOf(relations, id, i) && relations[i].contentHash == contentHash
  }

  /** A relation of the cluster cites this evidence. */
  ghost predicate CitedIn(relations: seq<Relation>, cited: map<string, seq<string>>, id: string, ref: string) {
    exists r :: r in relations && r.clusterId == id && r.relationId in cited && ref in cited[r.relationId]
  }

  lemma {:induction false} MembersMean(relations: seq<Relation>, id: string, x: string)
    ensures x in MembersOf(relations, id) <==> BelongsTo(relations, id, x)
  {
  }

  lemma {:induction false} HashMeans(relations: seq<Relation>, id: string)
    requires id in ClusterIds(relations)
    ensures Hashed(relations, id, HashOf(relations, id))
  {
    var n := |relations| - 1;
    if relations[n].clusterId == id {
      assert IsLastOf(relations, id, n);
    } else {
      assert relations == relations[..n] + [relations[n]];
      HashMeans(relations[..n], id);
      var i: nat :| IsLastOf(relations[..n], id, i) && relations[..n][i].contentHash == HashOf(relations[..n], id);
      assert IsLastOf(relations, id, i);
    }
  }

  lemma {:induction false} EvidenceMeans(relations: seq<Relation>, cited: map<string, seq<string>>, id: string, ref: string)
    ensures ref in EvidenceList(relations, cited, id) <==> CitedIn(relations, cited, id, ref)
    ensures Ascending(EvidenceList(relations, cited, id))
  {
    if r :| r in relations && r.clusterId == id && r.relationId in cited && ref in cited[r.relationId] {
      assert ref in EvidenceOf(relations, cited, id);
    }
  }

  lemma {:induction false} FirstIsLeast(relations: seq<Relation>, id: string)
    requires MembersOf(relations, id) != {}
    ensures var members := SortedIds(MembersOf(relations, id)); members != [] && IsLeast(relations, id, members[0])
  {
    hide MembersOf;
    var members := SortedIds(MembersOf(relations, id));
    var some :| some in MembersOf(relations, id);
    assert some in members;
    MembersMean(relations, id, members[0]);
    forall y | BelongsTo(relations, id, y) ensures Leq(members[0], y) {
      MembersMean(relations, id, y);
      var j :| 0 <= j < |members| && members[j] == y;
      if j > 0 { assert Less(members[0], members[j]); } else { LeqTotal(y, y); }
    }
  }

  // ---- The edges ----

  /** The edge joins the j-th member of a cluster to the first, on the cluster's evidence. */
  ghost predicate IsStar(codec: Codec, relations: seq<Relation>, cited: map<string, seq<string>>, cluster: Cluster, e: Edge) {
    exists j :: 0 <= j < |cluster.members| && cluster.members[j] != cluster.members[0]
                && e == StarEdge(codec, cluster, EvidenceList(relations, cited, cluster.clusterId), cluster.members[j])
  }

  lemma {:induction false} StarsOnly(
      codec: Codec, relations: seq<Relation>, cited: map<string, seq<string>>, before: map<string, Edge>, cluster: Cluster, n: nat, id: string)
    requires n <= |cluster.members|
    requires id in WithMembers(codec, before, cluster, EvidenceList(relations, cited, cluster.clusterId), n)
    ensures var e := WithMembers(codec, before, cluster, EvidenceList(relations, cited, cluster.clusterId), n)[id];
      (id in before && e == before[id]) || IsStar(codec, relations, cited, cluster, e)
  {
    hide StarEdge, EvidenceList;
    if n > 0 {
      var m, refs := cluster.members[n - 1], EvidenceList(relations, cited, cluster.clusterId);
      var e := StarEdge(codec, cluster, refs, m);
      if m == cluster.members[0] || e.edgeId != id { StarsOnly(codec, relations, cited, before, cluster, n - 1, id); }
    }
  }

  lemma {:induction false} EdgesAreStars(
      codec: Codec, relations: seq<Relation>, cited: map<string, seq<string>>, clusters: seq<Cluster>, n: nat, id: string)
    requires n <= |clusters| && id in StarsOf(codec, relations, cited, clusters, n)
    ensures var e := StarsOf(codec, relations, cited, clusters, n)[id];
      exists k :: 0 <= k < n && IsStar(codec, relations, cited, clusters[k], e)
  {
    hide WithMembers, IsStar, EvidenceList;
    var cluster := clusters[n - 1];
    var before := StarsOf(codec, relations, cited, clusters, n - 1);
    StarsOnly(codec, relations, cited, before, cluster, |cluster.members|, id);
    var e := StarsOf(codec, relations, cited, clusters, n)[id];
    if id in before && e == before[id] {
      EdgesAreStars(codec, relations, cited, clusters, n - 1, id);
    } else {
      assert IsStar(codec, relations, cited, clusters[n - 1], e);
    }
  }

  /** The edge joins the least member of the cluster to another one, and records the cluster, its hash, its size and
      its arbitrary representative, on the evidence of all its relations. */
  ghost predicate Records(codec: Codec, relations: seq<Relation>, cited: map<string, seq<string>>, id: string, contentHash: string, e: Edge) {
    && Hashed(relations, id, contentHash) && IsLeast(relations, id, e.source) && BelongsTo(relations, id, e.target) && e.source != e.target
    && e.edgeId == DuplicateEdgeId(codec, e.source, e.target, contentHash) && e.edgeType == DuplicateOf && e.direction == Bidirectional
    && e.properties == map[
         "duplicate_cluster_id" := Word(id), "content_hash" := Word(contentHash), "method" := Word("content-hash-equality/v1"),
         "cluster_member_count" := Count(|MembersOf(relations, id)|), "representative_artifact_id" := Word(e.source),
         "representative_is_arbitrary" := Flag(true)]
    && Ascending(e.evidenceRefs) && (forall ref :: ref in e.evidenceRefs <==> CitedIn(relations, cited, id, ref))
    && e.confidence == Confidence(High, Direct, Deterministic, ValidatedMachine, Complete, NoConflict)
  }

  lemma {:induction false} StarSays(codec: Codec, cluster: Cluster, refs: seq<string>, member: string)
    requires cluster.members != [] && Leq(cluster.members[0], member)
    ensures var e := StarEdge(codec, cluster, refs, member);
      && e.source == cluster.members[0] && e.target == member && e.edgeType == DuplicateOf && e.direction == Bidirectional && e.evidenceRefs == refs
      && e.edgeId == DuplicateEdgeId(codec, e.source, e.target, cluster.contentHash)
      && e.properties == map[
           "duplicate_cluster_id" := Word(cluster.clusterId), "content_hash" := Word(cluster.contentHash),
           "method" := Word("content-hash-equality/v1"), "cluster_member_count" := Count(|cluster.members|),
           "representative_artifact_id" := Word(cluster.members[0]), "representative_is_arbitrary" := Flag(true)]
      && e.confidence == Confidence(High, Direct, Deterministic, ValidatedMachine, Complete, NoConflict)
  {
    hide DuplicateEdgeId;
  }

  lemma {:induction false} FirstComesFirst(ids: seq<string>, j: nat)
    requires Ascending(ids) && j < |ids| && ids[j] != ids[0]
    ensures Leq(ids[0], ids[j])
  {
  }

  lemma {:induction false} StarRecordsCluster(
      codec: Codec, relations: seq<Relation>, cited: map<string, seq<string>>, k: nat, e: Edge)
    requires k < |ClustersOf(relations)| && IsStar(codec, relations, cited, ClustersOf(relations)[k], e)
    ensures var cluster := ClustersOf(relations)[k]; Records(codec, relations, cited, cluster.clusterId, cluster.contentHash, e)
  {
    hide StarEdge, EvidenceList, ClustersOf, DuplicateEdgeId, Hashed, IsLeast, BelongsTo, CitedIn, MembersOf, ClusterIds, SortedIds, Leq, HashOf,
         Ascending;
    var cluster := ClustersOf(relations)[k];
    var id := cluster.clusterId;
    var refs := EvidenceList(relations, cited, id);
    var j :| 0 <= j < |cluster.members| && cluster.members[j] != cluster.members[0] && e == StarEdge(codec, cluster, refs, cluster.members[j]);
    ClusterMembers(relations, k);
    ClusterHash(relations, k);
    HashMeans(relations, id);
    assert cluster.members[j] in MembersOf(relations, id);
    FirstIsLeast(relations, id);
    MembersMean(relations, id, cluster.members[j]);
    FirstComesFirst(cluster.members, j);
    StarSays(codec, cluster, refs, cluster.members[j]);
    forall ref ensures ref in refs <==> CitedIn(relations, cited, id, ref) { EvidenceMeans(relations, cited, id, ref); }
    EvidenceMeans(relations, cited, id, "");
  }

  /** Every duplicate edge records one of the clusters in full. */
  lemma {:induction false} EdgesRecordTheirCluster(codec: Codec, relations: seq<Relation>, cited: map<string, seq<string>>, e: Edge)
    requires e in DuplicateEdges(codec, relations, cited)
    ensures exists id, contentHash :: Records(codec, relations, cited, id, contentHash, e)
  {
    hide StarsOf, ClustersOf, IsStar, Records;
    var table := DuplicateTable(codec, relations, cited);
    var id :| id in table && table[id] == e;
    EdgesAreStars(codec, relations, cited, ClustersOf(relations), |ClustersOf(relations)|, id);
    var k :| 0 <= k < |ClustersOf(relations)| && IsStar(codec, relations, cited, ClustersOf(relations)[k], e);
    StarRecordsCluster(codec, relations, cited, k, e);
  }
}
