/** Which repository a dependency names, and what the aggregated records, conflicts and unknowns hold, read off
    the records that came in (stages/aggregate_repositories.py). */
module AggregatedRecords {
  import opened Wrappers
  import opened Ordering
  import opened Texts
  import opened CanonicalHash
  import opened Identities
  import opened Domain
  import opened Aggregation

  // ---- Names ----

  /** The identity without its scheme is, in lower case, this name. */
  ghost predicate IdCalls(id: string, name: string) {
    if "repo:" <= id then exists rest :: id == "repo:" + rest && Lower(rest) == name else Lower(id) == name
  }

  ghost predicate Called(r: Repository, name: string) { Lower(r.name) == name || IdCalls(r.repositoryId, name) }

  ghost predicate IsLastCalled(merged: seq<Repository>, name: string, i: nat) {
    i < |merged| && Called(merged[i], name) && forall j :: i < j < |merged| ==> !Called(merged[j], name)
  }

  /** The last repository that is called so has this identity. */
  ghost predicate Names(merged: seq<Repository>, name: string, id: string) {
    exists i: nat :: IsLastCalled(merged, name, i) && merged[i].repositoryId == id
  }

  lemma {:induction false} IdCallsMeans(id: string, name: string)
    ensures IdCalls(id, name) <==> Lower(WithoutPrefix(id)) == name
  {
    if "repo:" <= id {
      assert id == "repo:" + id[5..];
      forall rest | id == "repo:" + rest ensures rest == id[5..] { assert ("repo:" + rest)[5..] == rest; }
    }
  }

  lemma {:induction false} NamesOfMore(merged: seq<Repository>, name: string, id: string)
    requires merged != []
    ensures var n := |merged| - 1;
      Names(merged, name, id) <==> if Called(merged[n], name) then merged[n].repositoryId == id else Names(merged[..n], name, id)
  {
    hide Called;
    var n := |merged| - 1;
    if Called(merged[n], name) {
      assert IsLastCalled(merged, name, n);
    } else {
      if i: nat :| IsLastCalled(merged[..n], name, i) && merged[..n][i].repositoryId == id { assert IsLastCalled(merged, name, i); }
      if i: nat :| IsLastCalled(merged, name, i) && merged[i].repositoryId == id { assert IsLastCalled(merged[..n], name, i); }
    }
  }

  lemma {:induction false} NobodyNamed(name: string, id: string)
    ensures !Names([], name, id)
  {
  }

  lemma {:induction false} LookupMeans(merged: seq<Repository>, name: string, id: string)
    ensures Names(merged, name, id) <==> name in Lookup(merged) && Lookup(merged)[name] == id
  {
    hide Names, Lower, WithoutPrefix, IdCalls;
    if merged == [] {
      NobodyNamed(name, id);
    } else {
      var n := |merged| - 1;
      NamesOfMore(merged, name, id);
      IdCallsMeans(merged[n].repositoryId, name);
      LookupMeans(merged[..n], name, id);
    }
  }

  // ---- What a dependency names ----

  /** The dependency names the repository: with dashes for underscores, or as written when nobody is called that. */
  ghost predicate Points(merged: seq<Repository>, dependency: string, id: string) {
    && id != ""
    && if NamesSome(merged, Dashed(Lower(dependency))) then Names(merged, Dashed(Lower(dependency)), id)
       else Names(merged, Lower(dependency), id)
  }

  ghost predicate NamesSome(merged: seq<Repository>, name: string) { exists id :: id != "" && Names(merged, name, id) }

  lemma {:induction false} PointsMeans(merged: seq<Repository>, dependency: string, id: string)
    ensures Points(merged, dependency, id) <==> id != "" && TargetOf(Lookup(merged), dependency) == id
  {
    hide Names, Lookup, Lower, Dashed;
    var lookup, dashed, plain := Lookup(merged), Dashed(Lower(dependency)), Lower(dependency);
    forall x ensures Names(merged, dashed, x) <==> dashed in lookup && lookup[dashed] == x { LookupMeans(merged, dashed, x); }
    LookupMeans(merged, plain, id);
    assert NamesSome(merged, dashed) <==> dashed in lookup && lookup[dashed] != "" by {
      if dashed in lookup && lookup[dashed] != "" { assert Names(merged, dashed, lookup[dashed]); }
    }
  }

  /** The dependency names a repository other than its own. */
  ghost predicate PointsElsewhere(merged: seq<Repository>, own: string, dependency: string) {
    exists t :: t != own && Points(merged, dependency, t)
  }

  lemma {:induction false} ResolvesMeans(merged: seq<Repository>, r: Repository, dependency: string, t: string)
    ensures Resolves(Lookup(merged), r, dependency) <==> PointsElsewhere(merged, r.repositoryId, dependency)
    ensures Resolves(Lookup(merged), r, dependency) && TargetOf(Lookup(merged), dependency) == t <==>
      t != r.repositoryId && Points(merged, dependency, t)
  {
    hide Points, TargetOf, Lookup;
    var target := TargetOf(Lookup(merged), dependency);
    PointsMeans(merged, dependency, t);
    PointsMeans(merged, dependency, target);
    if PointsElsewhere(merged, r.repositoryId, dependency) {
      var x :| x != r.repositoryId && Points(merged, dependency, x);
      PointsMeans(merged, dependency, x);
    }
  }

  // ---- The final records ----

  /** Some record of the identity declares a dependency that names the other repository. */
  ghost predicate Needs(records: seq<Repository>, merged: seq<Repository>, id: string, t: string) {
    exists d :: Lists(records, id, UnresolvedOf, d) && Points(merged, d, t)
  }

  /** A final record, but for its dependencies, is the merged one. */
  lemma {:induction false} KeepsTheRest(codec: Codec, records: seq<Repository>, i: nat)
    requires i < |MergedRecords(codec, records)|
    ensures var r, f := MergedRecords(codec, records)[i], Aggregated(codec, records).repositories[i];
      f == r.(upstream := f.upstream, unresolved := f.unresolved, downstream := f.downstream)
    ensures |Aggregated(codec, records).repositories| == |MergedRecords(codec, records)|
  {
    hide Lookup, Links, MergedRecords, AllUnknowns, Aggregation.ConflictsFor, ResolvedRecords, Targets, Left, Dependents;
    var merged := MergedRecords(codec, records);
    ResolvedAt(Lookup(merged), Links(Lookup(merged), merged), merged, i);
  }

  lemma {:induction false} FinalAt(codec: Codec, records: seq<Repository>, i: nat, d: string)
    requires i < |MergedRecords(codec, records)|
    ensures |Aggregated(codec, records).repositories| == |MergedRecords(codec, records)|
    ensures var merged, f := MergedRecords(codec, records), Aggregated(codec, records).repositories[i];
      var lookup, r := Lookup(merged), merged[i];
      d in f.unresolved <==> d in r.unresolved && d != "" && !Resolves(lookup, r, d)
  {
    hide Lookup, Links, MergedRecords, AllUnknowns, Aggregation.ConflictsFor, ResolvedRecords, Targets, Left, Dependents, Resolves, SortBy;
    var merged := MergedRecords(codec, records);
    var lookup := Lookup(merged);
    ResolvedAt(lookup, Links(lookup, merged), merged, i);
    var left := Left(lookup, merged[i], merged[i].unresolved);
    SameMembers(SortBy(left, Self), left, d);
    LeftMembers(lookup, merged[i], merged[i].unresolved, d);
  }

  lemma {:induction false} TargetsAre(records: seq<Repository>, merged: seq<Repository>, r: Repository, t: string)
    requires forall d :: d in r.unresolved <==> Lists(records, r.repositoryId, UnresolvedOf, d)
    ensures t in Targets(Lookup(merged), r, r.unresolved) <==> t != r.repositoryId && Needs(records, merged, r.repositoryId, t)
  {
    hide Targets, Lookup, Points, Resolves, TargetOf, Lists;
    TargetsMeaning(Lookup(merged), r, r.unresolved, t);
    forall d ensures Resolves(Lookup(merged), r, d) && TargetOf(Lookup(merged), d) == t <==> t != r.repositoryId && Points(merged, d, t) {
      ResolvesMeans(merged, r, d, t);
    }
  }

  lemma {:induction false} DeclaredDependencies(codec: Codec, records: seq<Repository>, i: nat)
    requires i < |MergedRecords(codec, records)|
    ensures var r := MergedRecords(codec, records)[i]; forall d :: d in r.unresolved <==> Lists(records, r.repositoryId, UnresolvedOf, d)
  {
    hide MergedRecords, Lists;
    var r := MergedRecords(codec, records)[i];
    forall d ensures d in r.unresolved <==> Lists(records, r.repositoryId, UnresolvedOf, d) { MergingUnites(codec, records, i, d, "languages"); }
  }

  /** What an aggregated repository depends on, is depended on by and leaves unresolved, in terms of the records
      that came in: an upstream is one some record of it lists, or another repository that a dependency some
      record of it declares names; a dependency that names no other repository stays unresolved unless empty;
      a downstream is another repository that declares a dependency naming this one. */
  lemma {:induction false} DependenciesExactly(codec: Codec, records: seq<Repository>, i: nat, x: string)
    requires i < |Aggregated(codec, records).repositories|
    ensures var merged, f := MergedRecords(codec, records), Aggregated(codec, records).repositories[i];
      var id := f.repositoryId;
      && (x in f.upstream <==> Lists(records, id, UpstreamOf, x) || (x != id && Needs(records, merged, id, x)))
      && (x in f.unresolved <==> Lists(records, id, UnresolvedOf, x) && x != "" && !PointsElsewhere(merged, id, x))
      && (x in f.downstream <==> x != id && x in RepositoryIds(records) && Needs(records, merged, x, id))
  {
    hide Lookup, Links, MergedRecords, Targets, Dependents, Resolves, Lists, PointsElsewhere, Needs, RepositoryIds, ResolvedRecords;
    ResolvedLength(codec, records);
    var merged := MergedRecords(codec, records);
    var lookup, r := Lookup(merged), merged[i];
    KeepsTheRest(codec, records, i);
    FinalAt(codec, records, i, x);
    DeclaredDependencies(codec, records, i);
    ResolvesMeans(merged, r, x, "");
    TargetsAre(records, merged, r, x);
    FinalUpstream(codec, records, i, x);
    FinalDownstream(codec, records, i, x);
  }

  lemma {:induction false} ResolvedLength(codec: Codec, records: seq<Repository>)
    ensures |Aggregated(codec, records).repositories| == |MergedRecords(codec, records)|
  {
    hide MergedRecords, Lookup, Links, AllUnknowns, Aggregation.ConflictsFor;
  }

  lemma {:induction false} FinalUpstream(codec: Codec, records: seq<Repository>, i: nat, x: string)
    requires i < |MergedRecords(codec, records)| == |Aggregated(codec, records).repositories|
    ensures var merged := MergedRecords(codec, records);
      x in Aggregated(codec, records).repositories[i].upstream <==>
        Lists(records, merged[i].repositoryId, UpstreamOf, x) || x in Targets(Lookup(merged), merged[i], merged[i].unresolved)
  {
    hide Lookup, Links, MergedRecords, Targets, Lists, ResolvedRecords, Dependents, AllUnknowns, Aggregation.ConflictsFor;
    var merged := MergedRecords(codec, records);
    ResolvedMembers(Lookup(merged), Links(Lookup(merged), merged), merged, i);
    MergingUnites(codec, records, i, x, "languages");
  }

  lemma {:induction false} FinalDownstream(codec: Codec, records: seq<Repository>, j: nat, x: string)
    requires j < |MergedRecords(codec, records)| == |Aggregated(codec, records).repositories|
    ensures var merged := MergedRecords(codec, records);
      var id := merged[j].repositoryId;
      x in Aggregated(codec, records).repositories[j].downstream <==> x != id && x in RepositoryIds(records) && Needs(records, merged, x, id)
  {
    hide Lookup, Links, MergedRecords, Targets, Lists, ResolvedRecords, Dependents, AllUnknowns, Aggregation.ConflictsFor, RepositoryIds, Needs;
    var merged := MergedRecords(codec, records);
    var lookup := Lookup(merged);
    var id := merged[j].repositoryId;
    ResolvedMembers(lookup, Links(lookup, merged), merged, j);
    DependentsMeaning(Links(lookup, merged), id, x);
    LinksMeaning(lookup, merged, id, x);
    OneRecordEach(codec, records);
    if x in RepositoryIds(records) {
      var r :| r in merged && r.repositoryId == x;
      var i :| 0 <= i < |merged| && merged[i] == r;
      LinkOf(lookup, merged, i, id);
      DeclaredDependencies(codec, records, i);
      TargetsAre(records, merged, merged[i], id);
    }
  }

  /** An aggregated repository is named, and was observed at the revision, as in the first record of it; its
      owners, evidence and facts are those of all of them. */
  lemma {:induction false} RestExactly(codec: Codec, records: seq<Repository>, i: nat, x: string, fact: string)
    requires i < |Aggregated(codec, records).repositories| && fact in FACT_NAMES
    ensures var f := Aggregated(codec, records).repositories[i];
      && (exists j: nat :: IsFirst(records, f.repositoryId, j) && f.name == records[j].name && f.revision == records[j].revision)
      && (x in f.owners <==> Lists(records, f.repositoryId, OwnersOf, x))
      && (x in f.evidenceRefs <==> Lists(records, f.repositoryId, EvidenceOf, x))
      && (x in FactOf(f, fact) <==> ListsFact(records, f.repositoryId, fact, x))
  {
    hide MergedRecords, Lists, ListsFact, FACT_NAMES, IsFirst;
    ResolvedLength(codec, records);
    KeepsTheRest(codec, records, i);
    MergingUnites(codec, records, i, x, fact);
    MergedIsFirst(codec, records, i);
  }

  ghost predicate IsFirst(records: seq<Repository>, id: string, j: nat) {
    j < |records| && records[j].repositoryId == id && forall k :: 0 <= k < j ==> records[k].repositoryId != id
  }

  lemma {:induction false} GroupStarts(records: seq<Repository>, id: string) returns (j: nat)
    requires Group(records, id) != []
    ensures IsFirst(records, id, j) && Group(records, id)[0] == records[j]
  {
    var n := |records| - 1;
    if Group(records[..n], id) != [] {
      j := GroupStarts(records[..n], id);
    } else {
      j := n;
      forall k | 0 <= k < n ensures records[k].repositoryId != id {
        GroupMembers(records[..n], id, records[k]);
        assert records[..n][k] == records[k];
      }
    }
  }

  lemma {:induction false} MergedIsFirst(codec: Codec, records: seq<Repository>, i: nat)
    requires i < |MergedRecords(codec, records)|
    ensures var r := MergedRecords(codec, records)[i];
      exists j: nat :: IsFirst(records, r.repositoryId, j) && r.name == records[j].name && r.revision == records[j].revision
  {
    hide Group, IsFirst, IdentityConflict, UnionOf, FactUnion, SortedIds;
    var ids := SortedIds(RepositoryIds(records));
    assert ids[i] in ids;
    MergedAt(codec, records, ids, i);
    GroupKnown(records, ids[i]);
    var j := GroupStarts(records, ids[i]);
  }

  // ---- Unknowns ----

  lemma {:induction false} UnknownsMembers(codec: Codec, r: Repository, left: seq<string>, u: Unknown)
    ensures u in UnknownsFor(codec, r, left) <==> exists d :: d in left && u == DependencyUnknown(codec, r, d)
  {
    hide DependencyUnknown;
    if left != [] {
      var n := |left| - 1;
      UnknownsMembers(codec, r, left[..n], u);
      assert left == left[..n] + [left[n]];
    }
  }

  lemma {:induction false} AllUnknownsMembers(codec: Codec, lookup: map<string, string>, merged: seq<Repository>, u: Unknown)
    ensures u in AllUnknowns(codec, lookup, merged) <==>
      exists i :: 0 <= i < |merged| && u in UnknownsFor(codec, merged[i], Left(lookup, merged[i], merged[i].unresolved))
  {
    hide UnknownsFor, Left;
    if merged != [] {
      var n := |merged| - 1;
      AllUnknownsMembers(codec, lookup, merged[..n], u);
      assert forall i :: 0 <= i < n ==> merged[..n][i] == merged[i];
    }
  }

  /** The unknown is about a dependency a repository leaves unresolved: about its upstreams, on its evidence. */
  ghost predicate Laments(codec: Codec, f: Repository, u: Unknown) {
    && u.subject == f.repositoryId && u.field == Some("upstream_repository_ids") && u.evidenceRefs == f.evidenceRefs
    && exists d :: d in f.unresolved && u.unknownId == UnresolvedId(codec, f.repositoryId, d)
  }

  function UnresolvedId(codec: Codec, id: string, dependency: string): string {
    KeysAreGood();
    IdOf(codec, "unknown", UNKNOWN_KEYS, [Text(id), Text(dependency)])
  }

  /** The unknowns are exactly those about the dependencies left unresolved. */
  lemma {:induction false} UnknownsExactly(codec: Codec, records: seq<Repository>, u: Unknown)
    ensures u in Aggregated(codec, records).unknowns <==> exists f :: f in Aggregated(codec, records).repositories && Laments(codec, f, u)
  {
    hide Lookup, Links, MergedRecords, AllUnknowns, Aggregation.ConflictsFor, ResolvedRecords, Left, Laments, UnknownsFor;
    var merged, final := MergedRecords(codec, records), Aggregated(codec, records).repositories;
    var lookup := Lookup(merged);
    ResolvedLength(codec, records);
    AllUnknownsMembers(codec, lookup, merged, u);
    forall i | 0 <= i < |merged|
      ensures u in UnknownsFor(codec, merged[i], Left(lookup, merged[i], merged[i].unresolved)) <==> Laments(codec, final[i], u)
    {
      LamentsAt(codec, records, i, u);
    }
  }

  lemma {:induction false} LamentsAt(codec: Codec, records: seq<Repository>, i: nat, u: Unknown)
    requires i < |MergedRecords(codec, records)| == |Aggregated(codec, records).repositories|
    ensures var merged := MergedRecords(codec, records);
      u in UnknownsFor(codec, merged[i], Left(Lookup(merged), merged[i], merged[i].unresolved)) <==>
        Laments(codec, Aggregated(codec, records).repositories[i], u)
  {
    hide Lookup, MergedRecords, Aggregated, Left, UnknownsFor, IdOf, Resolves;
    var merged := MergedRecords(codec, records);
    var left := Left(Lookup(merged), merged[i], merged[i].unresolved);
    KeepsTheRest(codec, records, i);
    UnknownsMembers(codec, merged[i], left, u);
    forall d ensures d in left <==> d in Aggregated(codec, records).repositories[i].unresolved {
      FinalAt(codec, records, i, d);
      LeftMembers(Lookup(merged), merged[i], merged[i].unresolved, d);
    }
  }

  /** Different dependencies of different repositories have different unknowns. */
  lemma {:induction false} UnresolvedIdIdentifies(codec: Codec, id: string, d: string, other: string, e: string)
    requires codec.Faithful()
    ensures UnresolvedId(codec, id, d) == UnresolvedId(codec, other, e) <==> id == other && d == e
  {
    KeysAreGood();
    if UnresolvedId(codec, id, d) == UnresolvedId(codec, other, e) {
      var a, b := [Text(id), Text(d)], [Text(other), Text(e)];
      IdTellsApart(codec, "unknown", UNKNOWN_KEYS, a, b);
      assert a[0] == b[0] && a[1] == b[1];
    }
  }

  // ---- Conflicts ----

  /** Some record of the identity has this value. */
  ghost predicate Gives(records: seq<Repository>, id: string, field: Repository -> string, x: string) {
    exists r :: r in records && r.repositoryId == id && field(r) == x
  }

  lemma {:induction false} ValuesMean(records: seq<Repository>, id: string, field: Repository -> string, x: string)
    ensures x in Values(Group(records, id), field) <==> Gives(records, id, field, x)
  {
    hide Group;
    forall r ensures r in Group(records, id) <==> r in records && r.repositoryId == id { GroupMembers(records, id, r); }
  }

  /** A conflict over a repository lists exactly what its records give for the field, on the evidence of them all. */
  ghost predicate Weighs(records: seq<Repository>, v: Conflict, field: Repository -> string) {
    && v.blocking && Disagree(records, v.subject, field)
    && Ascending(v.values) && (forall x :: x in v.values <==> Gives(records, v.subject, field, x))
    && Ascending(v.evidenceRefs) && (forall ref :: ref in v.evidenceRefs <==> Lists(records, v.subject, EvidenceOf, ref))
  }

  lemma {:induction false} IdentityConflictWeighs(
      codec: Codec, records: seq<Repository>, id: string, name: string, field: Repository -> string, v: Conflict)
    requires v in IdentityConflict(codec, id, name, Values(Group(records, id), field), SortedIds(UnionOf(Group(records, id), EvidenceOf)))
    ensures v.subject == id && v.field == name && Weighs(records, v, field)
  {
    hide Group, Values, UnionOf, IdOf, Disagree, Gives, Lists;
    GroupDisagrees(records, id, field);
    forall x ensures x in Values(Group(records, id), field) <==> Gives(records, id, field, x) { ValuesMean(records, id, field, x); }
    forall ref ensures ref in UnionOf(Group(records, id), EvidenceOf) <==> Lists(records, id, EvidenceOf, ref) { GroupLists(records, id, EvidenceOf, ref); }
  }

  /** Every conflict is over the name or the revision of a repository, and weighs what its records give. */
  lemma {:induction false} ConflictsAreWeighed(codec: Codec, records: seq<Repository>, v: Conflict)
    requires v in Aggregated(codec, records).conflicts
    ensures (v.field == "name" && Weighs(records, v, NameOf)) || (v.field == "source_revision" && Weighs(records, v, RevisionOf))
  {
    hide *;
    AggregatedIs(codec, records);
    var ids := SortedIds(RepositoryIds(records));
    ConflictMembers(codec, records, ids, v);
    var id :| id in ids && v in MergedItem(codec, records, id).1;
    GroupKnown(records, id);
    var group := Group(records, id);
    var evidence := SortedIds(UnionOf(group, EvidenceOf));
    ItemConflicts(codec, records, id);
    if v in IdentityConflict(codec, id, "name", Values(group, NameOf), evidence) {
      IdentityConflictWeighs(codec, records, id, "name", NameOf, v);
    } else {
      IdentityConflictWeighs(codec, records, id, "source_revision", RevisionOf, v);
    }
  }

  lemma {:induction false} ItemConflicts(codec: Codec, records: seq<Repository>, id: string)
    requires Group(records, id) != []
    ensures var group := Group(records, id);
      var evidence := SortedIds(UnionOf(group, EvidenceOf));
      forall v :: v in MergedItem(codec, records, id).1 ==>
        || v in IdentityConflict(codec, id, "source_revision", Values(group, RevisionOf), evidence)
        || v in IdentityConflict(codec, id, "name", Values(group, NameOf), evidence)
  {
    hide SortedIds, UnionOf, Group, Values, FactUnion, IdentityConflict;
    GroupKnown(records, id);
  }
}
