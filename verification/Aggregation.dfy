/** Repository records merged and their dependencies resolved (stages/aggregate_repositories.py). */
module Aggregation {
  import opened Wrappers
  import opened Ordering
  import opened Texts
  import opened CanonicalHash
  import opened Identities
  import opened Domain

  // ---- Merging ----

  /** The set-valued fields kept in `facts`. */
  const FACT_NAMES: set<string> := {
    "secondary_roles", "languages", "package_managers", "entrypoints", "workflows", "adr_refs", "governance_refs", "capability_ids", "artifact_ids" }

  function FactOf(r: Repository, name: string): seq<string> { if name in r.facts then r.facts[name] else [] }

  function UnionOf(records: seq<Repository>, field: Repository -> seq<string>): set<string> {
    if records == [] then {} else UnionOf(records[..|records| - 1], field) + Distinct(field(records[|records| - 1]))
  }

  function UpstreamOf(r: Repository): seq<string> { r.upstream }
  function DownstreamOf(r: Repository): seq<string> { r.downstream }
  function UnresolvedOf(r: Repository): seq<string> { r.unresolved }
  function OwnersOf(r: Repository): seq<string> { r.owners }
  function EvidenceOf(r: Repository): seq<string> { r.evidenceRefs }

  function NameOf(r: Repository): string { r.name }
  function RevisionOf(r: Repository): string { r.revision }

  function Values(records: seq<Repository>, field: Repository -> string): set<string> { set r | r in records :: field(r) }

  function FactUnion(records: seq<Repository>, name: string): set<string> {
    if records == [] then {} else FactUnion(records[..|records| - 1], name) + Distinct(FactOf(records[|records| - 1], name))
  }

  const CONFLICT_KEYS: seq<string> := ["id", "field", "values"]
  const UNKNOWN_KEYS: seq<string> := ["repository_id", "dependency"]

  lemma {:induction false} KeysAreGood()
    ensures GoodKeys(CONFLICT_KEYS) && GoodKeys(UNKNOWN_KEYS)
  {
    assert |"id"| == 2 && |"field"| == 5 && |"values"| == 6;
  }

  function IdentityConflict(codec: Codec, subject: string, field: string, values: set<string>, evidence: seq<string>): seq<Conflict> {
    KeysAreGood();
    if |values| <= 1 then []
    else
      var sorted := SortedIds(values);
      [Conflict(IdOf(codec, "conflict", CONFLICT_KEYS, [Text(subject), Text(field), Texts(sorted)]), subject, field, sorted, evidence, true)]
  }

  /** `_merge_records`: the first record with every set-valued field united, and a blocking conflict for
      each identifying field the records disagree on. */
  function Merge(codec: Codec, records: seq<Repository>): (Repository, seq<Conflict>)
    requires records != []
  {
    var first := records[0];
    var evidence := SortedIds(UnionOf(records, EvidenceOf));
    var merged := first.(
      upstream := SortedIds(UnionOf(records, UpstreamOf)), downstream := SortedIds(UnionOf(records, DownstreamOf)),
      unresolved := SortedIds(UnionOf(records, UnresolvedOf)), owners := SortedIds(UnionOf(records, OwnersOf)), evidenceRefs := evidence,
      facts := map name | name in FACT_NAMES :: SortedIds(FactUnion(records, name)));
    (merged,
     IdentityConflict(codec, first.repositoryId, "source_revision", Values(records, RevisionOf), evidence)
     + IdentityConflict(codec, first.repositoryId, "name", Values(records, NameOf), evidence))
  }

  function Group(records: seq<Repository>, id: string): seq<Repository> {
    if records == [] then []
    else
      var last := records[|records| - 1];
      Group(records[..|records| - 1], id) + if last.repositoryId == id then [last] else []
  }

  function RepositoryIds(records: seq<Repository>): set<string> { set r | r in records :: r.repositoryId }

  lemma {:induction false} GroupMembers(records: seq<Repository>, id: string, r: Repository)
    ensures r in Group(records, id) <==> r in records && r.repositoryId == id
  {
    if records != [] {
      GroupMembers(records[..|records| - 1], id, r);
      assert records == records[..|records| - 1] + [records[|records| - 1]];
    }
  }

  lemma {:induction false} GroupKnown(records: seq<Repository>, id: string)
    ensures Group(records, id) != [] <==> id in RepositoryIds(records)
    ensures Group(records, id) != [] ==> Group(records, id)[0].repositoryId == id
  {
    var g := Group(records, id);
    if g != [] {
      GroupMembers(records, id, g[0]);
    } else if id in RepositoryIds(records) {
      var r :| r in records && r.repositoryId == id;
      GroupMembers(records, id, r);
    }
  }

  const BLANK: Repository := Repository("", "", "", [], [], [], [], [], map[])

  /** The records of one identity merged; there is at least one for every identity the stage merges. */
  function MergedItem(codec: Codec, records: seq<Repository>, id: string): (Repository, seq<Conflict>) {
    var group := Group(records, id);
    if group == [] then (BLANK, []) else Merge(codec, group)
  }

  function MergedFor(codec: Codec, records: seq<Repository>, ids: seq<string>): (r: seq<Repository>)
    ensures |r| == |ids|
  {
    if ids == [] then [] else MergedFor(codec, records, ids[..|ids| - 1]) + [MergedItem(codec, records, ids[|ids| - 1]).0]
  }

  function ConflictsFor(codec: Codec, records: seq<Repository>, ids: seq<string>): seq<Conflict> {
    if ids == [] then [] else ConflictsFor(codec, records, ids[..|ids| - 1]) + MergedItem(codec, records, ids[|ids| - 1]).1
  }

  function MergedRecords(codec: Codec, records: seq<Repository>): seq<Repository> {
    MergedFor(codec, records, SortedIds(RepositoryIds(records)))
  }

  /** Each merged record stands for the input records of its identity. */
  lemma {:induction false} MergedAt(codec: Codec, records: seq<Repository>, ids: seq<string>, i: nat)
    requires i < |ids|
    ensures MergedFor(codec, records, ids)[i] == MergedItem(codec, records, ids[i]).0
    ensures ids[i] in RepositoryIds(records) ==> MergedFor(codec, records, ids)[i].repositoryId == ids[i]
    decreases |ids|
  {
    if i < |ids| - 1 {
      hide MergedItem;
      MergedAt(codec, records, ids[..|ids| - 1], i);
    } else {
      GroupKnown(records, ids[i]);
    }
  }

  // ---- Resolving dependencies ----

  function WithoutPrefix(id: string): string { if "repo:" <= id then id[5..] else id }

  /** Names and identities by which a repository can be depended on; a later one takes the name. */
  function Lookup(merged: seq<Repository>): map<string, string> {
    if merged == [] then map[]
    else
      var last := merged[|merged| - 1];
      Lookup(merged[..|merged| - 1])[Lower(last.name) := last.repositoryId][Lower(WithoutPrefix(last.repositoryId)) := last.repositoryId]
  }

  /** The repository a dependency names, if any; an empty identity does not count. */
  function TargetOf(lookup: map<string, string>, dependency: string): string {
    var dashed := Dashed(Lower(dependency));
    if dashed in lookup && lookup[dashed] != "" then lookup[dashed]
    else if Lower(dependency) in lookup then lookup[Lower(dependency)] else ""
  }

  /** The dependency names another repository. */
  predicate Resolves(lookup: map<string, string>, r: Repository, dependency: string) {
    TargetOf(lookup, dependency) != "" && TargetOf(lookup, dependency) != r.repositoryId
  }

  function Targets(lookup: map<string, string>, r: Repository, dependencies: seq<string>): set<string> {
    set d | d in dependencies && Resolves(lookup, r, d) :: TargetOf(lookup, d)
  }

  function Left(lookup: map<string, string>, r: Repository, dependencies: seq<string>): seq<string> {
    if dependencies == [] then []
    else
      var last := dependencies[|dependencies| - 1];
      Left(lookup, r, dependencies[..|dependencies| - 1]) + if !Resolves(lookup, r, last) && last != "" then [last] else []
  }

  function DependencyUnknown(codec: Codec, r: Repository, dependency: string): Unknown {
    KeysAreGood();
    Unknown(IdOf(codec, "unknown", UNKNOWN_KEYS, [Text(r.repositoryId), Text(dependency)]), r.repositoryId, Some("upstream_repository_ids"), r.evidenceRefs)
  }

  function UnknownsFor(codec: Codec, r: Repository, left: seq<string>): seq<Unknown> {
    if left == [] then [] else UnknownsFor(codec, r, left[..|left| - 1]) + [DependencyUnknown(codec, r, left[|left| - 1])]
  }

  function Self(s: string): string { s }

  /** The targets of some of a record's dependencies, each paired with the record. */
  function OwnLinks(lookup: map<string, string>, r: Repository, dependencies: seq<string>): set<(string, string)> {
    set t | t in Targets(lookup, r, dependencies) :: (t, r.repositoryId)
  }

  /** Who depends on whom: pairs of a target and a record that resolved to it. */
  function Links(lookup: map<string, string>, merged: seq<Repository>): set<(string, string)> {
    if merged == [] then {}
    else Links(lookup, merged[..|merged| - 1]) + OwnLinks(lookup, merged[|merged| - 1], merged[|merged| - 1].unresolved)
  }

  function Dependents(links: set<(string, string)>, id: string): set<string> { set l | l in links && l.0 == id :: l.1 }

  /** The record once its dependencies are resolved and its dependents known. */
  function ResolvedRecord(lookup: map<string, string>, links: set<(string, string)>, r: Repository): Repository {
    r.(upstream := SortedIds(Distinct(r.upstream) + Targets(lookup, r, r.unresolved)),
       unresolved := SortBy(Left(lookup, r, r.unresolved), Self), downstream := SortedIds(Dependents(links, r.repositoryId)))
  }

  function ResolvedRecords(lookup: map<string, string>, links: set<(string, string)>, merged: seq<Repository>): (r: seq<Repository>)
    ensures |r| == |merged|
  {
    if merged == [] then []
    else ResolvedRecords(lookup, links, merged[..|merged| - 1]) + [ResolvedRecord(lookup, links, merged[|merged| - 1])]
  }

  function AllUnknowns(codec: Codec, lookup: map<string, string>, merged: seq<Repository>): seq<Unknown> {
    if merged == [] then []
    else
      var last := merged[|merged| - 1];
      AllUnknowns(codec, lookup, merged[..|merged| - 1]) + UnknownsFor(codec, last, Left(lookup, last, last.unresolved))
  }

  datatype Outcome = Outcome(repositories: seq<Repository>, conflicts: seq<Conflict>, unknowns: seq<Unknown>)

  function Aggregated(codec: Codec, records: seq<Repository>): Outcome {
    var merged := MergedRecords(codec, records);
    var lookup := Lookup(merged);
    Outcome(ResolvedRecords(lookup, Links(lookup, merged), merged), ConflictsFor(codec, records, SortedIds(RepositoryIds(records))),
            AllUnknowns(codec, lookup, merged))
  }

  // ---- The stage ----

  ghost predicate GroupedBy(grouped: map<string, seq<Repository>>, records: seq<Repository>) {
    grouped.Keys == RepositoryIds(records) && forall id :: id in grouped ==> grouped[id] == Group(records, id)
  }

  lemma {:induction false} OneMoreGrouped(grouped: map<string, seq<Repository>>, records: seq<Repository>, r: Repository)
    requires GroupedBy(grouped, records)
    ensures GroupedBy(grouped[r.repositoryId := (if r.repositoryId in grouped then grouped[r.repositoryId] else []) + [r]], records + [r])
  {
    assert (records + [r])[..|records|] == records;
    GroupKnown(records, r.repositoryId);
  }

  method GroupRecords(records: seq<Repository>) returns (grouped: map<string, seq<Repository>>)
    ensures GroupedBy(grouped, records)
  {
    grouped := map[];
    for i := 0 to |records|
      invariant GroupedBy(grouped, records[..i])
    {
      hide GroupedBy;
      assert records[..i + 1] == records[..i] + [records[i]];
      OneMoreGrouped(grouped, records[..i], records[i]);
      var id := records[i].repositoryId;
      grouped := grouped[id := (if id in grouped then grouped[id] else []) + [records[i]]];
    }
    assert records[..|records|] == records;
  }

  method MergeAll(codec: Codec, records: seq<Repository>) returns (merged: seq<Repository>, conflicts: seq<Conflict>)
    ensures merged == MergedRecords(codec, records) && conflicts == ConflictsFor(codec, records, SortedIds(RepositoryIds(records)))
  {
    hide *;
    var grouped := GroupRecords(records);
    merged, conflicts := [], [];
    var ids := SortedIds(RepositoryIds(records));
    MoreMerged(codec, records, ids, 0);
    for i := 0 to |ids|
      invariant merged == MergedFor(codec, records, ids[..i]) && conflicts == ConflictsFor(codec, records, ids[..i])
    {
      assert ids[i] in ids;
      MoreMerged(codec, records, ids, i);
      GroupKnown(records, ids[i]);
      GroupedAt(grouped, records, ids[i]);
      var item := Merge(codec, grouped[ids[i]]);
      merged, conflicts := merged + [item.0], conflicts + item.1;
    }
    assert ids[..|ids|] == ids;
    MergedAre(codec, records);
  }

  lemma {:induction false} GroupedAt(grouped: map<string, seq<Repository>>, records: seq<Repository>, id: string)
    requires GroupedBy(grouped, records) && id in RepositoryIds(records)
    ensures id in grouped && grouped[id] == Group(records, id)
  {
  }

  lemma {:induction false} MergedAre(codec: Codec, records: seq<Repository>)
    ensures MergedRecords(codec, records) == MergedFor(codec, records, SortedIds(RepositoryIds(records)))
  {
  }

  lemma {:induction false} MoreMerged(codec: Codec, records: seq<Repository>, ids: seq<string>, i: nat)
    ensures MergedFor(codec, records, []) == [] && ConflictsFor(codec, records, []) == []
    ensures i < |ids| && Group(records, ids[i]) != [] ==>
      && MergedFor(codec, records, ids[..i + 1]) == MergedFor(codec, records, ids[..i]) + [Merge(codec, Group(records, ids[i])).0]
      && ConflictsFor(codec, records, ids[..i + 1]) == ConflictsFor(codec, records, ids[..i]) + Merge(codec, Group(records, ids[i])).1
  {
    hide Merge, Group;
    if i < |ids| { assert ids[..i + 1][..i] == ids[..i]; }
  }

  method NameLookup(merged: seq<Repository>) returns (lookup: map<string, string>)
    ensures lookup == Lookup(merged)
  {
    lookup := map[];
    for i := 0 to |merged|
      invariant lookup == Lookup(merged[..i])
    {
      assert merged[..i + 1][..i] == merged[..i];
      var record := merged[i];
      lookup := lookup[Lower(record.name) := record.repositoryId];
      lookup := lookup[Lower(WithoutPrefix(record.repositoryId)) := record.repositoryId];
    }
    assert merged[..|merged|] == merged;
  }

  /** The links a dictionary of dependents records. */
  ghost function LinksIn(downstream: map<string, set<string>>): set<(string, string)> {
    set t, id | t in downstream && id in downstream[t] :: (t, id)
  }

  lemma {:induction false} OneLinkMore(downstream: map<string, set<string>>, t: string, id: string)
    ensures LinksIn(downstream[t := (if t in downstream then downstream[t] else {}) + {id}]) == LinksIn(downstream) + {(t, id)}
  {
    var more := downstream[t := (if t in downstream then downstream[t] else {}) + {id}];
    forall l ensures l in LinksIn(more) <==> l in LinksIn(downstream) + {(t, id)} {
    }
  }

  /** The inner loop, over one record's dependencies. */
  method ResolveOne(codec: Codec, lookup: map<string, string>, r: Repository, before: map<string, set<string>>)
    returns (upstream: set<string>, unresolved: seq<string>, unknowns: seq<Unknown>, downstream: map<string, set<string>>)
    ensures upstream == Distinct(r.upstream) + Targets(lookup, r, r.unresolved) && unresolved == Left(lookup, r, r.unresolved)
    ensures unknowns == UnknownsFor(codec, r, unresolved)
    ensures LinksIn(downstream) == LinksIn(before) + OwnLinks(lookup, r, r.unresolved)
  {
    hide *;
    upstream, unresolved, unknowns, downstream := Distinct(r.upstream), [], [], before;
    NoTargets(codec, lookup, r);
    for i := 0 to |r.unresolved|
      invariant upstream == Distinct(r.upstream) + Targets(lookup, r, r.unresolved[..i]) && unresolved == Left(lookup, r, r.unresolved[..i])
      invariant unknowns == UnknownsFor(codec, r, unresolved)
      invariant LinksIn(downstream) == LinksIn(before) + OwnLinks(lookup, r, r.unresolved[..i])
    {
      var dependency := r.unresolved[i];
      MoreTargets(lookup, r, i);
      if Resolves(lookup, r, dependency) {
        var target := TargetOf(lookup, dependency);
        upstream := upstream + {target};
        OneLinkMore(downstream, target, r.repositoryId);
        downstream := downstream[target := (if target in downstream then downstream[target] else {}) + {r.repositoryId}];
      } else if dependency != "" {
        MoreUnknowns(codec, r, unresolved, dependency);
        unresolved := unresolved + [dependency];
        unknowns := unknowns + [DependencyUnknown(codec, r, dependency)];
      }
    }
    assert r.unresolved[..|r.unresolved|] == r.unresolved;
  }

  lemma {:induction false} NoTargets(codec: Codec, lookup: map<string, string>, r: Repository)
    ensures Targets(lookup, r, []) == {} && Left(lookup, r, []) == [] && UnknownsFor(codec, r, []) == [] && OwnLinks(lookup, r, []) == {}
  {
  }

  lemma {:induction false} MoreUnknowns(codec: Codec, r: Repository, left: seq<string>, dependency: string)
    ensures UnknownsFor(codec, r, left + [dependency]) == UnknownsFor(codec, r, left) + [DependencyUnknown(codec, r, dependency)]
  {
    hide DependencyUnknown;
    assert (left + [dependency])[..|left|] == left;
  }

  lemma {:induction false} MoreTargets(lookup: map<string, string>, r: Repository, i: nat)
    requires i < |r.unresolved|
    ensures var d := r.unresolved[i];
      && Targets(lookup, r, r.unresolved[..i + 1]) == Targets(lookup, r, r.unresolved[..i]) + (if Resolves(lookup, r, d) then {TargetOf(lookup, d)} else {})
      && Left(lookup, r, r.unresolved[..i + 1]) == Left(lookup, r, r.unresolved[..i]) + (if !Resolves(lookup, r, d) && d != "" then [d] else [])
      && OwnLinks(lookup, r, r.unresolved[..i + 1]) ==
           OwnLinks(lookup, r, r.unresolved[..i]) + (if Resolves(lookup, r, d) then {(TargetOf(lookup, d), r.repositoryId)} else {})
  {
    hide Resolves, TargetOf;
    assert r.unresolved[..i + 1] == r.unresolved[..i] + [r.unresolved[i]];
    assert r.unresolved[..i + 1][..i] == r.unresolved[..i];
  }

  /** `run`. */
  method Run(codec: Codec, records: seq<Repository>) returns (outcome: Outcome)
    ensures outcome == Aggregated(codec, records)
  {
    var merged, conflicts := MergeAll(codec, records);
    var lookup := NameLookup(merged);
    var upstreams: seq<set<string>>, unresolveds: seq<seq<string>>, unknowns: seq<Unknown>, downstream: map<string, set<string>> := [], [], [], map[];
    hide *;
    NothingResolved(codec, lookup);
    for i := 0 to |merged|
      invariant |upstreams| == |unresolveds| == i
      invariant forall k :: 0 <= k < i ==>
        upstreams[k] == Distinct(merged[k].upstream) + Targets(lookup, merged[k], merged[k].unresolved) && unresolveds[k] == Left(lookup, merged[k], merged[k].unresolved)
      invariant unknowns == AllUnknowns(codec, lookup, merged[..i]) && LinksIn(downstream) == Links(lookup, merged[..i])
    {
      OneMoreRecord(codec, lookup, merged, i);
      var upstream, unresolved, more, after := ResolveOne(codec, lookup, merged[i], downstream);
      upstreams, unresolveds, unknowns, downstream := upstreams + [upstream], unresolveds + [unresolved], unknowns + more, after;
    }
    assert merged[..|merged|] == merged;
    var repositories := FinalRecords(lookup, merged, upstreams, unresolveds, downstream);
    outcome := Outcome(repositories, conflicts, unknowns);
    AggregatedIs(codec, records);
  }

  lemma {:induction false} NothingResolved(codec: Codec, lookup: map<string, string>)
    ensures AllUnknowns(codec, lookup, []) == [] && Links(lookup, []) == {} && LinksIn(map[]) == {}
  {
  }

  lemma {:induction false} OneMoreRecord(codec: Codec, lookup: map<string, string>, merged: seq<Repository>, i: nat)
    requires i < |merged|
    ensures AllUnknowns(codec, lookup, merged[..i + 1]) ==
      AllUnknowns(codec, lookup, merged[..i]) + UnknownsFor(codec, merged[i], Left(lookup, merged[i], merged[i].unresolved))
    ensures Links(lookup, merged[..i + 1]) == Links(lookup, merged[..i]) + OwnLinks(lookup, merged[i], merged[i].unresolved)
  {
    hide UnknownsFor, Left, OwnLinks;
    assert merged[..i + 1][..i] == merged[..i];
  }

  lemma {:induction false} AggregatedIs(codec: Codec, records: seq<Repository>)
    ensures var merged := MergedRecords(codec, records);
      var lookup := Lookup(merged);
      Aggregated(codec, records) ==
        Outcome(ResolvedRecords(lookup, Links(lookup, merged), merged), ConflictsFor(codec, records, SortedIds(RepositoryIds(records))),
                AllUnknowns(codec, lookup, merged))
  {
  }

  /** The comprehension that adds dependents once every record is resolved. */
  method FinalRecords(
      lookup: map<string, string>, merged: seq<Repository>, upstreams: seq<set<string>>, unresolveds: seq<seq<string>>,
      downstream: map<string, set<string>>) returns (repositories: seq<Repository>)
    requires |upstreams| == |unresolveds| == |merged|
    requires forall k :: 0 <= k < |merged| ==>
      upstreams[k] == Distinct(merged[k].upstream) + Targets(lookup, merged[k], merged[k].unresolved) && unresolveds[k] == Left(lookup, merged[k], merged[k].unresolved)
    ensures repositories == ResolvedRecords(lookup, LinksIn(downstream), merged)
  {
    hide *;
    repositories := [];
    MoreResolved(lookup, LinksIn(downstream), merged, 0);
    for i := 0 to |merged|
      invariant repositories == ResolvedRecords(lookup, LinksIn(downstream), merged[..i])
    {
      var r := merged[i];
      MoreResolved(lookup, LinksIn(downstream), merged, i);
      var dependents := if r.repositoryId in downstream then downstream[r.repositoryId] else {};
      DependentsIn(downstream, r.repositoryId);
      repositories := repositories + [
        r.(upstream := SortedIds(upstreams[i]), unresolved := SortBy(unresolveds[i], Self), downstream := SortedIds(dependents))];
    }
    assert merged[..|merged|] == merged;
  }

  lemma {:induction false} MoreResolved(lookup: map<string, string>, links: set<(string, string)>, merged: seq<Repository>, i: nat)
    ensures ResolvedRecords(lookup, links, []) == []
    ensures i < |merged| ==>
      var r := merged[i];
      ResolvedRecords(lookup, links, merged[..i + 1]) == ResolvedRecords(lookup, links, merged[..i]) + [
        r.(upstream := SortedIds(Distinct(r.upstream) + Targets(lookup, r, r.unresolved)),
           unresolved := SortBy(Left(lookup, r, r.unresolved), Self), downstream := SortedIds(Dependents(links, r.repositoryId)))]
  {
    hide Distinct, Targets, Left, SortBy, SortedIds, Dependents;
    if i < |merged| { assert merged[..i + 1][..i] == merged[..i]; }
  }

  lemma {:induction false} DependentsIn(downstream: map<string, set<string>>, id: string)
    ensures Dependents(LinksIn(downstream), id) == if id in downstream then downstream[id] else {}
  {
    if id in downstream {
      forall x | x in downstream[id] ensures x in Dependents(LinksIn(downstream), id) { assert (id, x) in LinksIn(downstream); }
    }
  }

  // ---- What aggregation guarantees ----

  lemma {:induction false} ResolvedAt(lookup: map<string, string>, links: set<(string, string)>, merged: seq<Repository>, i: nat)
    requires i < |merged|
    ensures ResolvedRecords(lookup, links, merged)[i] == ResolvedRecord(lookup, links, merged[i])
    decreases |merged|
  {
    hide ResolvedRecord;
    if i < |merged| - 1 { ResolvedAt(lookup, links, merged[..|merged| - 1], i); }
  }

  lemma {:induction false} LinksMeaning(lookup: map<string, string>, merged: seq<Repository>, t: string, id: string)
    ensures (t, id) in Links(lookup, merged) <==>
      exists i :: 0 <= i < |merged| && merged[i].repositoryId == id && t in Targets(lookup, merged[i], merged[i].unresolved)
  {
    hide Targets;
    if merged != [] {
      var n := |merged| - 1;
      LinksMeaning(lookup, merged[..n], t, id);
      if i :| 0 <= i < |merged| && merged[i].repositoryId == id && t in Targets(lookup, merged[i], merged[i].unresolved) {
        if i < n { assert merged[..n][i] == merged[i]; }
      }
    }
  }

  ghost predicate DistinctRecords(merged: seq<Repository>) {
    forall i, j :: 0 <= i < j < |merged| ==> merged[i].repositoryId != merged[j].repositoryId
  }

  /** There is one merged record for every repository identity of the input, in ascending order. */
  lemma {:induction false} OneRecordEach(codec: Codec, records: seq<Repository>)
    ensures var merged := MergedRecords(codec, records);
      && DistinctRecords(merged) && (set r | r in merged :: r.repositoryId) == RepositoryIds(records)
  {
    hide MergedItem, RepositoryIds;
    var merged, ids := MergedRecords(codec, records), SortedIds(RepositoryIds(records));
    forall i | 0 <= i < |ids| ensures merged[i].repositoryId == ids[i] {
      assert ids[i] in ids;
      MergedAt(codec, records, ids, i);
    }
    forall i, j | 0 <= i < j < |merged| ensures merged[i].repositoryId != merged[j].repositoryId { assert Less(ids[i], ids[j]); }
    forall id ensures id in (set r | r in merged :: r.repositoryId) <==> id in RepositoryIds(records) {
      if id in RepositoryIds(records) {
        var i :| 0 <= i < |ids| && ids[i] == id;
        assert merged[i] in merged;
      }
    }
  }

  lemma {:induction false} LookupNamesRecords(merged: seq<Repository>, key: string)
    requires key in Lookup(merged)
    ensures exists r :: r in merged && r.repositoryId == Lookup(merged)[key] && (key == Lower(r.name) || key == Lower(WithoutPrefix(r.repositoryId)))
  {
    var n := |merged| - 1;
    var last := merged[n];
    if key != Lower(last.name) && key != Lower(WithoutPrefix(last.repositoryId)) {
      LookupNamesRecords(merged[..n], key);
      var r :| r in merged[..n] && r.repositoryId == Lookup(merged[..n])[key] && (key == Lower(r.name) || key == Lower(WithoutPrefix(r.repositoryId)));
      assert r in merged;
    } else {
      assert last in merged;
    }
  }

  /** A dependency that resolves names, by name or identity, another record of the input. */
  lemma {:induction false} TargetIsARecord(merged: seq<Repository>, r: Repository, dependency: string)
    requires Resolves(Lookup(merged), r, dependency)
    ensures exists t :: t in merged && t.repositoryId == TargetOf(Lookup(merged), dependency) && t.repositoryId != r.repositoryId
  {
    hide Lookup;
    var lookup := Lookup(merged);
    var dashed := Dashed(Lower(dependency));
    if dashed in lookup && lookup[dashed] != "" {
      LookupNamesRecords(merged, dashed);
    } else {
      LookupNamesRecords(merged, Lower(dependency));
    }
  }

  lemma {:induction false} LeftMembers(lookup: map<string, string>, r: Repository, dependencies: seq<string>, d: string)
    ensures d in Left(lookup, r, dependencies) <==> d in dependencies && d != "" && !Resolves(lookup, r, d)
  {
    hide Resolves;
    if dependencies != [] {
      var n := |dependencies| - 1;
      LeftMembers(lookup, r, dependencies[..n], d);
      assert dependencies == dependencies[..n] + [dependencies[n]];
    }
  }

  lemma {:induction false} UnknownRaised(codec: Codec, r: Repository, left: seq<string>, d: string)
    requires d in left
    ensures DependencyUnknown(codec, r, d) in UnknownsFor(codec, r, left)
  {
    hide DependencyUnknown;
    var n := |left| - 1;
    if left[n] != d {
      assert d in left[..n];
      UnknownRaised(codec, r, left[..n], d);
    }
  }

  lemma {:induction false} UnknownKept(codec: Codec, lookup: map<string, string>, merged: seq<Repository>, i: nat, u: Unknown)
    requires i < |merged| && u in UnknownsFor(codec, merged[i], Left(lookup, merged[i], merged[i].unresolved))
    ensures u in AllUnknowns(codec, lookup, merged)
    decreases |merged|
  {
    hide UnknownsFor, Left;
    if i < |merged| - 1 { UnknownKept(codec, lookup, merged[..|merged| - 1], i, u); }
  }

  /** Every dependency a merged record declares, unless empty, either becomes an upstream that is another
      record of the input, or stays unresolved with an unknown raised about it: never both. */
  lemma {:induction false} EveryDependencyAccountedFor(codec: Codec, records: seq<Repository>, i: nat, d: string)
    requires i < |MergedRecords(codec, records)| && d in MergedRecords(codec, records)[i].unresolved && d != ""
    ensures var merged, outcome := MergedRecords(codec, records), Aggregated(codec, records);
      var r, f, lookup := merged[i], outcome.repositories[i], Lookup(merged);
      if Resolves(lookup, r, d)
      then TargetOf(lookup, d) in f.upstream && TargetOf(lookup, d) in RepositoryIds(records) && TargetOf(lookup, d) != r.repositoryId && d !in f.unresolved
      else d in f.unresolved && DependencyUnknown(codec, r, d) in outcome.unknowns
  {
    hide Lookup, MergedFor, Links, ConflictsFor, RepositoryIds, DependencyUnknown, AllUnknowns, Left, ResolvedRecords;
    var merged := MergedRecords(codec, records);
    var lookup := Lookup(merged);
    var r := merged[i];
    var left := Left(lookup, r, r.unresolved);
    ResolvedAt(lookup, Links(lookup, merged), merged, i);
    LeftMembers(lookup, r, r.unresolved, d);
    SameMembers(SortBy(left, Self), left, d);
    if Resolves(lookup, r, d) {
      TargetIsARecord(merged, r, d);
      OneRecordEach(codec, records);
      assert TargetOf(lookup, d) in Targets(lookup, r, r.unresolved);
    } else {
      UnknownRaised(codec, r, left, d);
      UnknownKept(codec, lookup, merged, i, DependencyUnknown(codec, r, d));
    }
  }

  /** One record is downstream of another exactly when a dependency it declared resolved to that other,
      which is then also its upstream and not itself. */
  lemma {:induction false} DownstreamExactlyWhenResolved(codec: Codec, records: seq<Repository>, i: nat, j: nat)
    requires i < |MergedRecords(codec, records)| && j < |MergedRecords(codec, records)|
    ensures var merged, outcome := MergedRecords(codec, records), Aggregated(codec, records);
      var r, t, lookup := merged[i], merged[j], Lookup(merged);
      && (r.repositoryId in outcome.repositories[j].downstream <==>
            exists d :: d in r.unresolved && Resolves(lookup, r, d) && TargetOf(lookup, d) == t.repositoryId)
      && (r.repositoryId in outcome.repositories[j].downstream ==>
            t.repositoryId in outcome.repositories[i].upstream && t.repositoryId != r.repositoryId)
  {
    hide *;
    AggregatedIs(codec, records);
    var merged := MergedRecords(codec, records);
    var lookup := Lookup(merged);
    var links := Links(lookup, merged);
    var r, t := merged[i], merged[j];
    ResolvedMembers(lookup, links, merged, i);
    ResolvedMembers(lookup, links, merged, j);
    DependentsMeaning(links, t.repositoryId, r.repositoryId);
    OneRecordEach(codec, records);
    LinkOf(lookup, merged, i, t.repositoryId);
    TargetsMeaning(lookup, r, r.unresolved, t.repositoryId);
  }

  /** In a list with one record for each identity, a link names the record whose targets it is among. */
  lemma {:induction false} LinkOf(lookup: map<string, string>, merged: seq<Repository>, i: nat, t: string)
    requires i < |merged| && DistinctRecords(merged)
    ensures (t, merged[i].repositoryId) in Links(lookup, merged) <==> t in Targets(lookup, merged[i], merged[i].unresolved)
  {
    hide Links, Targets;
    LinksMeaning(lookup, merged, t, merged[i].repositoryId);
  }

  lemma {:induction false} TargetsMeaning(lookup: map<string, string>, r: Repository, dependencies: seq<string>, t: string)
    ensures t in Targets(lookup, r, dependencies) <==> exists d :: d in dependencies && Resolves(lookup, r, d) && TargetOf(lookup, d) == t
    ensures t in Targets(lookup, r, dependencies) ==> t != r.repositoryId
  {
    hide TargetOf;
  }

  /** What a resolved record lists as upstream and downstream. */
  lemma {:induction false} ResolvedMembers(lookup: map<string, string>, links: set<(string, string)>, merged: seq<Repository>, i: nat)
    requires i < |merged|
    ensures var r, f := merged[i], ResolvedRecords(lookup, links, merged)[i];
      && (forall t :: t in f.downstream <==> t in Dependents(links, r.repositoryId))
      && (forall t :: t in f.upstream <==> t in r.upstream || t in Targets(lookup, r, r.unresolved))
  {
    hide Dependents, Targets, ResolvedRecords, Left, SortBy;
    ResolvedAt(lookup, links, merged, i);
  }

  lemma {:induction false} DependentsMeaning(links: set<(string, string)>, t: string, id: string)
    ensures id in Dependents(links, t) <==> (t, id) in links
  {
    if id in Dependents(links, t) {
      var l :| l in links && l.0 == t && l.1 == id;
      assert l == (t, id);
    }
  }

  // ---- What merging guarantees ----

  lemma {:induction false} UnionMembers(records: seq<Repository>, field: Repository -> seq<string>, x: string)
    ensures x in UnionOf(records, field) <==> exists r :: r in records && x in field(r)
  {
    if records != [] {
      var n := |records| - 1;
      UnionMembers(records[..n], field, x);
      assert records == records[..n] + [records[n]];
    }
  }

  lemma {:induction false} FactMembers(records: seq<Repository>, name: string, x: string)
    ensures x in FactUnion(records, name) <==> exists r :: r in records && x in FactOf(r, name)
  {
    hide FactOf;
    if records != [] {
      var n := |records| - 1;
      FactMembers(records[..n], name, x);
      assert records == records[..n] + [records[n]];
    }
  }

  /** Some record of an identity lists a value. */
  ghost predicate Lists(records: seq<Repository>, id: string, field: Repository -> seq<string>, x: string) {
    exists r :: r in records && r.repositoryId == id && x in field(r)
  }

  ghost predicate ListsFact(records: seq<Repository>, id: string, name: string, x: string) {
    exists r :: r in records && r.repositoryId == id && x in FactOf(r, name)
  }

  lemma {:induction false} GroupLists(records: seq<Repository>, id: string, field: Repository -> seq<string>, x: string)
    ensures x in UnionOf(Group(records, id), field) <==> Lists(records, id, field, x)
  {
    UnionMembers(Group(records, id), field, x);
    forall r ensures r in Group(records, id) <==> r in records && r.repositoryId == id { GroupMembers(records, id, r); }
  }

  lemma {:induction false} GroupListsFact(records: seq<Repository>, id: string, name: string, x: string)
    ensures x in FactUnion(Group(records, id), name) <==> ListsFact(records, id, name, x)
  {
    hide FactOf;
    FactMembers(Group(records, id), name, x);
    forall r ensures r in Group(records, id) <==> r in records && r.repositoryId == id { GroupMembers(records, id, r); }
  }

  /** A merged record lists, in every set-valued field, exactly what some record of its identity lists. */
  lemma {:induction false} MergingUnites(codec: Codec, records: seq<Repository>, i: nat, x: string, fact: string)
    requires i < |MergedRecords(codec, records)| && fact in FACT_NAMES
    ensures var r := MergedRecords(codec, records)[i];
      && (x in r.upstream <==> Lists(records, r.repositoryId, UpstreamOf, x))
      && (x in r.downstream <==> Lists(records, r.repositoryId, DownstreamOf, x))
      && (x in r.unresolved <==> Lists(records, r.repositoryId, UnresolvedOf, x))
      && (x in r.owners <==> Lists(records, r.repositoryId, OwnersOf, x))
      && (x in r.evidenceRefs <==> Lists(records, r.repositoryId, EvidenceOf, x))
      && (x in FactOf(r, fact) <==> ListsFact(records, r.repositoryId, fact, x))
  {
    hide *;
    var ids := SortedIds(RepositoryIds(records));
    MergedAre(codec, records);
    assert ids[i] in ids;
    MergedAt(codec, records, ids, i);
    GroupKnown(records, ids[i]);
    var group := Group(records, ids[i]);
    MergeFields(codec, records, ids[i], fact);
    GroupLists(records, ids[i], UpstreamOf, x);
    GroupLists(records, ids[i], DownstreamOf, x);
    GroupLists(records, ids[i], UnresolvedOf, x);
    GroupLists(records, ids[i], OwnersOf, x);
    GroupLists(records, ids[i], EvidenceOf, x);
    GroupListsFact(records, ids[i], fact, x);
  }

  lemma {:induction false} MergeFields(codec: Codec, records: seq<Repository>, id: string, fact: string)
    requires Group(records, id) != [] && fact in FACT_NAMES
    ensures var group, r := Group(records, id), MergedItem(codec, records, id).0;
      && r.upstream == SortedIds(UnionOf(group, UpstreamOf)) && r.downstream == SortedIds(UnionOf(group, DownstreamOf))
      && r.unresolved == SortedIds(UnionOf(group, UnresolvedOf)) && r.owners == SortedIds(UnionOf(group, OwnersOf))
      && r.evidenceRefs == SortedIds(UnionOf(group, EvidenceOf)) && FactOf(r, fact) == SortedIds(FactUnion(group, fact))
  {
    hide Group, UnionOf, FactUnion, SortedIds, IdentityConflict;
  }

  /** Two records of an identity differ in a field. */
  ghost predicate Disagree(records: seq<Repository>, id: string, field: Repository -> string) {
    exists r, q :: r in records && q in records && r.repositoryId == id && q.repositoryId == id && field(r) != field(q)
  }

  ghost predicate Reported(conflicts: seq<Conflict>, id: string, field: string) {
    exists c :: c in conflicts && c.subject == id && c.field == field && c.blocking
  }

  lemma {:induction false} SeveralValues(values: set<string>)
    ensures |values| > 1 <==> exists a, b :: a in values && b in values && a != b
  {
    if a, b :| a in values && b in values && a != b {
      assert values == {a} + (values - {a}) && b in values - {a};
    }
    if |values| > 1 {
      var a :| a in values;
      assert |values - {a}| > 0;
      var b :| b in values - {a};
    }
  }

  lemma {:induction false} GroupDisagrees(records: seq<Repository>, id: string, field: Repository -> string)
    ensures |Values(Group(records, id), field)| > 1 <==> Disagree(records, id, field)
  {
    var group := Group(records, id);
    forall r ensures r in group <==> r in records && r.repositoryId == id { GroupMembers(records, id, r); }
    hide Group;
    var values := Values(group, field);
    SeveralValues(values);
    if Disagree(records, id, field) {
      var r, q :| r in records && q in records && r.repositoryId == id && q.repositoryId == id && field(r) != field(q);
      assert r in group && q in group;
      assert field(r) in values && field(q) in values;
    }
    if a, b :| a in values && b in values && a != b {
      var r :| r in group && field(r) == a;
      var q :| q in group && field(q) == b;
    }
  }

  lemma {:induction false} ConflictMembers(codec: Codec, records: seq<Repository>, ids: seq<string>, c: Conflict)
    ensures c in ConflictsFor(codec, records, ids) <==> exists id :: id in ids && c in MergedItem(codec, records, id).1
  {
    hide MergedItem;
    if ids != [] {
      var n := |ids| - 1;
      ConflictMembers(codec, records, ids[..n], c);
      assert ids == ids[..n] + [ids[n]];
    }
  }

  lemma {:induction false} ItemReports(codec: Codec, records: seq<Repository>, id: string)
    requires Group(records, id) != []
    ensures Reported(MergedItem(codec, records, id).1, id, "name") <==> Disagree(records, id, NameOf)
    ensures Reported(MergedItem(codec, records, id).1, id, "source_revision") <==> Disagree(records, id, RevisionOf)
    ensures forall c :: c in MergedItem(codec, records, id).1 ==> c.subject == id
  {
    hide SortedIds, UnionOf, Group, Disagree, Values, FactUnion;
    GroupDisagrees(records, id, NameOf);
    GroupDisagrees(records, id, RevisionOf);
    GroupKnown(records, id);
    var group := Group(records, id);
    var conflicts := MergedItem(codec, records, id).1;
    var evidence := SortedIds(UnionOf(group, EvidenceOf));
    var a := IdentityConflict(codec, id, "source_revision", Values(group, RevisionOf), evidence);
    var b := IdentityConflict(codec, id, "name", Values(group, NameOf), evidence);
    assert conflicts == a + b;
    assert |"name"| != |"source_revision"|;
    if a != [] { assert a[0] in conflicts; }
    if b != [] { assert b[0] in conflicts; }
  }

  /** A blocking conflict is reported about a repository's name or revision exactly when two of its records
      give different ones. */
  lemma {:induction false} ConflictExactlyWhenDisagreeing(codec: Codec, records: seq<Repository>, id: string)
    ensures Reported(Aggregated(codec, records).conflicts, id, "name") <==> Disagree(records, id, NameOf)
    ensures Reported(Aggregated(codec, records).conflicts, id, "source_revision") <==> Disagree(records, id, RevisionOf)
  {
    hide *;
    AggregatedIs(codec, records);
    var ids := SortedIds(RepositoryIds(records));
    ReportedFrom(codec, records, ids, id, "name");
    ReportedFrom(codec, records, ids, id, "source_revision");
    GroupKnown(records, id);
    if id in ids {
      ItemReports(codec, records, id);
    } else {
      NobodyDisagrees(records, id);
    }
  }

  lemma {:induction false} NobodyDisagrees(records: seq<Repository>, id: string)
    requires id !in RepositoryIds(records)
    ensures !Disagree(records, id, NameOf) && !Disagree(records, id, RevisionOf)
  {
  }

  lemma {:induction false} ReportedFrom(codec: Codec, records: seq<Repository>, ids: seq<string>, id: string, field: string)
    requires ids == SortedIds(RepositoryIds(records))
    ensures Reported(ConflictsFor(codec, records, ids), id, field) <==>
      (id in ids && Reported(MergedItem(codec, records, id).1, id, field))
  {
    hide MergedItem, ConflictsFor, SortedIds, RepositoryIds;
    var conflicts := ConflictsFor(codec, records, ids);
    if c :| c in conflicts && c.subject == id && c.field == field && c.blocking {
      ConflictMembers(codec, records, ids, c);
      var from :| from in ids && c in MergedItem(codec, records, from).1;
      GroupKnown(records, from);
      ItemReports(codec, records, from);
    }
    if id in ids && Reported(MergedItem(codec, records, id).1, id, field) {
      var c :| c in MergedItem(codec, records, id).1 && c.subject == id && c.field == field && c.blocking;
      ConflictMembers(codec, records, ids, c);
    }
  }
}
