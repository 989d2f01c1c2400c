/** What a compiled cluster holds, read off its proposal and the compiled records (topology/candidates.py). */
module ClusterContents {
  import opened Wrappers
  import opened Ordering
  import opened Texts
  import opened Domain
  import opened Candidates

  // ---- Counting ----

  /** Everything of which this holds, and nothing else. */
  ghost predicate IsAll<T(!new)>(s: set<T>, holds: T -> bool) { forall x :: x in s <==> holds(x) }

  /** There are exactly `n` things of which this holds. */
  ghost predicate Counted<T(!new)>(n: nat, holds: T -> bool) { exists s: set<T> :: IsAll(s, holds) && |s| == n }

  lemma {:induction false} CountedBy<T(!new)>(s: set<T>, holds: T -> bool)
    requires forall x :: x in s <==> holds(x)
    ensures Counted(|s|, holds)
  {
    assert IsAll(s, holds);
  }

  /** The number is the only one. */
  lemma {:induction false} CountedOnce<T(!new)>(n: nat, m: nat, holds: T -> bool)
    requires Counted(n, holds) && Counted(m, holds)
    ensures n == m
  {
    var s: set<T> :| IsAll(s, holds) && |s| == n;
    var t: set<T> :| IsAll(t, holds) && |t| == m;
    assert s == t;
  }

  // ---- Members and what they belong to ----

  ghost predicate IsLastRecord(artifacts: seq<Artifact>, m: string, i: nat) {
    i < |artifacts| && artifacts[i].artifactId == m && forall j :: i < j < |artifacts| ==> artifacts[j].artifactId != m
  }

  /** The last record of the artifact places it in this repository. */
  ghost predicate BelongsTo(artifacts: seq<Artifact>, m: string, repository: string) {
    exists i: nat :: IsLastRecord(artifacts, m, i) && artifacts[i].repositoryId == repository
  }

  /** The last record of the artifact lists this capability. */
  ghost predicate Provides(artifacts: seq<Artifact>, m: string, capability: string) {
    exists i: nat :: IsLastRecord(artifacts, m, i) && capability in artifacts[i].capabilities
  }

  lemma {:induction false} LastRecords(artifacts: seq<Artifact>, m: string)
    ensures m in RepositoryOf(artifacts) <==> exists i: nat :: IsLastRecord(artifacts, m, i)
    ensures m in CapabilitiesOf(artifacts) <==> m in RepositoryOf(artifacts)
    ensures m in RepositoryOf(artifacts) ==>
      exists i: nat :: IsLastRecord(artifacts, m, i) && RepositoryOf(artifacts)[m] == artifacts[i].repositoryId
                       && CapabilitiesOf(artifacts)[m] == artifacts[i].capabilities
  {
    if artifacts != [] {
      var n := |artifacts| - 1;
      LastRecords(artifacts[..n], m);
      if artifacts[n].artifactId == m {
        assert IsLastRecord(artifacts, m, n);
      } else {
        if m in RepositoryOf(artifacts[..n]) {
          var i: nat :| IsLastRecord(artifacts[..n], m, i) && RepositoryOf(artifacts[..n])[m] == artifacts[..n][i].repositoryId
            && CapabilitiesOf(artifacts[..n])[m] == artifacts[..n][i].capabilities;
          assert IsLastRecord(artifacts, m, i);
        }
        if i: nat :| IsLastRecord(artifacts, m, i) { assert IsLastRecord(artifacts[..n], m, i); }
      }
    }
  }

  lemma {:induction false} OneLast(artifacts: seq<Artifact>, m: string, i: nat, j: nat)
    requires IsLastRecord(artifacts, m, i) && IsLastRecord(artifacts, m, j)
    ensures i == j
  {
  }

  lemma {:induction false} BelongsMeans(artifacts: seq<Artifact>, m: string, x: string)
    ensures BelongsTo(artifacts, m, x) <==> m in RepositoryOf(artifacts) && RepositoryOf(artifacts)[m] == x
    ensures Provides(artifacts, m, x) <==> m in CapabilitiesOf(artifacts) && x in CapabilitiesOf(artifacts)[m]
  {
    hide RepositoryOf, CapabilitiesOf;
    LastRecords(artifacts, m);
    if exists i: nat :: IsLastRecord(artifacts, m, i) {
      var i: nat :| IsLastRecord(artifacts, m, i) && RepositoryOf(artifacts)[m] == artifacts[i].repositoryId
        && CapabilitiesOf(artifacts)[m] == artifacts[i].capabilities;
      forall j: nat | IsLastRecord(artifacts, m, j) ensures j == i { OneLast(artifacts, m, i, j); }
    }
  }

  /** A member, or the repository of one. */
  ghost predicate SpeaksFor(p: Proposal, r: Records, x: string) {
    x in p.members || exists m :: m in p.members && BelongsTo(r.artifacts, m, x)
  }

  lemma {:induction false} SubjectsMean(p: Proposal, r: Records, x: string)
    ensures x in GroupSubjects(p, r.artifacts) <==> SpeaksFor(p, r, x)
  {
    hide BelongsTo, RepositoryOf;
    forall m ensures BelongsTo(r.artifacts, m, x) <==> m in RepositoryOf(r.artifacts) && RepositoryOf(r.artifacts)[m] == x {
      BelongsMeans(r.artifacts, m, x);
    }
    if SpeaksFor(p, r, x) && x !in p.members {
      var m :| m in p.members && BelongsTo(r.artifacts, m, x);
      assert m in MembersOf(p);
    }
  }

  // ---- What a structure counts ----

  /** An edge of this type joins these two different members. */
  ghost predicate JoinsInside(p: Proposal, edges: seq<Edge>, t: EdgeType, pair: set<string>) {
    exists e :: e in edges && e.edgeType == t && e.source != e.target && e.source in p.members && e.target in p.members
                && pair == {e.source, e.target}
  }

  /** An edge of this type with these ends meets a member. */
  ghost predicate Meets(p: Proposal, edges: seq<Edge>, t: EdgeType, pair: set<string>) {
    exists e :: e in edges && e.edgeType == t && (e.source in p.members || e.target in p.members) && pair == {e.source, e.target}
  }

  /** A package something depends on, at an end of a dependency that meets a member. */
  ghost predicate ExternalTo(p: Proposal, edges: seq<Edge>, t: string) {
    && "package:" <= t && (exists e :: e in edges && e.edgeType == DependsOn && e.target == t)
    && exists pair :: t in pair && Meets(p, edges, DependsOn, pair)
  }

  ghost predicate InRoot(p: Proposal, r: Records, x: string) { exists m :: m in p.members && m in r.rootOf && r.rootOf[m] == x }

  ghost predicate Archived(p: Proposal, r: Records, m: string) {
    m in p.members && exists a :: a in r.artifacts && a.artifactId == m && Occurs("!/", a.sourcePath)
  }

  /** Somebody's work status or kind is in conflict. */
  ghost predicate Disputed(p: Proposal, r: Records, x: string) {
    SpeaksFor(p, r, x) && exists v :: v in r.conflicts && v.subject == x && (v.field == "work.status" || v.field == "work.kind")
  }

  ghost predicate InRepository(p: Proposal, r: Records, x: string) { exists m :: m in p.members && BelongsTo(r.artifacts, m, x) }

  ghost predicate Offers(p: Proposal, r: Records, x: string) { exists m :: m in p.members && Provides(r.artifacts, m, x) }

  /** The structure counts exactly these things. */
  ghost predicate Measures(p: Proposal, r: Records, s: Structure) {
    && Counted(s.members, (m: string) => m in p.members)
    && Counted(s.repositories, (x: string) => InRepository(p, r, x))
    && Counted(s.roots, (x: string) => InRoot(p, r, x))
    && Counted(s.archived, (m: string) => Archived(p, r, m))
    && Counted(s.duplicates, (pair: set<string>) => JoinsInside(p, r.edges, DuplicateOf, pair))
    && Counted(s.references, (pair: set<string>) => JoinsInside(p, r.edges, References, pair))
    && Counted(s.dependencies, (pair: set<string>) => JoinsInside(p, r.edges, DependsOn, pair))
    && Counted(s.supersessions, (pair: set<string>) => JoinsInside(p, r.edges, Supersedes, pair))
    && Counted(s.blockers, (pair: set<string>) => Meets(p, r.edges, BlockedBy, pair))
    && Counted(s.conflicting, (x: string) => Disputed(p, r, x))
    && Counted(s.capabilities, (x: string) => Offers(p, r, x))
    && Counted(s.externals, (t: string) => ExternalTo(p, r.edges, t))
  }

  lemma {:induction false} MeasuredIs(p: Proposal, r: Records)
    ensures var s, index, members := StructureOf(p, IndexOf(r)), IndexOf(r), MembersOf(p);
      && s.members == |members|
      && s.repositories == |set m | m in members && m in index.repositoryOf :: index.repositoryOf[m]|
      && s.roots == |set m | m in members && m in index.rootOf :: index.rootOf[m]|
      && s.archived == |members * index.archived| && s.duplicates == |index.Internal(DuplicateOf, members)|
      && s.references == |index.Internal(References, members)| && s.dependencies == |index.Internal(DependsOn, members)|
      && s.supersessions == |index.Internal(Supersedes, members)|
      && s.blockers == |set q | q in index.Pairs(BlockedBy) && q * members != {}|
      && s.conflicting == |index.Subjects(members) * index.conflicted|
      && s.capabilities == |set m, c | m in members && m in index.capabilitiesOf && c in index.capabilitiesOf[m] :: c|
      && s.externals == |set t, q | t in index.externals && q in index.Pairs(DependsOn) && t in q && q * members != {} :: t|
  {
    hide IndexOf, TallyOver, MembersOf, SortedIds, Index.Internal, Index.Subjects, Index.Pairs;
  }

  lemma {:induction false} IndexIs(r: Records)
    ensures var index := IndexOf(r);
      && index.repositoryOf == RepositoryOf(r.artifacts) && index.capabilitiesOf == CapabilitiesOf(r.artifacts) && index.rootOf == r.rootOf
      && (forall m :: m in index.archived <==> exists a :: a in r.artifacts && a.artifactId == m && InArchive(a.sourcePath))
      && index.externals == ExternalTargets(r.edges) && index.conflicted == ConflictedIn(r.conflicts)
  {
    hide RepositoryOf, CapabilitiesOf, PairsOf, ExternalTargets, ConflictedIn, Filter, InArchive, TypesIn, SubjectsIn;
    forall m ensures m in IndexOf(r).archived <==> exists a :: a in r.artifacts && a.artifactId == m && InArchive(a.sourcePath) {
    }
  }

  lemma {:induction false} CountMembers(p: Proposal)
    ensures Counted(|MembersOf(p)|, (m: string) => m in p.members)
  {
    CountedBy(MembersOf(p), (m: string) => m in p.members);
  }

  lemma {:induction false} CountRepositories(p: Proposal, r: Records)
    ensures var repositoryOf := RepositoryOf(r.artifacts);
      Counted(|set m | m in MembersOf(p) && m in repositoryOf :: repositoryOf[m]|, (x: string) => InRepository(p, r, x))
  {
    hide BelongsTo, RepositoryOf;
    var repositoryOf := RepositoryOf(r.artifacts);
    var s := set m | m in MembersOf(p) && m in repositoryOf :: repositoryOf[m];
    forall x ensures x in s <==> InRepository(p, r, x) {
      forall m ensures BelongsTo(r.artifacts, m, x) <==> m in repositoryOf && repositoryOf[m] == x { BelongsMeans(r.artifacts, m, x); }
      if m :| m in p.members && BelongsTo(r.artifacts, m, x) { assert m in MembersOf(p); }
    }
    CountedBy(s, (x: string) => InRepository(p, r, x));
  }

  lemma {:induction false} CountRoots(p: Proposal, r: Records)
    ensures Counted(|set m | m in MembersOf(p) && m in r.rootOf :: r.rootOf[m]|, (x: string) => InRoot(p, r, x))
  {
    var s := set m | m in MembersOf(p) && m in r.rootOf :: r.rootOf[m];
    forall x ensures x in s <==> InRoot(p, r, x) {
      if m :| m in p.members && m in r.rootOf && r.rootOf[m] == x { assert m in MembersOf(p); }
    }
    CountedBy(s, (x: string) => InRoot(p, r, x));
  }

  lemma {:induction false} CountArchived(p: Proposal, r: Records)
    ensures Counted(|MembersOf(p) * IndexOf(r).archived|, (m: string) => Archived(p, r, m))
  {
    hide IndexOf, Occurs;
    IndexIs(r);
    CountedBy(MembersOf(p) * IndexOf(r).archived, (m: string) => Archived(p, r, m));
  }

  lemma {:induction false} JoinsMeans(p: Proposal, r: Records, t: EdgeType, pair: set<string>)
    ensures JoinsInside(p, r.edges, t, pair) <==> pair in IndexOf(r).Internal(t, MembersOf(p))
  {
    hide IndexOf, Index.Pairs;
    IndexedPairs(r, t);
    if pair in IndexOf(r).Internal(t, MembersOf(p)) {
      var e :| e in r.edges && e.edgeType == t && pair == {e.source, e.target};
      PairSize(e.source, e.target);
      assert e.source in pair && e.target in pair;
    }
    if e :| e in r.edges && e.edgeType == t && e.source != e.target && e.source in p.members && e.target in p.members
            && pair == {e.source, e.target} {
      PairSize(e.source, e.target);
      assert pair in PairsOf(r.edges, t);
    }
  }

  lemma {:induction false} CountJoined(p: Proposal, r: Records, t: EdgeType)
    ensures Counted(|IndexOf(r).Internal(t, MembersOf(p))|, (pair: set<string>) => JoinsInside(p, r.edges, t, pair))
  {
    hide IndexOf, Index.Internal, MembersOf, JoinsInside;
    var inside := IndexOf(r).Internal(t, MembersOf(p));
    forall pair ensures pair in inside <==> JoinsInside(p, r.edges, t, pair) { JoinsMeans(p, r, t, pair); }
    CountedBy(inside, (pair: set<string>) => JoinsInside(p, r.edges, t, pair));
  }

  lemma {:induction false} MeetsMeans(p: Proposal, r: Records, t: EdgeType, pair: set<string>)
    ensures Meets(p, r.edges, t, pair) <==> pair in IndexOf(r).Pairs(t) && pair * MembersOf(p) != {}
  {
    hide IndexOf, Index.Pairs;
    IndexedPairs(r, t);
    if e :| e in r.edges && e.edgeType == t && (e.source in p.members || e.target in p.members) && pair == {e.source, e.target} {
      assert pair in PairsOf(r.edges, t);
      if e.source in p.members { assert e.source in pair * MembersOf(p); } else { assert e.target in pair * MembersOf(p); }
    }
    if pair in PairsOf(r.edges, t) && pair * MembersOf(p) != {} {
      var e :| e in r.edges && e.edgeType == t && pair == {e.source, e.target};
      var m :| m in pair * MembersOf(p);
      assert m == e.source || m == e.target;
    }
  }

  lemma {:induction false} CountBlockers(p: Proposal, r: Records)
    ensures Counted(|set q | q in IndexOf(r).Pairs(BlockedBy) && q * MembersOf(p) != {}|, (pair: set<string>) => Meets(p, r.edges, BlockedBy, pair))
  {
    hide IndexOf, Index.Pairs, Meets, MembersOf;
    var s := set q | q in IndexOf(r).Pairs(BlockedBy) && q * MembersOf(p) != {};
    forall pair ensures pair in s <==> Meets(p, r.edges, BlockedBy, pair) { MeetsMeans(p, r, BlockedBy, pair); }
    CountedBy(s, (pair: set<string>) => Meets(p, r.edges, BlockedBy, pair));
  }

  lemma {:induction false} CountDisputed(p: Proposal, r: Records)
    ensures Counted(|IndexOf(r).Subjects(MembersOf(p)) * IndexOf(r).conflicted|, (x: string) => Disputed(p, r, x))
  {
    hide IndexOf, Index.Subjects, SpeaksFor, GroupSubjects, MembersOf;
    IndexIs(r);
    SubjectsAre(p, r);
    var s := IndexOf(r).Subjects(MembersOf(p)) * IndexOf(r).conflicted;
    forall x ensures x in s <==> Disputed(p, r, x) { SubjectsMean(p, r, x); }
    CountedBy(s, (x: string) => Disputed(p, r, x));
  }

  lemma {:induction false} CountCapabilities(p: Proposal, r: Records)
    ensures var capabilitiesOf := CapabilitiesOf(r.artifacts);
      Counted(|set m, c | m in MembersOf(p) && m in capabilitiesOf && c in capabilitiesOf[m] :: c|, (x: string) => Offers(p, r, x))
  {
    hide Provides, CapabilitiesOf;
    var capabilitiesOf := CapabilitiesOf(r.artifacts);
    var s := set m, c | m in MembersOf(p) && m in capabilitiesOf && c in capabilitiesOf[m] :: c;
    forall x ensures x in s <==> Offers(p, r, x) {
      forall m ensures Provides(r.artifacts, m, x) <==> m in capabilitiesOf && x in capabilitiesOf[m] { BelongsMeans(r.artifacts, m, x); }
      if m :| m in p.members && Provides(r.artifacts, m, x) { assert m in MembersOf(p); }
    }
    CountedBy(s, (x: string) => Offers(p, r, x));
  }

  lemma {:induction false} ExternalMeans(p: Proposal, r: Records, t: string)
    ensures ExternalTo(p, r.edges, t) <==>
      t in ExternalTargets(r.edges) && exists q :: q in IndexOf(r).Pairs(DependsOn) && t in q && q * MembersOf(p) != {}
  {
    hide IndexOf, Index.Pairs, Meets, MembersOf;
    forall pair ensures Meets(p, r.edges, DependsOn, pair) <==> pair in IndexOf(r).Pairs(DependsOn) && pair * MembersOf(p) != {} {
      MeetsMeans(p, r, DependsOn, pair);
    }
    assert t in ExternalTargets(r.edges) <==> "package:" <= t && exists e :: e in r.edges && e.edgeType == DependsOn && e.target == t;
  }

  lemma {:induction false} CountExternals(p: Proposal, r: Records)
    ensures var pairs := IndexOf(r).Pairs(DependsOn);
      Counted(|set t, q | t in ExternalTargets(r.edges) && q in pairs && t in q && q * MembersOf(p) != {} :: t|,
              (t: string) => ExternalTo(p, r.edges, t))
  {
    hide IndexOf, Index.Pairs, ExternalTo, ExternalTargets, MembersOf;
    var pairs := IndexOf(r).Pairs(DependsOn);
    var s := set t, q | t in ExternalTargets(r.edges) && q in pairs && t in q && q * MembersOf(p) != {} :: t;
    forall t ensures t in s <==> ExternalTo(p, r.edges, t) { ExternalMeans(p, r, t); }
    CountedBy(s, (t: string) => ExternalTo(p, r.edges, t));
  }

  /** The structure of a group counts, over the records as they are: its members, the repositories and roots they
      are in, those inside archives, the pairs of members each type of edge joins, the pairs that block, the
      subjects in dispute, the capabilities and the packages depended on. */
  lemma {:induction false} StructureMeasures(p: Proposal, r: Records)
    ensures Measures(p, r, StructureOf(p, IndexOf(r)))
  {
    hide StructureOf, IndexOf, Counted, Index.Internal, Index.Pairs, Index.Subjects, MembersOf, RepositoryOf, CapabilitiesOf, ExternalTargets, InArchive,
         ConflictedIn, InRepository, InRoot, Archived, JoinsInside, Meets, Disputed, Offers, ExternalTo;
    MeasuredIs(p, r);
    IndexIs(r);
    CountMembers(p);
    CountRepositories(p, r);
    CountRoots(p, r);
    CountArchived(p, r);
    CountJoined(p, r, DuplicateOf);
    CountJoined(p, r, References);
    CountJoined(p, r, DependsOn);
    CountJoined(p, r, Supersedes);
    CountBlockers(p, r);
    CountDisputed(p, r);
    CountCapabilities(p, r);
    CountExternals(p, r);
  }

  // ---- Distributions ----

  /** How often a value of the predicate is claimed about the group. */
  ghost function Claimed(claims: seq<Claim>, p: Proposal, r: Records, predicat: string, o: string): nat {
    if claims == [] then 0
    else
      Claimed(claims[1..], p, r, predicat, o)
      + if SpeaksFor(p, r, claims[0].subject) && claims[0].predicat == predicat && claims[0].object_ == o then 1 else 0
  }

  /** The distribution gives every claimed value its count and has no other. */
  ghost predicate Distributes(p: Proposal, r: Records, predicat: string, counts: map<string, nat>) {
    forall o :: CountOf(counts, o) == Claimed(r.claims, p, r, predicat, o) && (o in counts <==> Claimed(r.claims, p, r, predicat, o) > 0)
  }

  lemma {:induction false} ClaimedCounts(claims: seq<Claim>, p: Proposal, r: Records, predicat: string, o: string)
    ensures |Filter(claims, SaysOf(GroupSubjects(p, r.artifacts), predicat, o))| == Claimed(claims, p, r, predicat, o)
  {
    hide GroupSubjects, SpeaksFor;
    if claims != [] {
      ClaimedCounts(claims[1..], p, r, predicat, o);
      SubjectsMean(p, r, claims[0].subject);
    }
  }

  lemma {:induction false} TalliesDistribute(p: Proposal, r: Records, predicat: string)
    ensures Distributes(p, r, predicat, TallyOver(IndexOf(r), SortedIds(IndexOf(r).Subjects(MembersOf(p))), predicat))
  {
    hide IndexOf, TallyOver, GroupSubjects, MembersOf, Filter, Claimed, Index.Subjects;
    SubjectsAre(p, r);
    var subjects := GroupSubjects(p, r.artifacts);
    var ids := SortedIds(subjects);
    hide SortedIds;
    assert Distinct(ids) == subjects;
    forall o
      ensures CountOf(TallyOver(IndexOf(r), ids, predicat), o) == Claimed(r.claims, p, r, predicat, o)
      ensures o in TallyOver(IndexOf(r), ids, predicat) <==> Claimed(r.claims, p, r, predicat, o) > 0
    {
      DistributionCounts(r, ids, predicat, o);
      ClaimedCounts(r.claims, p, r, predicat, o);
    }
  }

  /** The distributions of work status and of work kind count the claims made about the group. */
  lemma {:induction false} StructureDistributes(p: Proposal, r: Records)
    ensures Distributes(p, r, "work.status", StructureOf(p, IndexOf(r)).statuses)
    ensures Distributes(p, r, "work.kind", StructureOf(p, IndexOf(r)).kinds)
  {
    TalliesAre(p, IndexOf(r));
    hide IndexOf, TallyOver, Distributes, SortedIds, MembersOf, StructureOf;
    TalliesDistribute(p, r, "work.status");
    TalliesDistribute(p, r, "work.kind");
  }

  lemma {:induction false} TalliesAre(p: Proposal, index: Index)
    ensures StructureOf(p, index).statuses == TallyOver(index, SortedIds(index.Subjects(MembersOf(p))), "work.status")
    ensures StructureOf(p, index).kinds == TallyOver(index, SortedIds(index.Subjects(MembersOf(p))), "work.kind")
  {
    hide TallyOver, SortedIds, MembersOf, Index.Subjects, Index.Internal, Index.Pairs;
  }

  // ---- The cluster ----

  /** Two members are in different roots. */
  ghost predicate SpansRoots(p: Proposal, r: Records) { exists a, b :: a != b && InRoot(p, r, a) && InRoot(p, r, b) }

  /** What is flagged: what the producer flags, and what the records show. */
  ghost predicate Flagged(p: Proposal, r: Records, flag: string) {
    || flag in p.flags
    || (flag == "conflicting_status"
        && (Conflicted(GroupSubjects(p, r.artifacts), r.conflicts) || Divided(GroupSubjects(p, r.artifacts), r.claims)))
    || (flag == "structurally_disconnected_members" && (exists a, b :: a != b && a in p.members && b in p.members) && !Linked(MembersOf(p), r.edges))
    || (flag == "spans_multiple_roots" && SpansRoots(p, r))
  }

  lemma {:induction false} Several<T(!new)>(s: set<T>)
    ensures |s| > 1 <==> exists a, b :: a != b && a in s && b in s
  {
    if |s| > 1 {
      var a :| a in s;
      assert |s - {a}| == |s| - 1;
      var b :| b in s - {a};
    }
    if a, b :| a != b && a in s && b in s { assert s == {a} + (s - {a}) && b in s - {a}; }
  }

  lemma {:induction false} MoreThanOne<T(!new)>(n: nat, holds: T -> bool)
    requires Counted(n, holds)
    ensures n > 1 <==> exists a, b :: a != b && holds(a) && holds(b)
  {
    var s: set<T> :| IsAll(s, holds) && |s| == n;
    Several(s);
    if a, b :| a != b && holds(a) && holds(b) { assert a in s && b in s; }
    if a, b :| a != b && a in s && b in s { assert holds(a) && holds(b); }
  }

  lemma {:induction false} RootsSpanned(p: Proposal, r: Records)
    ensures StructureOf(p, IndexOf(r)).roots > 1 <==> SpansRoots(p, r)
  {
    hide StructureOf, IndexOf, InRoot, Counted;
    StructureMeasures(p, r);
    var holds := (x: string) => InRoot(p, r, x);
    MoreThanOne(StructureOf(p, IndexOf(r)).roots, holds);
    if SpansRoots(p, r) {
      var a, b :| a != b && InRoot(p, r, a) && InRoot(p, r, b);
      assert holds(a) && holds(b);
    }
  }

  lemma {:induction false} SeveralMembers(p: Proposal, r: Records)
    ensures StructureOf(p, IndexOf(r)).members > 1 <==> exists a, b :: a != b && a in p.members && b in p.members
  {
    hide StructureOf, IndexOf, Counted;
    StructureMeasures(p, r);
    var holds := (m: string) => m in p.members;
    MoreThanOne(StructureOf(p, IndexOf(r)).members, holds);
    if a, b :| a != b && a in p.members && b in p.members { assert holds(a) && holds(b); }
  }

  lemma {:induction false} FlagsMean(p: Proposal, s: Structure, flag: string)
    ensures flag in FlagsOf(p, s) <==>
      || flag in p.flags || (flag == "conflicting_status" && (s.conflicting > 0 || |s.statuses| > 1))
      || (flag == "structurally_disconnected_members" && s.members > 1 && s.Support() == 0) || (flag == "spans_multiple_roots" && s.roots > 1)
  {
    hide Structure.Support;
  }

  lemma {:induction false} FlagsAre(p: Proposal, r: Records, flag: string)
    ensures flag in FlagsOf(p, StructureOf(p, IndexOf(r))) <==> Flagged(p, r, flag)
  {
    hide StructureOf, IndexOf, SpansRoots, Conflicted, Divided, Linked, GroupSubjects, MembersOf, Structure.Support, FlagsOf;
    FlagsMean(p, StructureOf(p, IndexOf(r)), flag);
    RootsSpanned(p, r);
    SeveralMembers(p, r);
    ConflictingIs(p, r);
    DividedIs(p, r);
    SupportIs(p, r);
  }

  ghost predicate SameIds(listed: seq<string>, given: seq<string>) { Ascending(listed) && forall x :: x in listed <==> x in given }

  /** The cluster says of the group what its proposal and the records say. */
  ghost predicate Describes(p: Proposal, r: Records, c: Cluster) {
    && c.candidateId == p.candidateId && c.candidateType == p.candidateType && SameIds(c.members, p.members)
    && SameIds(c.supporting, p.supporting) && SameIds(c.evidenceRefs, p.evidenceRefs)
    && Ascending(c.flags) && (forall flag :: flag in c.flags <==> Flagged(p, r, flag))
    && (c.crossRoot <==> p.crossRoot || SpansRoots(p, r)) && c.crossArchive == p.crossArchive
    && c.profile == p.profileId + "/" + p.profileVersion
    && (p.upstreamId.Some? && p.upstreamId.value != "" ==> c.upstreamId == p.upstreamId.value)
    && (p.upstreamId.None? || p.upstreamId == Some("") ==> c.upstreamId == p.candidateId)
    && (if p.candidateId in r.readiness then c.readiness == Some(r.readiness[p.candidateId]) else c.readiness == None)
    && Measures(p, r, c.structure) && Distributes(p, r, "work.status", c.structure.statuses) && Distributes(p, r, "work.kind", c.structure.kinds)
    && (c.confidence.level == Medium <==> c.class_ == Strong) && (c.confidence.level == Low <==> c.class_ != Strong)
    && (c.confidence.conflictStatus == Possible <==> Flagged(p, r, "conflicting_status"))
    && (c.confidence.conflictStatus == NoConflict <==> !Flagged(p, r, "conflicting_status"))
    && c.confidence.strength == Strength.Weak && c.confidence.derivation == Heuristic && c.confidence.completeness == Partial
    && c.confidence.authority == Authority.Candidate
  }

  lemma {:induction false} SortedSame(given: seq<string>)
    ensures SameIds(SortedIds(Distinct(given)), given)
  {
  }

  lemma {:induction false} LoweredDescribes(p: Proposal, r: Records, s: Structure)
    requires s == StructureOf(p, IndexOf(r))
    ensures Describes(p, r, Lowered(p, s, r.readiness))
  {
    hide StructureOf, IndexOf, FlagsOf, Flagged, Measures, Distributes, SpansRoots, SortedIds, SameIds;
    StructureMeasures(p, r);
    StructureDistributes(p, r);
    RootsSpanned(p, r);
    forall flag ensures flag in FlagsOf(p, s) <==> Flagged(p, r, flag) { FlagsAre(p, r, flag); }
    SortedSame(p.members);
    SortedSame(p.supporting);
    SortedSame(p.evidenceRefs);
  }

  /** Every compiled cluster describes its proposal over the records, with the class these allow. */
  lemma {:induction false} ClustersDescribe(payload: Option<Payload>, r: Records, i: nat)
    requires i < |InOrder(payload)|
    ensures i < |Compiled(payload, r)| && Describes(InOrder(payload)[i], r, Compiled(payload, r)[i])
    ensures Compiled(payload, r)[i].class_ == ClassAllowed(InOrder(payload)[i], r)
  {
    hide *;
    OneClusterEach(payload, r);
    ClassAt(payload, r, i);
    var p := InOrder(payload)[i];
    CompileIs(p, IndexOf(r), r.readiness);
    LoweredDescribes(p, r, StructureOf(p, IndexOf(r)));
  }
}
