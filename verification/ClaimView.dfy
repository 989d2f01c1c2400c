/** Reading claims: queries, pages and snapshot differentials (topology/claim_view.py). */
module ClaimView {
  import opened Wrappers
  import opened Ordering
  import opened Domain
  import opened ClaimProjection

  datatype Location = Location(
    evidenceId: string, path: Option<string>, line: Option<int>, locator: Option<string>, hash: Option<string>, revision: Option<string>)

  datatype ProjectionStatus = IsProjected | NotProjected | NotProjectable | Withheld

  datatype View = View(
    claimId: string, subject: string, subjectKind: string, predicat: string, value: string, interpretation: string, support: Support,
    cardinality: Cardinality, authority: Authority, confidence: Confidence, conflictStatus: ConflictStatus, conflictIds: seq<string>,
    locations: seq<Location>, status: ProjectionStatus, withheld: Option<Ineligible>, projectedIds: seq<string>)

  function ViewKey(v: View): string { v.claimId }

  datatype ConflictFilter = AnyConflict | WithoutConflict | WithConflict
  datatype ProjectionFilter = AnyProjection | OnlyProjected | OnlyUnprojected

  datatype Query = Query(
    subject: Option<string>, subjectKind: Option<string>, predicat: Option<string>, prefix: Option<string>, value: Option<string>,
    interpretation: Option<string>, conflict: ConflictFilter, projection: ProjectionFilter, path: Option<string>, minimumLocations: int,
    limit: int, after: Option<string>)

  const MAXIMUM_QUERY_LIMIT: int := 10_000

  /** `rstrip(".")`. */
  function WithoutTrailingDots(s: string): string {
    if s != "" && s[|s| - 1] == '.' then WithoutTrailingDots(s[..|s| - 1]) else s
  }

  datatype QueryError = LimitOutOfRange | NegativeLocations | EmptyPrefix

  /** `__post_init__`. */
  function Checked(q: Query): Result<Query, QueryError> {
    if !(1 <= q.limit <= MAXIMUM_QUERY_LIMIT) then Err(LimitOutOfRange)
    else if q.minimumLocations < 0 then Err(NegativeLocations)
    else if q.prefix.Some? && WithoutTrailingDots(q.prefix.value) == "" then Err(EmptyPrefix)
    else Ok(q)
  }

  function Places(v: View): set<(Option<string>, Option<int>, Option<string>)> {
    set l | l in v.locations :: (l.path, l.line, l.locator)
  }

  /** `matches`: every filter the query sets. */
  predicate Matches(q: Query, v: View) {
    && (q.subject.Some? ==> v.subject == q.subject.value)
    && (q.subjectKind.Some? ==> v.subjectKind == q.subjectKind.value)
    && (q.predicat.Some? ==> v.predicat == q.predicat.value)
    && (q.prefix.Some? ==>
          var prefix := WithoutTrailingDots(q.prefix.value); v.predicat == prefix || prefix + "." <= v.predicat)
    && (q.value.Some? ==> v.value == q.value.value)
    && (q.interpretation.Some? ==> v.interpretation == q.interpretation.value)
    && (q.conflict == WithoutConflict ==> v.conflictStatus == NoConflict)
    && (q.conflict == WithConflict ==> v.conflictStatus != NoConflict)
    && (q.projection == OnlyProjected ==> v.status == IsProjected)
    && (q.projection == OnlyUnprojected ==> v.status != IsProjected)
    && (q.path.Some? ==> exists l :: l in v.locations && l.path == q.path)
    && (q.minimumLocations != 0 ==> |Places(v)| >= q.minimumLocations)
  }

  // ---- The index ----

  datatype Index = Index(views: seq<View>, policy: Option<string>)

  datatype IndexError = DuplicateClaim

  predicate Indexed(views: seq<View>) {
    forall i, j :: 0 <= i < j < |views| ==> Less(views[i].claimId, views[j].claimId)
  }

  /** `SemanticClaimIndex`: the views in ascending order of identity; two views of one identity are refused. */
  function MakeIndex(views: seq<View>, policy: Option<string>): (r: Result<Index, IndexError>)
    ensures r.Ok? <==> forall i, j :: 0 <= i < j < |views| ==> views[i].claimId != views[j].claimId
    ensures r.Ok? ==> Indexed(r.value.views) && multiset(r.value.views) == multiset(views) && r.value.policy == policy
  {
    var sorted := SortBy(views, ViewKey);
    DistinctExactlyWhenIndexed(views);
    if |Distinct(Ids(sorted))| == |sorted| then Ok(Index(sorted, policy)) else Err(DuplicateClaim)
  }

  function Ids(views: seq<View>): (r: seq<string>)
    ensures |r| == |views| && forall i :: 0 <= i < |r| ==> r[i] == views[i].claimId
  {
    seq(|views|, i requires 0 <= i < |views| => views[i].claimId)
  }

  lemma {:induction false} DistinctExactlyWhenIndexed(views: seq<View>)
    ensures var sorted := SortBy(views, ViewKey);
      && (|Distinct(Ids(sorted))| == |sorted| <==> forall i, j :: 0 <= i < j < |views| ==> views[i].claimId != views[j].claimId)
      && (|Distinct(Ids(sorted))| == |sorted| ==> Indexed(sorted))
  {
    var sorted := SortBy(views, ViewKey);
    DistinctCount(Ids(sorted));
    DistinctCount(Ids(views));
    assert Distinct(Ids(sorted)) == Distinct(Ids(views)) by {
      IdsOfMembers(sorted);
      IdsOfMembers(views);
      forall v ensures v in sorted <==> v in views { SameMembers(sorted, views, v); }
    }
    if |Distinct(Ids(sorted))| == |sorted| { SortByStrict(views, ViewKey); }
  }

  lemma {:induction false} IdsOfMembers(views: seq<View>)
    ensures Distinct(Ids(views)) == set v | v in views :: v.claimId
  {
    forall v | v in views ensures v.claimId in Ids(views) {
      var i :| 0 <= i < |views| && views[i] == v;
      assert Ids(views)[i] == v.claimId;
    }
  }

  // ---- Pages ----

  function Matched(views: seq<View>, q: Query): (r: seq<View>)
    ensures forall v :: v in r <==> v in views && Matches(q, v)
    ensures Indexed(views) ==> Indexed(r)
  {
    if views == [] then []
    else
      var rest := Matched(views[1..], q);
      assert views == [views[0]] + views[1..];
      if Matches(q, views[0]) then
        assert Indexed(views) ==> forall j :: 0 <= j < |rest| ==> Less(views[0].claimId, rest[j].claimId) by {
          if Indexed(views) {
            forall j | 0 <= j < |rest| ensures Less(views[0].claimId, rest[j].claimId) {
              assert rest[j] in views[1..];
              var i :| 0 <= i < |views[1..]| && views[1..][i] == rest[j];
              assert views[i + 1] == rest[j];
            }
          }
        }
        [views[0]] + rest
      else rest
  }

  /** The views after a key. */
  function After(views: seq<View>, key: Option<string>): seq<View> {
    if key.None? then views
    else if views == [] then []
    else (if Less(key.value, views[0].claimId) then [views[0]] else []) + After(views[1..], key)
  }

  datatype Page = Page(total: nat, truncated: bool, next: Option<string>, claims: seq<View>)

  /** `query`: one page of what matches. */
  function PageOf(index: Index, q: Query): Page
    requires Checked(q).Ok?
  {
    var matched := Matched(index.views, q);
    var remaining := After(matched, q.after);
    var claims := if |remaining| <= q.limit then remaining else remaining[..q.limit];
    var truncated := |remaining| > |claims|;
    Page(|matched|, truncated, if truncated && claims != [] then Some(claims[|claims| - 1].claimId) else None, claims)
  }

  lemma {:induction false} AfterIsSuffix(views: seq<View>, n: nat)
    requires Indexed(views) && 0 < n <= |views|
    ensures After(views, Some(views[n - 1].claimId)) == views[n..]
  {
    var key := views[n - 1].claimId;
    if n == 1 {
      AllLater(views[1..], key);
      assert !Less(key, views[0].claimId);
    } else {
      AfterIsSuffix(views[1..], n - 1);
      assert Less(views[0].claimId, key);
      LessTrichotomy(views[0].claimId, key);
      assert views[1..][n - 1..] == views[n..];
    }
  }

  lemma {:induction false} AllLater(views: seq<View>, key: string)
    requires forall i :: 0 <= i < |views| ==> Less(key, views[i].claimId)
    ensures After(views, Some(key)) == views
  {
    if views != [] {
      AllLater(views[1..], key);
      assert views == [views[0]] + views[1..];
    }
  }

  /** A key that is where some match ended, or none. */
  ghost predicate EndsAt(matched: seq<View>, after: Option<string>, n: nat) {
    n <= |matched| && (if n == 0 then after == None else after == Some(matched[n - 1].claimId))
  }

  lemma {:induction false} PageFrom(index: Index, q: Query, n: nat)
    requires Checked(q).Ok? && Indexed(index.views) && EndsAt(Matched(index.views, q), q.after, n)
    ensures var matched := Matched(index.views, q);
      var page := PageOf(index, q);
      var end := if n + q.limit < |matched| then n + q.limit else |matched|;
      && page.claims == matched[n..end] && page.total == |matched| && page.truncated == (end < |matched|)
      && (if page.truncated then EndsAt(matched, page.next, end) else page.next == None)
  {
    var matched := Matched(index.views, q);
    if n > 0 { AfterIsSuffix(matched, n); }
  }

  lemma {:induction false} AfterIsNoFilter(views: seq<View>, q: Query, after: Option<string>)
    ensures Matched(views, q.(after := after)) == Matched(views, q)
  {
    if views != [] { AfterIsNoFilter(views[1..], q, after); }
  }

  /** The pages read by following `next` from where `n` matches were read. */
  function PagesFrom(index: Index, q: Query, ghost n: nat): seq<Page>
    requires Checked(q).Ok? && Indexed(index.views) && EndsAt(Matched(index.views, q), q.after, n)
    decreases |Matched(index.views, q)| - n
  {
    var page := PageOf(index, q);
    PageFrom(index, q, n);
    if page.next.None? then [page]
    else
      AfterIsNoFilter(index.views, q, page.next);
      [page] + PagesFrom(index, q.(after := page.next), n + q.limit)
  }

  function Joined(pages: seq<Page>): seq<View> {
    if pages == [] then [] else pages[0].claims + Joined(pages[1..])
  }

  lemma {:induction false} PagesJoin(index: Index, q: Query, n: nat)
    requires Checked(q).Ok? && Indexed(index.views) && EndsAt(Matched(index.views, q), q.after, n)
    ensures var pages := PagesFrom(index, q, n);
      && Joined(pages) == Matched(index.views, q)[n..]
      && (forall i :: 0 <= i < |pages| ==> pages[i].total == |Matched(index.views, q)|)
      && (forall i :: 0 <= i < |pages| - 1 ==> |pages[i].claims| == q.limit && pages[i].truncated)
      && !pages[|pages| - 1].truncated
    decreases |Matched(index.views, q)| - n
  {
    hide PageOf, Matched, Matches, After;
    PageFrom(index, q, n);
    var matched, page := Matched(index.views, q), PageOf(index, q);
    if page.next.Some? {
      AfterIsNoFilter(index.views, q, page.next);
      var rest := PagesFrom(index, q.(after := page.next), n + q.limit);
      PagesJoin(index, q.(after := page.next), n + q.limit);
      assert matched[n..] == matched[n..n + q.limit] + matched[n + q.limit..];
      assert PagesFrom(index, q, n)[1..] == rest;
    } else {
      assert PagesFrom(index, q, n) == [page];
      assert Joined([page]) == page.claims;
    }
  }

  /** Following the pages of a query from the first one ends, and together they are all the matches, each
      once and in order of identity; every page reports how many there are in all. */
  lemma {:induction false} PagesAreAllMatches(index: Index, q: Query)
    requires Checked(q).Ok? && Indexed(index.views) && q.after == None
    ensures var pages := PagesFrom(index, q, 0);
      && Joined(pages) == Matched(index.views, q) && Indexed(Joined(pages))
      && (forall v :: v in Joined(pages) <==> v in index.views && Matches(q, v))
      && (forall i :: 0 <= i < |pages| ==> pages[i].total == |Joined(pages)|)
      && (forall i :: 0 <= i < |pages| - 1 ==> |pages[i].claims| == q.limit && pages[i].truncated) && !pages[|pages| - 1].truncated
  {
    hide Matches, PagesFrom;
    PagesJoin(index, q, 0);
    assert Matched(index.views, q)[0..] == Matched(index.views, q);
  }

  // ---- Differentials ----

  datatype FieldName =
    | SourceLocations | SupportField | CardinalityField | AuthorityField | ConfidenceField | ConflictStatusField | ConflictIdsField
    | StatusField | WithheldField | ProjectedIdsField

  datatype Category = EvidenceCategory | PolicyCategory | ReconciliationCategory | ProjectionCategory

  type Signature = set<(Option<string>, Option<int>, Option<string>, Option<string>, Option<string>)>

  /** `_support_signature`: where the support was read, whichever packet carried it. */
  function SupportSignature(v: View): Signature {
    set l | l in v.locations :: (l.path, l.line, l.locator, l.hash, l.revision)
  }

  /** What a differential compares of a view. */
  datatype Reading = Reading(
    signature: Signature, support: Support, cardinality: Cardinality, authority: Authority, confidence: Confidence,
    conflictStatus: ConflictStatus, conflictIds: seq<string>, status: ProjectionStatus, withheld: Option<Ineligible>, projectedIds: seq<string>)

  function ReadingOf(v: View): Reading {
    Reading(SupportSignature(v), v.support, v.cardinality, v.authority, v.confidence, v.conflictStatus, v.conflictIds, v.status, v.withheld,
            v.projectedIds)
  }

  function If(moved: bool, name: FieldName): seq<FieldName> { if moved then [name] else [] }

  function MovedFields(category: Category, old_: View, new_: View): seq<FieldName> {
    match category
    case EvidenceCategory => If(SupportSignature(old_) != SupportSignature(new_), SourceLocations)
    case PolicyCategory => If(old_.support != new_.support, SupportField) + If(old_.cardinality != new_.cardinality, CardinalityField)
    case ReconciliationCategory =>
      If(old_.authority != new_.authority, AuthorityField) + If(old_.confidence != new_.confidence, ConfidenceField)
      + If(old_.conflictStatus != new_.conflictStatus, ConflictStatusField) + If(old_.conflictIds != new_.conflictIds, ConflictIdsField)
    case ProjectionCategory =>
      If(old_.status != new_.status, StatusField) + If(old_.withheld != new_.withheld, WithheldField)
      + If(old_.projectedIds != new_.projectedIds, ProjectedIdsField)
  }

  const CATEGORIES: seq<Category> := [EvidenceCategory, PolicyCategory, ReconciliationCategory, ProjectionCategory]

  datatype Change = Change(claimId: string, before: View, after: View, fields: seq<FieldName>, categories: seq<Category>, byPolicy: bool)

  datatype Differential = Differential(added: seq<View>, removed: seq<View>, changed: seq<Change>, policyChanged: bool)

  /** The fields that moved in the first `n` categories. */
  function FieldsMoved(old_: View, new_: View, n: nat): seq<FieldName>
    requires n <= |CATEGORIES|
  {
    if n == 0 then [] else FieldsMoved(old_, new_, n - 1) + MovedFields(CATEGORIES[n - 1], old_, new_)
  }

  function CategoriesMoved(old_: View, new_: View, n: nat): seq<Category>
    requires n <= |CATEGORIES|
  {
    if n == 0 then []
    else CategoriesMoved(old_, new_, n - 1) + if MovedFields(CATEGORIES[n - 1], old_, new_) != [] then [CATEGORIES[n - 1]] else []
  }

  function Scoped(views: seq<View>, q: Option<Query>): (r: map<string, View>)
    ensures forall id :: id in r ==> r[id] in views && r[id].claimId == id && (q.Some? ==> Matches(q.value, r[id]))
  {
    if views == [] then map[]
    else
      var earlier := Scoped(views[..|views| - 1], q);
      var last := views[|views| - 1];
      if q.None? || Matches(q.value, last) then earlier[last.claimId := last] else earlier
  }

  function ChangeOf(id: string, old_: View, new_: View, policyChanged: bool): Change {
    var categories := CategoriesMoved(old_, new_, |CATEGORIES|);
    Change(id, old_, new_, FieldsMoved(old_, new_, |CATEGORIES|), categories, policyChanged && PolicyCategory in categories)
  }

  function ChangesAt(before: map<string, View>, after: map<string, View>, policyChanged: bool, ids: seq<string>): seq<Change>
  {
    if ids == [] then []
    else ChangesAt(before, after, policyChanged, ids[..|ids| - 1]) + ChangeAt(before, after, policyChanged, ids[|ids| - 1])
  }

  function ChangeAt(before: map<string, View>, after: map<string, View>, policyChanged: bool, id: string): seq<Change> {
    if id in before && id in after && ChangeOf(id, before[id], after[id], policyChanged).fields != []
    then [ChangeOf(id, before[id], after[id], policyChanged)] else []
  }

  predicate PolicyChanged(a: Option<string>, b: Option<string>) { a.Some? && b.Some? && a != b }

  function DifferentialOf(before: map<string, View>, after: map<string, View>, policyChanged: bool): Differential {
    Differential(InKeyOrder(after - before.Keys), InKeyOrder(before - after.Keys),
                 ChangesAt(before, after, policyChanged, SortedIds(before.Keys * after.Keys)), policyChanged)
  }

  lemma {:induction false} MoreChanges(before: map<string, View>, after: map<string, View>, policyChanged: bool, ids: seq<string>, i: nat)
    ensures ChangesAt(before, after, policyChanged, []) == []
    ensures i < |ids| ==>
      ChangesAt(before, after, policyChanged, ids[..i + 1])
        == ChangesAt(before, after, policyChanged, ids[..i]) + ChangeAt(before, after, policyChanged, ids[i])
  {
    hide ChangeAt;
    if i < |ids| { assert ids[..i + 1][..i] == ids[..i]; }
  }

  lemma {:induction false} DifferentialIs(before: map<string, View>, after: map<string, View>, policyChanged: bool)
    ensures DifferentialOf(before, after, policyChanged) ==
      Differential(InKeyOrder(after - before.Keys), InKeyOrder(before - after.Keys),
                   ChangesAt(before, after, policyChanged, SortedIds(before.Keys * after.Keys)), policyChanged)
  {
    hide ChangesAt, InKeyOrder;
  }

  /** `differential`. */
  method Compare(earlier: Index, later: Index, q: Option<Query>) returns (d: Differential)
    ensures d == DifferentialOf(Scoped(earlier.views, q), Scoped(later.views, q), PolicyChanged(earlier.policy, later.policy))
    ensures Keyed(Scoped(earlier.views, q)) && Keyed(Scoped(later.views, q))
  {
    hide *;
    var before, after := Scoped(earlier.views, q), Scoped(later.views, q);
    var policyChanged := PolicyChanged(earlier.policy, later.policy);
    var changed: seq<Change> := [];
    var ids := SortedIds(before.Keys * after.Keys);
    MoreChanges(before, after, policyChanged, ids, 0);
    for i := 0 to |ids|
      invariant changed == ChangesAt(before, after, policyChanged, ids[..i])
    {
      MoreChanges(before, after, policyChanged, ids, i);
      assert ids[i] in ids;
      assert ids[i] in before.Keys * after.Keys;
      var change := CompareAt(before, after, policyChanged, ids[i]);
      changed := changed + change;
    }
    assert ids[..|ids|] == ids;
    DifferentialIs(before, after, policyChanged);
    ScopedIsKeyed(earlier.views, q);
    ScopedIsKeyed(later.views, q);
    d := Differential(InKeyOrder(after - before.Keys), InKeyOrder(before - after.Keys), changed, policyChanged);
  }

  /** The body of the loop: the change at one claim, if any. */
  method CompareAt(before: map<string, View>, after: map<string, View>, policyChanged: bool, id: string) returns (change: seq<Change>)
    requires id in before && id in after
    ensures change == ChangeAt(before, after, policyChanged, id)
  {
    hide FieldsMoved, CategoriesMoved;
    var fields, categories := CompareViews(before[id], after[id]);
    change := if fields != [] then [Change(id, before[id], after[id], fields, categories, policyChanged && PolicyCategory in categories)] else [];
  }

  /** The inner loop, over the categories. */
  method CompareViews(old_: View, new_: View) returns (fields: seq<FieldName>, categories: seq<Category>)
    ensures fields == FieldsMoved(old_, new_, |CATEGORIES|) && categories == CategoriesMoved(old_, new_, |CATEGORIES|)
  {
    hide MovedFields;
    fields, categories := [], [];
    for i := 0 to |CATEGORIES|
      invariant fields == FieldsMoved(old_, new_, i) && categories == CategoriesMoved(old_, new_, i)
    {
      var moved := MovedFields(CATEGORIES[i], old_, new_);
      if moved != [] {
        fields := fields + moved;
        categories := categories + [CATEGORIES[i]];
      }
    }
  }

  // ---- What a differential says ----

  lemma {:induction false} AllFieldsMoved(old_: View, new_: View)
    ensures FieldsMoved(old_, new_, |CATEGORIES|) ==
      MovedFields(EvidenceCategory, old_, new_) + MovedFields(PolicyCategory, old_, new_)
      + MovedFields(ReconciliationCategory, old_, new_) + MovedFields(ProjectionCategory, old_, new_)
  {
    hide MovedFields;
    assert FieldsMoved(old_, new_, 1) == MovedFields(EvidenceCategory, old_, new_);
    assert FieldsMoved(old_, new_, 2) == FieldsMoved(old_, new_, 1) + MovedFields(PolicyCategory, old_, new_);
    assert FieldsMoved(old_, new_, 3) == FieldsMoved(old_, new_, 2) + MovedFields(ReconciliationCategory, old_, new_);
  }

  /** No field moved exactly when the views read the same. */
  lemma {:induction false} NothingMovedExactlyWhenSame(old_: View, new_: View)
    ensures FieldsMoved(old_, new_, |CATEGORIES|) == [] <==> ReadingOf(old_) == ReadingOf(new_)
  {
    AllFieldsMoved(old_, new_);
  }

  lemma {:induction false} ChangesMembers(before: map<string, View>, after: map<string, View>, policyChanged: bool, ids: seq<string>, c: Change)
    ensures c in ChangesAt(before, after, policyChanged, ids) <==> c.claimId in ids && c in ChangeAt(before, after, policyChanged, c.claimId)
  {
    hide ChangeAt;
    if ids != [] {
      var n := |ids| - 1;
      ChangesMembers(before, after, policyChanged, ids[..n], c);
      assert ids == ids[..n] + [ids[n]];
      ChangeNamesItsClaim(before, after, policyChanged, ids[n], c);
    }
  }

  lemma {:induction false} ChangeNamesItsClaim(before: map<string, View>, after: map<string, View>, policyChanged: bool, id: string, c: Change)
    ensures c in ChangeAt(before, after, policyChanged, id) ==> c.claimId == id
  {
    hide FieldsMoved, CategoriesMoved;
  }

  ghost predicate Keyed(m: map<string, View>) { forall id :: id in m ==> m[id].claimId == id }

  /** The change is of a claim in both snapshots that reads differently in them. */
  ghost predicate IsChange(before: map<string, View>, after: map<string, View>, c: Change) {
    c.claimId in before && c.claimId in after && c.before == before[c.claimId] && c.after == after[c.claimId]
    && ReadingOf(c.before) != ReadingOf(c.after)
  }

  lemma {:induction false} ChangeAtMeans(before: map<string, View>, after: map<string, View>, policyChanged: bool, id: string)
    ensures ChangeAt(before, after, policyChanged, id) ==
      if id in before && id in after && ReadingOf(before[id]) != ReadingOf(after[id]) then [ChangeOf(id, before[id], after[id], policyChanged)] else []
  {
    hide FieldsMoved, CategoriesMoved, ReadingOf;
    if id in before && id in after { NothingMovedExactlyWhenSame(before[id], after[id]); }
  }

  /** The view is of a claim only the first snapshot has. */
  ghost predicate OnlyIn(m: map<string, View>, other: map<string, View>, v: View) {
    v.claimId in m && m[v.claimId] == v && v.claimId !in other
  }

  lemma {:induction false} OnlyInMembers(m: map<string, View>, other: map<string, View>, v: View)
    requires Keyed(m)
    ensures v in InKeyOrder(m - other.Keys) <==> OnlyIn(m, other, v)
  {
    var rest := m - other.Keys;
    if v in InKeyOrder(rest) {
      var k :| k in rest && rest[k] == v;
      assert k in m && m[k] == v;
    }
    if OnlyIn(m, other, v) { assert v.claimId in rest && rest[v.claimId] == v; }
  }

  lemma {:induction false} ChangedMembers(before: map<string, View>, after: map<string, View>, policyChanged: bool, c: Change)
    requires c in ChangesAt(before, after, policyChanged, SortedIds(before.Keys * after.Keys))
    ensures IsChange(before, after, c)
  {
    hide ChangesAt, ChangeAt, ReadingOf, FieldsMoved, CategoriesMoved;
    ChangesMembers(before, after, policyChanged, SortedIds(before.Keys * after.Keys), c);
    ChangeAtMeans(before, after, policyChanged, c.claimId);
  }

  lemma {:induction false} ChangesComplete(before: map<string, View>, after: map<string, View>, policyChanged: bool, id: string)
    requires id in before && id in after && ReadingOf(before[id]) != ReadingOf(after[id])
    ensures exists c :: c in ChangesAt(before, after, policyChanged, SortedIds(before.Keys * after.Keys)) && c.claimId == id
  {
    hide ChangesAt, ChangeAt, ReadingOf, FieldsMoved, CategoriesMoved;
    var c := ChangeOf(id, before[id], after[id], policyChanged);
    ChangeAtMeans(before, after, policyChanged, id);
    ChangesMembers(before, after, policyChanged, SortedIds(before.Keys * after.Keys), c);
  }

  ghost predicate Reported(d: Differential, id: string) { exists c :: c in d.changed && c.claimId == id }

  /** Every claim of either snapshot is accounted for: added, removed, changed because it reads
      differently, or left out because it reads the same. */
  lemma {:induction false} DifferentialAccounts(before: map<string, View>, after: map<string, View>, policyChanged: bool)
    requires Keyed(before) && Keyed(after)
    ensures var d := DifferentialOf(before, after, policyChanged);
      && (forall v :: v in d.added <==> OnlyIn(after, before, v)) && (forall v :: v in d.removed <==> OnlyIn(before, after, v))
      && (forall c :: c in d.changed ==> IsChange(before, after, c))
      && (forall id :: Reported(d, id) <==> id in before && id in after && ReadingOf(before[id]) != ReadingOf(after[id]))
  {
    hide ChangesAt, ReadingOf, InKeyOrder, OnlyIn;
    var d := DifferentialOf(before, after, policyChanged);
    forall v ensures v in d.added <==> OnlyIn(after, before, v) { OnlyInMembers(after, before, v); }
    forall v ensures v in d.removed <==> OnlyIn(before, after, v) { OnlyInMembers(before, after, v); }
    forall c | c in d.changed ensures IsChange(before, after, c) { ChangedMembers(before, after, policyChanged, c); }
    forall id | id in before && id in after && ReadingOf(before[id]) != ReadingOf(after[id]) ensures Reported(d, id) {
      ChangesComplete(before, after, policyChanged, id);
    }
  }

  /** Two equal snapshots have no differences. */
  lemma {:induction false} NoSelfDifference(m: map<string, View>, policyChanged: bool)
    ensures var d := DifferentialOf(m, m, policyChanged); d.added == [] && d.removed == [] && d.changed == []
  {
    hide ChangesAt, ChangeAt, ReadingOf, FieldsMoved, CategoriesMoved;
    var d := DifferentialOf(m, m, policyChanged);
    assert m - m.Keys == map[];
    if d.changed != [] {
      var c := d.changed[0];
      ChangesMembers(m, m, policyChanged, SortedIds(m.Keys * m.Keys), c);
      ChangeAtMeans(m, m, policyChanged, c.claimId);
    }
  }

  function Mirror(c: Change): Change { c.(before := c.after, after := c.before) }

  function MirrorAll(cs: seq<Change>): (r: seq<Change>)
    ensures |r| == |cs|
  {
    if cs == [] then [] else MirrorAll(cs[..|cs| - 1]) + [Mirror(cs[|cs| - 1])]
  }

  lemma {:induction false} MirrorJoins(a: seq<Change>, c: Change)
    ensures MirrorAll(a + [c]) == MirrorAll(a) + [Mirror(c)] && MirrorAll(a + []) == MirrorAll(a)
  {
    assert (a + [c])[..|a|] == a && a + [] == a;
  }

  lemma {:induction false} MovedEitherWay(category: Category, a: View, b: View)
    ensures MovedFields(category, a, b) == MovedFields(category, b, a)
  {
  }

  lemma {:induction false} AllMovedEitherWay(a: View, b: View, n: nat)
    requires n <= |CATEGORIES|
    ensures FieldsMoved(a, b, n) == FieldsMoved(b, a, n) && CategoriesMoved(a, b, n) == CategoriesMoved(b, a, n)
  {
    hide MovedFields;
    if n > 0 {
      AllMovedEitherWay(a, b, n - 1);
      MovedEitherWay(CATEGORIES[n - 1], a, b);
    }
  }

  lemma {:induction false} ChangesMirrored(before: map<string, View>, after: map<string, View>, policyChanged: bool, ids: seq<string>)
    ensures ChangesAt(after, before, policyChanged, ids) == MirrorAll(ChangesAt(before, after, policyChanged, ids))
  {
    hide ChangeAt;
    if ids != [] {
      var n := |ids| - 1;
      ChangesMirrored(before, after, policyChanged, ids[..n]);
      ChangeMirrored(before, after, policyChanged, ids[n]);
      var earlier, more := ChangesAt(before, after, policyChanged, ids[..n]), ChangeAt(before, after, policyChanged, ids[n]);
      if more == [] {
        assert earlier + more == earlier && MirrorAll(earlier) + [] == MirrorAll(earlier);
      } else {
        MirrorJoins(earlier, more[0]);
        assert more == [more[0]];
      }
    }
  }

  lemma {:induction false} ChangeMirrored(before: map<string, View>, after: map<string, View>, policyChanged: bool, id: string)
    ensures |ChangeAt(before, after, policyChanged, id)| <= 1
    ensures ChangeAt(after, before, policyChanged, id) ==
      if ChangeAt(before, after, policyChanged, id) == [] then [] else [Mirror(ChangeAt(before, after, policyChanged, id)[0])]
  {
    hide FieldsMoved, CategoriesMoved;
    if id in before && id in after { AllMovedEitherWay(before[id], after[id], |CATEGORIES|); }
  }

  /** Comparing the other way round swaps what was added and removed and mirrors each change. */
  lemma {:induction false} DifferentialMirrors(before: map<string, View>, after: map<string, View>, policyChanged: bool)
    ensures var d, e := DifferentialOf(before, after, policyChanged), DifferentialOf(after, before, policyChanged);
      e.added == d.removed && e.removed == d.added && e.changed == MirrorAll(d.changed)
  {
    hide ChangesAt;
    assert before.Keys * after.Keys == after.Keys * before.Keys;
    ChangesMirrored(before, after, policyChanged, SortedIds(before.Keys * after.Keys));
  }

  // ---- Patching ----

  function Readings(m: map<string, View>): map<string, Reading> { map id | id in m :: ReadingOf(m[id]) }

  function ViewReadings(vs: seq<View>): map<string, Reading> {
    if vs == [] then map[] else ViewReadings(vs[..|vs| - 1])[vs[|vs| - 1].claimId := ReadingOf(vs[|vs| - 1])]
  }

  function ChangeReadings(cs: seq<Change>): map<string, Reading> {
    if cs == [] then map[] else ChangeReadings(cs[..|cs| - 1])[cs[|cs| - 1].claimId := ReadingOf(cs[|cs| - 1].after)]
  }

  /** An earlier snapshot's readings with a differential applied to them. */
  function Patched(readings: map<string, Reading>, d: Differential): map<string, Reading> {
    (readings - ViewReadings(d.removed).Keys) + ChangeReadings(d.changed) + ViewReadings(d.added)
  }

  lemma {:induction false} ViewReadingsOf(vs: seq<View>, m: map<string, View>, id: string)
    requires forall v :: v in vs ==> v.claimId in m && m[v.claimId] == v
    ensures id in ViewReadings(vs) <==> id in m && m[id] in vs && m[id].claimId == id
    ensures id in ViewReadings(vs) ==> ViewReadings(vs)[id] == ReadingOf(m[id])
  {
    hide ReadingOf;
    if vs != [] {
      var n := |vs| - 1;
      ViewReadingsOf(vs[..n], m, id);
      assert vs == vs[..n] + [vs[n]];
    }
  }

  lemma {:induction false} ChangeReadingsOf(cs: seq<Change>, before: map<string, View>, after: map<string, View>, id: string)
    requires forall c :: c in cs ==> IsChange(before, after, c)
    ensures id in ChangeReadings(cs) <==> exists c :: c in cs && c.claimId == id
    ensures id in ChangeReadings(cs) ==> id in after && ChangeReadings(cs)[id] == ReadingOf(after[id])
  {
    hide ReadingOf;
    if cs != [] {
      var n := |cs| - 1;
      ChangeReadingsOf(cs[..n], before, after, id);
      assert cs == cs[..n] + [cs[n]];
      assert cs[n] in cs && IsChange(before, after, cs[n]);
    }
  }

  /** A differential holds all there is to know: applied to the earlier readings it gives the later ones. */
  lemma {:induction false} PatchGivesLater(before: map<string, View>, after: map<string, View>, policyChanged: bool)
    requires Keyed(before) && Keyed(after)
    ensures Patched(Readings(before), DifferentialOf(before, after, policyChanged)) == Readings(after)
  {
    hide ReadingOf, DifferentialOf, ViewReadings, ChangeReadings;
    var d := DifferentialOf(before, after, policyChanged);
    DifferentialAccounts(before, after, policyChanged);
    var p := Patched(Readings(before), d);
    forall id ensures (id in p <==> id in after) && (id in after ==> p[id] == ReadingOf(after[id])) {
      ViewReadingsOf(d.added, after, id);
      ViewReadingsOf(d.removed, before, id);
      ChangeReadingsOf(d.changed, before, after, id);
      assert Reported(d, id) <==> id in ChangeReadings(d.changed);
      if id in before { assert before[id] in d.removed <==> OnlyIn(before, after, before[id]); }
      if id in after { assert after[id] in d.added <==> OnlyIn(after, before, after[id]); }
    }
  }

  // ---- Scoping ----

  lemma {:induction false} ScopedIsKeyed(views: seq<View>, q: Option<Query>)
    ensures Keyed(Scoped(views, q))
  {
  }

  /** What a differential compares of an index is exactly the views in scope, by identity. */
  lemma {:induction false} ScopedHolds(views: seq<View>, q: Option<Query>, v: View)
    requires Indexed(views)
    ensures v.claimId in Scoped(views, q) && Scoped(views, q)[v.claimId] == v <==> v in views && (q.Some? ==> Matches(q.value, v))
  {
    hide Matches;
    if views != [] {
      var n := |views| - 1;
      var earlier, last := views[..n], views[n];
      ScopedHolds(earlier, q, v);
      assert views == earlier + [last];
      assert v in views <==> v in earlier || v == last;
      NewKey(views, q, v);
      var scoped := Scoped(earlier, q);
      if v.claimId == last.claimId {
        assert v !in earlier;
        assert v == last <==> scoped[last.claimId := last][v.claimId] == v;
      }
    }
  }

  lemma {:induction false} NewKey(views: seq<View>, q: Option<Query>, v: View)
    requires Indexed(views) && views != []
    ensures v in views[..|views| - 1] ==> v.claimId != views[|views| - 1].claimId
  {
    var n := |views| - 1;
    if v in views[..n] {
      var i :| 0 <= i < n && views[..n][i] == v;
      assert Less(views[i].claimId, views[n].claimId);
    }
  }
}
