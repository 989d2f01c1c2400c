/** What a claim query matches and what a change reports, in terms of the views themselves
    (topology/claim_view.py). */
module ClaimQueries {
  import opened Wrappers
  import opened Ordering
  import opened Domain
  import opened ClaimView

  // ---- Dotted names ----

  /** The segments between the dots. */
  function Segments(s: string): (r: seq<string>)
    ensures |r| >= 1
  {
    if s == "" then [""]
    else
      var rest := Segments(s[1..]);
      if s[0] == '.' then [""] + rest else [[s[0]] + rest[0]] + rest[1..]
  }

  lemma {:induction false} SegmentsOf(s: string)
    requires s != ""
    ensures Segments(s) ==
      if s[0] == '.' then [""] + Segments(s[1..]) else [[s[0]] + Segments(s[1..])[0]] + Segments(s[1..])[1..]
  {
  }

  /** A name starts with another one followed by a dot, or is that name, exactly when its segments start with
      those of the other. */
  lemma {:induction false} SegmentsStart(base: string, name: string)
    ensures Segments(base) <= Segments(name) <==> name == base || base + "." <= name
  {
    if base == "" {
      EmptyStarts(name);
    } else if name == "" {
      SegmentsOf(base);
      hide Segments;
      NothingStarts(base, Segments(base));
    } else {
      SegmentsStart(base[1..], name[1..]);
      SegmentsOf(base);
      SegmentsOf(name);
      ConsPrefix(base[0], base[1..] + ".", name);
      HeadsEqual(base, name);
      hide Segments;
      var a, b := Segments(base[1..]), Segments(name[1..]);
      if base[0] == '.' && name[0] == '.' {
        TailsStart([""], a, [""], b);
      } else if base[0] != '.' && name[0] != '.' {
        HeadsStart(base[0], a, name[0], b);
      } else {
        assert Segments(base)[0] != Segments(name)[0];
      }
    }
  }

  lemma {:induction false} EmptyStarts(name: string)
    ensures Segments("") <= Segments(name) <==> name == "" || "" + "." <= name
  {
    if name != "" { SegmentsOf(name); }
  }

  lemma {:induction false} NothingStarts(base: string, segments: seq<string>)
    requires base != "" && |segments| >= 1 && (base[0] == '.' ==> |segments| >= 2) && (base[0] != '.' ==> segments[0] != "")
    ensures !(segments <= [""])
  {
  }

  lemma {:induction false} HeadsEqual(base: string, name: string)
    requires base != "" && name != ""
    ensures name == base <==> name[0] == base[0] && name[1..] == base[1..]
    ensures base + "." == [base[0]] + (base[1..] + ".")
  {
    assert base == [base[0]] + base[1..] && name == [name[0]] + name[1..];
  }

  lemma {:induction false} ConsPrefix(c: char, rest: string, name: string)
    requires name != ""
    ensures [c] + rest <= name <==> name[0] == c && rest <= name[1..]
  {
    assert name == [name[0]] + name[1..];
    if rest <= name[1..] && name[0] == c { assert name[..|rest| + 1] == [c] + rest; }
    if [c] + rest <= name { assert ([c] + rest)[1..] == rest; }
  }

  lemma {:induction false} TailsStart(x: seq<string>, a: seq<string>, y: seq<string>, b: seq<string>)
    requires |x| == |y| == 1 && x == y
    ensures x + a <= y + b <==> a <= b
  {
    if a <= b { assert y + b == x + a + b[|a|..]; }
    if x + a <= y + b {
      assert (x + a)[1..] == a && (y + b)[1..] == b;
      assert forall i :: 0 <= i < |a| ==> a[i] == (x + a)[i + 1] && (y + b)[i + 1] == b[i];
    }
  }

  lemma {:induction false} HeadsStart(c: char, a: seq<string>, d: char, b: seq<string>)
    requires |a| >= 1 && |b| >= 1
    ensures [[c] + a[0]] + a[1..] <= [[d] + b[0]] + b[1..] <==> c == d && a <= b
  {
    var x, y := [c] + a[0], [d] + b[0];
    assert x == y <==> c == d && a[0] == b[0] by {
      if x == y { assert x[1..] == a[0] && y[1..] == b[0] && x[0] == y[0]; }
    }
    assert a == [a[0]] + a[1..] && b == [b[0]] + b[1..];
    if x == y { TailsStart([x], a[1..], [y], b[1..]); }
    if a[0] == b[0] { TailsStart([a[0]], a[1..], [b[0]], b[1..]); }
    if [x] + a[1..] <= [y] + b[1..] { assert ([x] + a[1..])[0] == ([y] + b[1..])[0]; }
    if a <= b { assert a[0] == b[0]; }
  }

  lemma {:induction false} SplitDots(s: string) returns (base: string, dots: string)
    ensures s == base + dots && (base == "" || base[|base| - 1] != '.') && forall i :: 0 <= i < |dots| ==> dots[i] == '.'
    ensures base == WithoutTrailingDots(s)
  {
    if s != "" && s[|s| - 1] == '.' {
      base, dots := SplitDots(s[..|s| - 1]);
      dots := dots + ['.'];
      assert s == s[..|s| - 1] + [s[|s| - 1]];
    } else {
      base, dots := s, "";
    }
  }

  /** The name without the dots it ends in. */
  ghost predicate IsBase(prefix: string, base: string) {
    base <= prefix && (base == "" || base[|base| - 1] != '.') && forall i :: |base| <= i < |prefix| ==> prefix[i] == '.'
  }

  /** The name starts with these whole segments. */
  ghost predicate StartsWith(name: string, prefix: string) {
    exists base :: IsBase(prefix, base) && Segments(base) <= Segments(name)
  }

  lemma {:induction false} StartsMeans(name: string, prefix: string)
    ensures StartsWith(name, prefix) <==>
      name == WithoutTrailingDots(prefix) || WithoutTrailingDots(prefix) + "." <= name
  {
    hide Segments, WithoutTrailingDots;
    var base, dots := SplitDots(prefix);
    assert IsBase(prefix, base);
    SegmentsStart(base, name);
    forall other | IsBase(prefix, other) ensures other == base { OneBase(prefix, base, other); }
  }

  lemma {:induction false} NoLonger(prefix: string, a: string, b: string)
    requires IsBase(prefix, a) && IsBase(prefix, b)
    ensures |b| <= |a|
  {
    if b != "" { assert b[|b| - 1] == prefix[|b| - 1]; }
  }

  lemma {:induction false} OneBase(prefix: string, a: string, b: string)
    requires IsBase(prefix, a) && IsBase(prefix, b)
    ensures a == b
  {
    NoLonger(prefix, a, b);
    NoLonger(prefix, b, a);
  }

  // ---- Places ----

  predicate SamePlace(l: Location, m: Location) { l.path == m.path && l.line == m.line && l.locator == m.locator }

  ghost predicate Apart(ls: seq<Location>) { forall i, j :: 0 <= i < j < |ls| ==> !SamePlace(ls[i], ls[j]) }

  /** The claim was read in at least this many different places. */
  ghost predicate ReadInAtLeast(v: View, n: int) {
    n <= 0 || exists ls: seq<Location> :: |ls| == n && Apart(ls) && forall l :: l in ls ==> l in v.locations
  }

  function PlaceOf(l: Location): (Option<string>, Option<int>, Option<string>) { (l.path, l.line, l.locator) }

  function PlacesIn(ls: seq<Location>): set<(Option<string>, Option<int>, Option<string>)> { set l | l in ls :: PlaceOf(l) }

  lemma {:induction false} PlacesAgree(l: Location, m: Location)
    ensures SamePlace(l, m) <==> PlaceOf(l) == PlaceOf(m)
  {
  }

  lemma {:induction false} ApartPlaces(ls: seq<Location>)
    requires Apart(ls)
    ensures |PlacesIn(ls)| == |ls|
  {
    if ls != [] {
      var n := |ls| - 1;
      ApartPlaces(ls[..n]);
      assert ls == ls[..n] + [ls[n]];
      forall l | l in ls[..n] ensures PlaceOf(l) != PlaceOf(ls[n]) {
        var i :| 0 <= i < n && ls[..n][i] == l;
        PlacesAgree(ls[i], ls[n]);
      }
      assert PlacesIn(ls) == PlacesIn(ls[..n]) + {PlaceOf(ls[n])};
    }
  }

  lemma {:induction false} NoMore<T>(a: set<T>, b: set<T>)
    requires a <= b
    ensures |a| <= |b|
  {
    if a != {} {
      var x :| x in a;
      NoMore(a - {x}, b - {x});
    }
  }

  lemma {:induction false} Pick(v: View, n: nat) returns (ls: seq<Location>)
    requires n <= |Places(v)|
    ensures |ls| == n && Apart(ls) && forall l :: l in ls ==> l in v.locations
  {
    ls := [];
    if n > 0 {
      var some := Pick(v, n - 1);
      ApartPlaces(some);
      if Places(v) <= PlacesIn(some) { NoMore(Places(v), PlacesIn(some)); }
      var place :| place in Places(v) && place !in PlacesIn(some);
      var l :| l in v.locations && PlaceOf(l) == place;
      ls := some + [l];
      forall i | 0 <= i < |some| ensures !SamePlace(some[i], l) {
        assert some[i] in some;
        assert PlaceOf(some[i]) in PlacesIn(some);
        PlacesAgree(some[i], l);
      }
    }
  }

  lemma {:induction false} PlacesMean(v: View, n: nat)
    ensures ReadInAtLeast(v, n) <==> |Places(v)| >= n
  {
    hide Places;
    if n <= |Places(v)| { var ls := Pick(v, n); }
    if n > 0 && ReadInAtLeast(v, n) {
      var ls: seq<Location> :| |ls| == n && Apart(ls) && forall l :: l in ls ==> l in v.locations;
      ApartPlaces(ls);
      PlacesWithin(v, ls);
      NoMore(PlacesIn(ls), Places(v));
    }
  }

  lemma {:induction false} PlacesWithin(v: View, ls: seq<Location>)
    requires forall l :: l in ls ==> l in v.locations
    ensures PlacesIn(ls) <= Places(v)
  {
    forall place | place in PlacesIn(ls) ensures place in Places(v) {
      var l :| l in ls && PlaceOf(l) == place;
      assert l in v.locations;
    }
  }

  // ---- What a query matches ----

  /** The view has everything the query asks for, and the query asks for nothing where it says nothing. */
  ghost predicate Has(q: Query, v: View) {
    && q.subject in {None, Some(v.subject)} && q.subjectKind in {None, Some(v.subjectKind)} && q.predicat in {None, Some(v.predicat)}
    && q.value in {None, Some(v.value)} && q.interpretation in {None, Some(v.interpretation)}
    && (q.prefix.Some? ==> StartsWith(v.predicat, q.prefix.value))
    && match q.conflict {
         case AnyConflict => true
         case WithoutConflict => v.conflictStatus == NoConflict
         case WithConflict => v.conflictStatus == Possible || v.conflictStatus == Confirmed
       }
    && match q.projection {
         case AnyProjection => true
         case OnlyProjected => v.status == IsProjected
         case OnlyUnprojected => v.status == NotProjected || v.status == NotProjectable || v.status == Withheld
       }
    && (q.path.Some? ==> exists i :: 0 <= i < |v.locations| && v.locations[i].path == Some(q.path.value))
    && ReadInAtLeast(v, q.minimumLocations)
  }

  /** A query that is accepted matches exactly the views that have what it asks for: whole segments of the
      predicate, some location at the path, and enough locations in different places. */
  lemma {:induction false} MatchesExactly(q: Query, v: View)
    requires Checked(q).Ok?
    ensures Matches(q, v) <==> Has(q, v)
  {
    hide StartsWith, ReadInAtLeast, Places, WithoutTrailingDots;
    if q.prefix.Some? { StartsMeans(v.predicat, q.prefix.value); }
    PlacesMean(v, q.minimumLocations);
    NothingAsked(v);
    if q.path.Some? { PathMeans(v, q.path.value); }
  }

  lemma {:induction false} NothingAsked(v: View)
    ensures ReadInAtLeast(v, 0)
  {
  }

  lemma {:induction false} PathMeans(v: View, path: string)
    ensures (exists l :: l in v.locations && l.path == Some(path)) <==>
      exists i :: 0 <= i < |v.locations| && v.locations[i].path == Some(path)
  {
    if l :| l in v.locations && l.path == Some(path) {
      var i :| 0 <= i < |v.locations| && v.locations[i] == l;
    }
  }

  /** A query is accepted exactly when its limit is from one to ten thousand, it asks for no negative number of
      locations, and its prefix, if any, is not all dots. */
  lemma {:induction false} CheckedExactlyWhen(q: Query)
    ensures Checked(q).Ok? <==>
      && 1 <= q.limit <= 10000 && q.minimumLocations >= 0
      && (q.prefix.Some? ==> exists i :: 0 <= i < |q.prefix.value| && q.prefix.value[i] != '.')
    ensures Checked(q).Ok? ==> Checked(q).value == q
  {
    if q.prefix.Some? {
      hide WithoutTrailingDots;
      var base, dots := SplitDots(q.prefix.value);
      if base != "" { assert q.prefix.value[|base| - 1] == base[|base| - 1]; }
      if base == "" { assert q.prefix.value == dots; }
    }
  }

  // ---- What a change reports ----

  /** Read in the same place of the same content, whichever evidence record says so. */
  predicate SameSource(l: Location, m: Location) {
    SamePlace(l, m) && l.hash == m.hash && l.revision == m.revision
  }

  ghost predicate CoveredBy(v: View, w: View) {
    forall l :: l in v.locations ==> exists m :: m in w.locations && SameSource(l, m)
  }

  lemma {:induction false} SignatureWithin(v: View, w: View)
    ensures SupportSignature(v) <= SupportSignature(w) <==> CoveredBy(v, w)
  {
    if SupportSignature(v) <= SupportSignature(w) {
      forall l | l in v.locations ensures exists m :: m in w.locations && SameSource(l, m) {
        assert (l.path, l.line, l.locator, l.hash, l.revision) in SupportSignature(v);
        var m :| m in w.locations && (m.path, m.line, m.locator, m.hash, m.revision) == (l.path, l.line, l.locator, l.hash, l.revision);
      }
    }
    if CoveredBy(v, w) {
      forall t | t in SupportSignature(v) ensures t in SupportSignature(w) {
        var l :| l in v.locations && (l.path, l.line, l.locator, l.hash, l.revision) == t;
        var m :| m in w.locations && SameSource(l, m);
      }
    }
  }

  lemma {:induction false} SignatureMeans(v: View, w: View)
    ensures SupportSignature(v) == SupportSignature(w) <==> CoveredBy(v, w) && CoveredBy(w, v)
  {
    hide SupportSignature, CoveredBy;
    SignatureWithin(v, w);
    SignatureWithin(w, v);
  }

  /** The field of the two views is different. */
  ghost predicate Differs(f: FieldName, v: View, w: View) {
    match f
    case SourceLocations => !CoveredBy(v, w) || !CoveredBy(w, v)
    case SupportField => v.support != w.support
    case CardinalityField => v.cardinality != w.cardinality
    case AuthorityField => v.authority != w.authority
    case ConfidenceField => v.confidence != w.confidence
    case ConflictStatusField => v.conflictStatus != w.conflictStatus
    case ConflictIdsField => v.conflictIds != w.conflictIds
    case StatusField => v.status != w.status
    case WithheldField => v.withheld != w.withheld
    case ProjectedIdsField => v.projectedIds != w.projectedIds
  }

  function CategoryOf(f: FieldName): Category {
    match f
    case SourceLocations => EvidenceCategory
    case SupportField => PolicyCategory
    case CardinalityField => PolicyCategory
    case StatusField => ProjectionCategory
    case WithheldField => ProjectionCategory
    case ProjectedIdsField => ProjectionCategory
    case _ => ReconciliationCategory
  }

  lemma {:induction false} MovedMeans(category: Category, v: View, w: View, f: FieldName)
    ensures f in MovedFields(category, v, w) <==> CategoryOf(f) == category && Differs(f, v, w)
  {
    hide SupportSignature, CoveredBy, If;
    SignatureMeans(v, w);
    forall moved, name ensures f in If(moved, name) <==> moved && f == name { NamedIf(moved, name, f); }
  }

  lemma {:induction false} NamedIf(moved: bool, name: FieldName, f: FieldName)
    ensures f in If(moved, name) <==> moved && f == name
  {
  }

  lemma {:induction false} CategoriesMean(v: View, w: View, category: Category)
    ensures category in CategoriesMoved(v, w, |CATEGORIES|) <==> exists f :: CategoryOf(f) == category && Differs(f, v, w)
  {
    hide MovedFields, Differs, CategoryOf;
    AllCategories(v, w, category);
    forall f { MovedMeans(category, v, w, f); }
    var moved := MovedFields(category, v, w);
    if moved != [] { assert moved[0] in moved; }
  }

  lemma {:induction false} AllCategories(v: View, w: View, category: Category)
    ensures category in CategoriesMoved(v, w, |CATEGORIES|) <==> MovedFields(category, v, w) != []
  {
    hide MovedFields;
    assert CategoriesMoved(v, w, 0) == [];
    assert CategoriesMoved(v, w, 1) == if MovedFields(EvidenceCategory, v, w) != [] then [EvidenceCategory] else [];
    var two := CategoriesMoved(v, w, 1) + if MovedFields(PolicyCategory, v, w) != [] then [PolicyCategory] else [];
    assert CategoriesMoved(v, w, 2) == two;
    var three := two + if MovedFields(ReconciliationCategory, v, w) != [] then [ReconciliationCategory] else [];
    assert CategoriesMoved(v, w, 3) == three;
    assert CategoriesMoved(v, w, 4) == three + if MovedFields(ProjectionCategory, v, w) != [] then [ProjectionCategory] else [];
  }

  lemma {:induction false} FieldsMean(v: View, w: View, f: FieldName)
    ensures f in FieldsMoved(v, w, |CATEGORIES|) <==> Differs(f, v, w)
  {
    hide MovedFields, Differs, FieldsMoved;
    AllFieldsMoved(v, w);
    MovedMeans(EvidenceCategory, v, w, f);
    MovedMeans(PolicyCategory, v, w, f);
    MovedMeans(ReconciliationCategory, v, w, f);
    MovedMeans(ProjectionCategory, v, w, f);
  }

  /** A change names exactly the fields that differ and the categories they fall into, and is put down to policy
      only when both policies are known and differ and the support or cardinality changed. */
  lemma {:induction false} ChangesSayWhatDiffers(earlier: Index, later: Index, q: Option<Query>, c: Change, f: FieldName, category: Category)
    requires var d := DifferentialOf(Scoped(earlier.views, q), Scoped(later.views, q), PolicyChanged(earlier.policy, later.policy));
      c in d.changed
    ensures f in c.fields <==> Differs(f, c.before, c.after)
    ensures category in c.categories <==> exists g :: CategoryOf(g) == category && Differs(g, c.before, c.after)
    ensures c.byPolicy <==>
      && earlier.policy.Some? && later.policy.Some? && earlier.policy.value != later.policy.value
      && (c.before.support != c.after.support || c.before.cardinality != c.after.cardinality)
  {
    hide FieldsMoved, CategoriesMoved, Scoped, CategoryOf, Differs, ChangesAt, InKeyOrder, SortedIds;
    ChangeIsMade(Scoped(earlier.views, q), Scoped(later.views, q), PolicyChanged(earlier.policy, later.policy), c);
    FieldsMean(c.before, c.after, f);
    CategoriesMean(c.before, c.after, category);
    CategoriesMean(c.before, c.after, PolicyCategory);
    PolicyFields(c.before, c.after);
  }

  lemma {:induction false} ChangeIsMade(before: map<string, View>, after: map<string, View>, changed: bool, c: Change)
    requires c in DifferentialOf(before, after, changed).changed
    ensures c.fields == FieldsMoved(c.before, c.after, |CATEGORIES|) && c.categories == CategoriesMoved(c.before, c.after, |CATEGORIES|)
    ensures c.byPolicy <==> changed && PolicyCategory in c.categories
  {
    hide FieldsMoved, CategoriesMoved, ReadingOf, ChangesAt, InKeyOrder, SortedIds;
    ChangesMembers(before, after, changed, SortedIds(before.Keys * after.Keys), c);
  }

  lemma {:induction false} PolicyFields(v: View, w: View)
    ensures (exists g :: CategoryOf(g) == PolicyCategory && Differs(g, v, w)) <==> v.support != w.support || v.cardinality != w.cardinality
  {
    hide CoveredBy;
    if v.support != w.support { assert Differs(SupportField, v, w); }
    if v.cardinality != w.cardinality { assert Differs(CardinalityField, v, w); }
  }

  /** Two views read the same exactly when no field of them differs. */
  lemma {:induction false} ReadAlikeExactlyWhen(v: View, w: View)
    ensures ReadingOf(v) == ReadingOf(w) <==> forall f :: !Differs(f, v, w)
  {
    hide SupportSignature, CoveredBy;
    SignatureMeans(v, w);
    if forall f :: !Differs(f, v, w) {
      assert !Differs(SourceLocations, v, w) && !Differs(SupportField, v, w) && !Differs(CardinalityField, v, w) && !Differs(AuthorityField, v, w);
      assert !Differs(ConfidenceField, v, w) && !Differs(ConflictStatusField, v, w) && !Differs(ConflictIdsField, v, w);
      assert !Differs(StatusField, v, w) && !Differs(WithheldField, v, w) && !Differs(ProjectedIdsField, v, w);
    }
  }
}
