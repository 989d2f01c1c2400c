/** Python's ordering of strings, and the sorting the compiler relies on to be deterministic.

`sorted(set)` is `SortedIds`, a function of the set. `sorted(records, key=...)` is a stable
insertion sort; `IsListing` says what such a sort yields when no two records share a key, and
`ListingUnique` that there is only one such list. */
module Ordering {

  /** `a <= b` on strings: lexicographic by code point. */
  predicate Leq(a: string, b: string) {
    |a| == 0 || (|b| != 0 && (a[0] < b[0] || (a[0] == b[0] && Leq(a[1..], b[1..]))))
  }

  predicate Less(a: string, b: string) {
    a != b && Leq(a, b)
  }

  ghost predicate TotalOrder<T(!new)>(leq: (T, T) -> bool) {
    && (forall x, y :: leq(x, y) || leq(y, x))
    && (forall x, y :: leq(x, y) && leq(y, x) ==> x == y)
    && (forall x, y, z :: leq(x, y) && leq(y, z) ==> leq(x, z))
  }

  lemma {:induction false} LeqTotal(a: string, b: string)
    ensures Leq(a, b) || Leq(b, a)
  {
    if |a| != 0 && |b| != 0 && a[0] == b[0] {
      LeqTotal(a[1..], b[1..]);
    }
  }

  lemma {:induction false} LeqAntisymmetric(a: string, b: string)
    requires Leq(a, b) && Leq(b, a)
    ensures a == b
  {
    if |a| != 0 && |b| != 0 {
      LeqAntisymmetric(a[1..], b[1..]);
      assert a == [a[0]] + a[1..] && b == [b[0]] + b[1..];
    }
  }

  lemma {:induction false} LeqTransitive(a: string, b: string, c: string)
    requires Leq(a, b) && Leq(b, c)
    ensures Leq(a, c)
  {
    if |a| != 0 && a[0] == b[0] && b[0] == c[0] {
      LeqTransitive(a[1..], b[1..], c[1..]);
    }
  }

  lemma {:induction false} LeqTotalOrder()
    ensures TotalOrder(Leq)
  {
    forall a, b ensures Leq(a, b) || Leq(b, a) { LeqTotal(a, b); }
    forall a, b | Leq(a, b) && Leq(b, a) ensures a == b { LeqAntisymmetric(a, b); }
    forall a, b, c | Leq(a, b) && Leq(b, c) ensures Leq(a, c) { LeqTransitive(a, b, c); }
  }

  lemma {:induction false} LessTransitive(a: string, b: string, c: string)
    requires (Leq(a, b) && Less(b, c)) || (Less(a, b) && Leq(b, c))
    ensures Less(a, c)
  {
    LeqTransitive(a, b, c);
    if a == c { LeqAntisymmetric(a, b); }
  }

  lemma {:induction false} LessTrichotomy(a: string, b: string)
    ensures Less(a, b) || Less(b, a) || a == b
    ensures !(Less(a, b) && Less(b, a))
  {
    LeqTotal(a, b);
    if Leq(a, b) && Leq(b, a) { LeqAntisymmetric(a, b); }
  }

  /** Tuples of two strings, compared component by component. */
  predicate PairLeq(a: (string, string), b: (string, string)) {
    if a.0 == b.0 then Leq(a.1, b.1) else Leq(a.0, b.0)
  }

  lemma {:induction false} PairLeqTotalOrder()
    ensures TotalOrder(PairLeq)
  {
    LeqTotalOrder();
    forall a, b | PairLeq(a, b) && PairLeq(b, a) ensures a == b {
      if a.0 != b.0 { LeqAntisymmetric(a.0, b.0); }
      LeqAntisymmetric(a.1, b.1);
    }
    forall a, b, c | PairLeq(a, b) && PairLeq(b, c) ensures PairLeq(a, c) {
      if a.0 == b.0 && b.0 == c.0 {
        LeqTransitive(a.1, b.1, c.1);
      } else if a.0 != b.0 && b.0 != c.0 {
        LessTransitive(a.0, b.0, c.0);
      }
    }
    forall a, b ensures PairLeq(a, b) || PairLeq(b, a) {
      LeqTotal(a.0, b.0);
      LeqTotal(a.1, b.1);
    }
  }

  // ---- Sorting a set ----

  lemma {:induction false} HasLeast<T(!new)>(s: set<T>, leq: (T, T) -> bool)
    requires TotalOrder(leq) && s != {}
    ensures exists x :: x in s && forall y :: y in s ==> leq(x, y)
    decreases |s|
  {
    var x :| x in s;
    if s - {x} == {} {
      assert s == {x};
    } else {
      HasLeast(s - {x}, leq);
      var m :| m in s - {x} && forall y :: y in s - {x} ==> leq(m, y);
      var least := if leq(m, x) then m else x;
      assert forall y :: y in s ==> y == x || y in s - {x};
    }
  }

  function Least<T(==, !new)>(s: set<T>, leq: (T, T) -> bool): (x: T)
    requires TotalOrder(leq) && s != {}
    ensures x in s && forall y :: y in s ==> leq(x, y)
  {
    HasLeast(s, leq);
    var x :| x in s && forall y :: y in s ==> leq(x, y);
    x
  }

  /** The elements of a set in ascending order. */
  function SortedSet<T(==, !new)>(s: set<T>, leq: (T, T) -> bool): (r: seq<T>)
    requires TotalOrder(leq)
    ensures |r| == |s|
    ensures forall x :: x in r <==> x in s
    ensures forall i, j :: 0 <= i < j < |r| ==> leq(r[i], r[j]) && r[i] != r[j]
    decreases |s|
  {
    if s == {} then []
    else
      var x := Least(s, leq);
      var rest := SortedSet(s - {x}, leq);
      assert forall y :: y in s <==> y == x || y in rest;
      assert forall j :: 0 <= j < |rest| ==> rest[j] in rest;
      [x] + rest
  }

  ghost predicate Ascending(r: seq<string>) {
    forall i, j :: 0 <= i < j < |r| ==> Less(r[i], r[j])
  }

  /** `tuple(sorted(s))` for a set of strings. */
  function SortedIds(s: set<string>): (r: seq<string>)
    ensures |r| == |s|
    ensures forall x :: x in r <==> x in s
    ensures Ascending(r)
  {
    LeqTotalOrder();
    SortedSet(s, Leq)
  }

  function SortedPairs(s: set<(string, string)>): (r: seq<(string, string)>)
    ensures |r| == |s|
    ensures forall x :: x in r <==> x in s
    ensures forall i, j :: 0 <= i < j < |r| ==> r[i] != r[j]
  {
    PairLeqTotalOrder();
    SortedSet(s, PairLeq)
  }

  // ---- Sorting records by a key ----

  ghost predicate SortedBy<T(!new)>(r: seq<T>, key: T -> string) {
    forall i, j :: 0 <= i < j < |r| ==> Leq(key(r[i]), key(r[j]))
  }

  /** A list stays sorted when it is put behind a key no greater than any of its own. */
  lemma {:induction false} SortedCons<T(!new)>(x: T, r: seq<T>, key: T -> string)
    requires SortedBy(r, key) && (r == [] || Leq(key(x), key(r[0])))
    ensures SortedBy([x] + r, key)
  {
    var q := [x] + r;
    forall i, j | 0 <= i < j < |q| ensures Leq(key(q[i]), key(q[j])) {
      if i == 0 && j > 1 { LeqTransitive(key(x), key(r[0]), key(r[j - 1])); }
    }
  }

  function Insert<T(!new)>(x: T, r: seq<T>, key: T -> string): (q: seq<T>)
    requires SortedBy(r, key)
    ensures SortedBy(q, key)
    ensures multiset(q) == multiset(r) + multiset{x}
    ensures |q| == |r| + 1
    ensures r == [] || q[0] == r[0] || q[0] == x
  {
    if r == [] then [x]
    else if Leq(key(x), key(r[0])) then
      SortedCons(x, r, key);
      [x] + r
    else
      LeqTotal(key(x), key(r[0]));
      assert r == [r[0]] + r[1..];
      var rest := Insert(x, r[1..], key);
      assert rest[0] == x || (|r| > 1 && rest[0] == r[1]);
      SortedCons(r[0], rest, key);
      [r[0]] + rest
  }

  lemma {:induction false} InsertFirst<T(!new)>(x: T, r: seq<T>, key: T -> string)
    requires SortedBy(r, key) && (r == [] || Leq(key(x), key(r[0])))
    ensures Insert(x, r, key) == [x] + r
  {
  }

  lemma {:induction false} InsertLater<T(!new)>(x: T, r: seq<T>, key: T -> string)
    requires SortedBy(r, key) && r != [] && !Leq(key(x), key(r[0]))
    ensures SortedBy(r[1..], key) && Insert(x, r, key) == [r[0]] + Insert(x, r[1..], key)
  {
  }

  /** `sorted(xs, key=key)`. */
  function SortBy<T(!new)>(xs: seq<T>, key: T -> string): (r: seq<T>)
    ensures SortedBy(r, key)
    ensures multiset(r) == multiset(xs)
    ensures |r| == |xs|
  {
    if xs == [] then []
    else
      assert xs == [xs[0]] + xs[1..];
      Insert(xs[0], SortBy(xs[1..], key), key)
  }

  /** `r` lists the elements of `s`, each once, in ascending order of a key no two share. */
  ghost predicate IsListing<T(!new)>(r: seq<T>, s: set<T>, key: T -> string) {
    && (forall x :: x in s <==> x in r)
    && (forall i, j :: 0 <= i < j < |r| ==> Less(key(r[i]), key(r[j])))
  }

  lemma {:induction false} SortByIsListing<T(!new)>(xs: seq<T>, s: set<T>, key: T -> string)
    requires forall x :: x in s <==> x in xs
    requires forall i, j :: 0 <= i < j < |xs| ==> key(xs[i]) != key(xs[j])
    ensures IsListing(SortBy(xs, key), s, key)
  {
    SortByStrict(xs, key);
    var r := SortBy(xs, key);
    assert forall x :: x in r <==> x in multiset(r);
    assert forall x :: x in xs <==> x in multiset(xs);
  }

  ghost predicate StrictlySortedBy<T(!new)>(r: seq<T>, key: T -> string) {
    forall i, j :: 0 <= i < j < |r| ==> Less(key(r[i]), key(r[j]))
  }

  /** Sorting records with distinct keys puts the keys in strictly ascending order. */
  lemma {:induction false} SortByStrict<T(!new)>(xs: seq<T>, key: T -> string)
    requires forall i, j :: 0 <= i < j < |xs| ==> key(xs[i]) != key(xs[j])
    ensures StrictlySortedBy(SortBy(xs, key), key)
  {
    if xs != [] {
      SortByStrict(xs[1..], key);
      var rest := SortBy(xs[1..], key);
      forall i | 0 <= i < |rest| ensures key(rest[i]) != key(xs[0]) {
        assert rest[i] in multiset(rest);
        assert rest[i] in xs[1..];
        var k :| 0 <= k < |xs[1..]| && xs[1..][k] == rest[i];
        assert xs[k + 1] == rest[i];
      }
      InsertStrict(xs[0], rest, key);
    }
  }

  lemma {:induction false} StrictCons<T(!new)>(x: T, r: seq<T>, key: T -> string)
    requires StrictlySortedBy(r, key) && (r == [] || Less(key(x), key(r[0])))
    ensures StrictlySortedBy([x] + r, key)
  {
    var q := [x] + r;
    forall i, j | 0 <= i < j < |q| ensures Less(key(q[i]), key(q[j])) {
      if i == 0 && j > 1 { LessTransitive(key(x), key(r[0]), key(r[j - 1])); }
    }
  }

  lemma {:induction false} InsertStrict<T(!new)>(x: T, r: seq<T>, key: T -> string)
    requires SortedBy(r, key) && StrictlySortedBy(r, key)
    requires forall i :: 0 <= i < |r| ==> key(r[i]) != key(x)
    ensures StrictlySortedBy(Insert(x, r, key), key)
  {
    if r != [] {
      if Leq(key(x), key(r[0])) {
        StrictCons(x, r, key);
      } else {
        LeqTotal(key(x), key(r[0]));
        InsertStrict(x, r[1..], key);
        StrictCons(r[0], Insert(x, r[1..], key), key);
      }
    }
  }

  lemma {:induction false} ListingUnique<T(!new)>(r: seq<T>, q: seq<T>, s: set<T>, key: T -> string)
    requires IsListing(r, s, key) && IsListing(q, s, key)
    ensures r == q
    decreases |r|
  {
    assert r != [] ==> r[0] in r && r[0] in s && r[0] in q;
    assert q != [] ==> q[0] in q && q[0] in s && q[0] in r;
    if r != [] {
      ListingHead(r, q, s, key);
      var rest := s - {r[0]};
      ListingTail(r, s, key);
      ListingTail(q, s, key);
      ListingUnique(r[1..], q[1..], rest, key);
      assert r == [r[0]] + r[1..] && q == [q[0]] + q[1..];
    }
  }

  lemma {:induction false} ListingHead<T(!new)>(r: seq<T>, q: seq<T>, s: set<T>, key: T -> string)
    requires IsListing(r, s, key) && IsListing(q, s, key) && r != [] && q != []
    ensures r[0] == q[0]
  {
    assert r[0] in s && q[0] in s;
    var i :| 0 <= i < |q| && q[i] == r[0];
    var j :| 0 <= j < |r| && r[j] == q[0];
    if i != 0 && j != 0 {
      LessTrichotomy(key(r[0]), key(q[0]));
      assert false;
    }
  }

  lemma {:induction false} ListingTail<T(!new)>(r: seq<T>, s: set<T>, key: T -> string)
    requires IsListing(r, s, key) && r != []
    ensures IsListing(r[1..], s - {r[0]}, key)
  {
    forall x ensures x in s - {r[0]} <==> x in r[1..] {
      assert x in r <==> x == r[0] || x in r[1..];
      if r[0] in r[1..] {
        var j :| 0 <= j < |r[1..]| && r[1..][j] == r[0];
        assert Less(key(r[0]), key(r[j + 1]));
      }
    }
  }

  /** Only equal records share a key. */
  ghost predicate KeysTellApart<T(!new)>(r: seq<T>, key: T -> string) {
    forall i, j :: 0 <= i < |r| && 0 <= j < |r| && key(r[i]) == key(r[j]) ==> r[i] == r[j]
  }

  /** When only equal records share a key, what sorting yields does not depend on the order
      the records arrived in. */
  lemma {:induction false} SortedUnique<T(!new)>(r: seq<T>, q: seq<T>, key: T -> string)
    requires multiset(r) == multiset(q) && SortedBy(r, key) && SortedBy(q, key)
    requires KeysTellApart(r, key)
    ensures r == q
    decreases |r|
  {
    SameLength(r, q);
    if r != [] {
      SortedHead(r, q, key);
      TailBag(r);
      TailBag(q);
      SortedUnique(r[1..], q[1..], key);
      assert r == [r[0]] + r[1..] && q == [q[0]] + q[1..];
    }
  }

  lemma {:induction false} SameLength<T>(r: seq<T>, q: seq<T>)
    requires multiset(r) == multiset(q)
    ensures |r| == |q|
  {
    assert |multiset(r)| == |r| && |multiset(q)| == |q|;
  }

  lemma {:induction false} TailBag<T>(r: seq<T>)
    requires r != []
    ensures multiset(r[1..]) == multiset(r) - multiset{r[0]}
  {
    assert r == [r[0]] + r[1..];
  }

  lemma {:induction false} SameMembers<T>(r: seq<T>, q: seq<T>, x: T)
    requires multiset(r) == multiset(q)
    ensures x in r <==> x in q
  {
    assert x in r <==> x in multiset(r);
    assert x in q <==> x in multiset(q);
  }

  lemma {:induction false} SortedHead<T(!new)>(r: seq<T>, q: seq<T>, key: T -> string)
    requires multiset(r) == multiset(q) && SortedBy(r, key) && SortedBy(q, key) && r != [] && q != []
    requires KeysTellApart(r, key)
    ensures r[0] == q[0]
  {
    SameMembers(r, q, r[0]);
    SameMembers(r, q, q[0]);
    var i :| 0 <= i < |q| && q[i] == r[0];
    var j :| 0 <= j < |r| && r[j] == q[0];
    LeqTotal(key(r[0]), key(r[0]));
    LeqTotal(key(q[0]), key(q[0]));
    LeqAntisymmetric(key(r[0]), key(q[0]));
  }

  lemma {:induction false} SortByPermutes<T(!new)>(xs: seq<T>, ys: seq<T>, key: T -> string)
    requires multiset(xs) == multiset(ys)
    requires KeysTellApart(xs, key)
    ensures SortBy(xs, key) == SortBy(ys, key)
  {
    var r := SortBy(xs, key);
    forall i, j | 0 <= i < |r| && 0 <= j < |r| && key(r[i]) == key(r[j]) ensures r[i] == r[j] {
      SameMembers(r, xs, r[i]);
      SameMembers(r, xs, r[j]);
    }
    SortedUnique(r, SortBy(ys, key), key);
  }

  // ---- Filters ----

  function Filter<T(!new)>(xs: seq<T>, p: T -> bool): (r: seq<T>)
    ensures forall x :: x in r <==> x in xs && p(x)
    ensures |r| <= |xs|
  {
    if xs == [] then []
    else
      assert xs == [xs[0]] + xs[1..];
      if p(xs[0]) then [xs[0]] + Filter(xs[1..], p) else Filter(xs[1..], p)
  }

  lemma {:induction false} FilterSnoc<T(!new)>(xs: seq<T>, x: T, p: T -> bool)
    ensures Filter(xs + [x], p) == Filter(xs, p) + if p(x) then [x] else []
  {
    if xs == [] {
      assert xs + [x] == [x];
    } else {
      assert (xs + [x])[1..] == xs[1..] + [x];
      FilterSnoc(xs[1..], x, p);
    }
  }

  lemma {:induction false} FilterCounts<T(!new)>(xs: seq<T>, p: T -> bool, x: T)
    ensures multiset(Filter(xs, p))[x] == if p(x) then multiset(xs)[x] else 0
  {
    if xs != [] {
      assert xs == [xs[0]] + xs[1..];
      FilterCounts(xs[1..], p, x);
    }
  }

  /** Rearranging a list rearranges what passes a filter, and no more. */
  lemma {:induction false} FilterPermutes<T(!new)>(xs: seq<T>, ys: seq<T>, p: T -> bool)
    requires multiset(xs) == multiset(ys)
    ensures multiset(Filter(xs, p)) == multiset(Filter(ys, p))
    ensures |Filter(xs, p)| == |Filter(ys, p)|
  {
    forall x ensures multiset(Filter(xs, p))[x] == multiset(Filter(ys, p))[x] {
      FilterCounts(xs, p, x);
      FilterCounts(ys, p, x);
    }
    assert |multiset(Filter(xs, p))| == |Filter(xs, p)|;
    assert |multiset(Filter(ys, p))| == |Filter(ys, p)|;
  }

  lemma {:induction false} FilterConcat<T(!new)>(xs: seq<T>, ys: seq<T>, p: T -> bool)
    ensures Filter(xs + ys, p) == Filter(xs, p) + Filter(ys, p)
  {
    if xs == [] {
      assert xs + ys == ys;
    } else {
      assert (xs + ys)[1..] == xs[1..] + ys;
      FilterConcat(xs[1..], ys, p);
    }
  }

  lemma {:induction false} FilterSorted<T(!new)>(r: seq<T>, key: T -> string, p: T -> bool)
    requires SortedBy(r, key)
    ensures SortedBy(Filter(r, p), key)
  {
    if r != [] {
      FilterSorted(r[1..], key, p);
      var rest := Filter(r[1..], p);
      if p(r[0]) {
        if rest != [] {
          assert rest[0] in r[1..];
          var i :| 0 <= i < |r[1..]| && r[1..][i] == rest[0];
          assert r[i + 1] == rest[0];
        }
        SortedCons(r[0], rest, key);
      }
    }
  }

  lemma {:induction false} FilterInsert<T(!new)>(x: T, r: seq<T>, key: T -> string, p: T -> bool)
    requires SortedBy(r, key)
    ensures SortedBy(Filter(r, p), key)
    ensures Filter(Insert(x, r, key), p) == if p(x) then Insert(x, Filter(r, p), key) else Filter(r, p)
  {
    FilterSorted(r, key, p);
    if r == [] {
    } else if Leq(key(x), key(r[0])) {
      assert ([x] + r)[1..] == r;
      if p(x) { FirstAmong(x, r, key, p); }
    } else {
      FilterInsert(x, r[1..], key, p);
      var rest := Insert(x, r[1..], key);
      assert ([r[0]] + rest)[1..] == rest;
      if p(x) && p(r[0]) { assert Filter(r, p)[1..] == Filter(r[1..], p); }
    }
  }

  /** A value no greater than a whole list goes in front of any part of it. */
  lemma {:induction false} FirstAmong<T(!new)>(x: T, r: seq<T>, key: T -> string, p: T -> bool)
    requires SortedBy(r, key) && SortedBy(Filter(r, p), key) && r != [] && Leq(key(x), key(r[0]))
    ensures Insert(x, Filter(r, p), key) == [x] + Filter(r, p)
  {
    var kept := Filter(r, p);
    if kept != [] {
      assert kept[0] in r;
      var i :| 0 <= i < |r| && r[i] == kept[0];
      if i > 0 { LeqTransitive(key(x), key(r[0]), key(r[i])); }
    }
    InsertFirst(x, kept, key);
  }

  /** Sorting and filtering commute, ties included. */
  lemma {:induction false} FilterSort<T(!new)>(xs: seq<T>, key: T -> string, p: T -> bool)
    ensures Filter(SortBy(xs, key), p) == SortBy(Filter(xs, p), key)
  {
    if xs != [] {
      FilterSort(xs[1..], key, p);
      FilterInsert(xs[0], SortBy(xs[1..], key), key, p);
      if p(xs[0]) { assert Filter(xs, p)[1..] == Filter(xs[1..], p); }
    }
  }

  // ---- Dictionaries ----

  /** The values of a dictionary in ascending order of their keys. */
  function InKeyOrder<T(!new)>(m: map<string, T>): (r: seq<T>)
    ensures |r| == |m|
    ensures forall i :: 0 <= i < |r| ==> SortedIds(m.Keys)[i] in m && r[i] == m[SortedIds(m.Keys)[i]]
    ensures forall x :: x in r <==> exists k :: k in m && m[k] == x
  {
    var ids := SortedIds(m.Keys);
    assert |m.Keys| == |m|;
    var r := seq(|ids|, i requires 0 <= i < |ids| => m[ids[i]]);
    InKeyOrderHolds(m, ids, r);
    r
  }

  lemma {:induction false} InKeyOrderHolds<T(!new)>(m: map<string, T>, ids: seq<string>, r: seq<T>)
    requires |r| == |ids| && forall k :: k in ids <==> k in m
    requires forall i :: 0 <= i < |r| ==> ids[i] in m && r[i] == m[ids[i]]
    ensures forall x :: x in r <==> exists k :: k in m && m[k] == x
  {
    forall k | k in m ensures m[k] in r {
      var i :| 0 <= i < |ids| && ids[i] == k;
      assert r[i] == m[k];
    }
  }

  /** The values of a dictionary keyed by their own identities, in key order, are a listing of them. */
  lemma {:induction false} KeyOrderIsListing<T(!new)>(m: map<string, T>, s: set<T>, key: T -> string)
    requires forall k :: k in m ==> key(m[k]) == k
    requires forall x :: x in s <==> key(x) in m && m[key(x)] == x
    ensures IsListing(InKeyOrder(m), s, key)
  {
    var r, ids := InKeyOrder(m), SortedIds(m.Keys);
    forall i, j | 0 <= i < j < |r| ensures Less(key(r[i]), key(r[j])) {
      assert Less(ids[i], ids[j]);
    }
    forall x ensures x in s <==> x in r {
      if x in r {
        var k :| k in m && m[k] == x;
      }
    }
  }

  // ---- Counters ----

  lemma {:induction false} SubsetSize(a: set<string>, b: set<string>)
    requires a <= b
    ensures |a| <= |b|
  {
    assert b == a + (b - a);
  }

  function CountOf(counts: map<string, nat>, name: string): nat { if name in counts then counts[name] else 0 }

  function Increment(counts: map<string, nat>, name: string): map<string, nat> { counts[name := CountOf(counts, name) + 1] }

  lemma {:induction false} CountAfter(m: map<string, nat>, name: string, k: string)
    ensures CountOf(Increment(m, name), k) == CountOf(m, k) + if name == k then 1 else 0
    ensures k in Increment(m, name) <==> k in m || k == name
  {
  }

  lemma {:induction false} NoCounts()
    ensures forall k :: CountOf(map[], k) == 0
  {
  }

  // ---- Counting distinct identities ----

  function Distinct(xs: seq<string>): set<string> { set x | x in xs }

  lemma {:induction false} DistinctSnoc(xs: seq<string>, x: string)
    ensures Distinct(xs + [x]) == Distinct(xs) + {x}
  {
  }

  /** A list has as many distinct elements as places exactly when none repeats. */
  lemma {:induction false} DistinctCount(xs: seq<string>)
    ensures |Distinct(xs)| <= |xs|
    ensures |Distinct(xs)| == |xs| <==> forall i, j :: 0 <= i < j < |xs| ==> xs[i] != xs[j]
  {
    if xs != [] {
      var n := |xs| - 1;
      var earlier, last := xs[..n], xs[n];
      DistinctCount(earlier);
      DistinctSnoc(earlier, last);
      assert xs == earlier + [last];
      if last in Distinct(earlier) {
        var i :| 0 <= i < n && earlier[i] == last;
        assert xs[i] == xs[n];
      } else {
        assert forall i :: 0 <= i < n ==> earlier[i] in Distinct(earlier);
        assert forall i :: 0 <= i < n ==> xs[i] != xs[n];
      }
    }
  }
}
