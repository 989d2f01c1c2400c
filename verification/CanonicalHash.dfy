/** Canonical serialisation and semantic hashing (run/evidence.py).

Every identity in the compiler is a digest of canonical JSON from which volatile fields were
removed at every depth. The JSON printer and the digest are library code; a `Codec` stands for
them and `Faithful` states what is assumed: neither confuses two different inputs. */
module CanonicalHash {
  import opened Ordering

  /** A finite double, as the integer that orders it: its bit pattern, or for a negative one, negative zero
      included, minus one minus the pattern of its magnitude (section 3.4 of IEEE 754). */
  type Double = int

  const DOUBLE_ONE: Double := 0x3FF0_0000_0000_0000

  datatype Atom = Null | Bool(b: bool) | Int(n: int) | Float(r: Double) | Str(s: string)

  datatype Json = Leaf(atom: Atom) | Arr(items: seq<Json>) | Obj(entries: seq<Entry>)
  datatype Entry = Entry(key: string, value: Json)

  /** What the hashing functions accept. `Dict` fields are in insertion order, `Unordered` items in
      the arbitrary iteration order of a set; `Model` is a record dumped without its `None`s. */
  datatype Value =
    | Raw(atom: Atom)
    | PathOf(posix: string)
    | Instant(iso: string)
    | Listing(items: seq<Value>)
    | Unordered(items: seq<Value>)
    | Dict(fields: seq<Field>)
    | Model(fields: seq<Field>)
  datatype Field = Field(key: string, value: Value)

  const NONE: Value := Raw(Null)

  datatype Codec = Codec(text: Json -> string, hex: string -> string) {
    /** Canonical documents print differently and different texts digest differently. */
    ghost predicate Faithful() {
      && (forall a, b :: Sorted(a) && Sorted(b) && text(a) == text(b) ==> a == b)
      && (forall s, t :: hex(s) == hex(t) ==> s == t)
    }
  }

  function EntryKey(e: Entry): string { e.key }

  ghost predicate DistinctKeys(fields: seq<Field>) {
    forall i, j :: 0 <= i < j < |fields| ==> fields[i].key != fields[j].key
  }

  /** The fields have these keys, in this order, and well-formed values. */
  ghost predicate Keyed(fields: seq<Field>, keys: seq<string>) {
    |fields| == |keys| && forall i :: 0 <= i < |fields| ==> fields[i].key == keys[i] && WellFormed(fields[i].value)
  }

  ghost predicate AllDifferent(keys: seq<string>) {
    forall i, j :: 0 <= i < j < |keys| ==> keys[i] != keys[j]
  }

  lemma {:induction false} TellApart(fields: seq<Field>, keys: seq<string>)
    requires Keyed(fields, keys) && AllDifferent(keys)
    ensures WellFormed(Dict(fields)) && WellFormed(Model(fields))
  {
  }

  lemma {:induction false} JoinKeyed(a: seq<Field>, b: seq<Field>, ka: seq<string>, kb: seq<string>)
    requires Keyed(a, ka) && Keyed(b, kb)
    ensures Keyed(a + b, ka + kb)
  {
    hide WellFormed;
  }

  /** The keys of every dictionary are distinct, as Python guarantees. */
  ghost predicate WellFormed(v: Value) {
    match v
    case Raw(_) => true
    case PathOf(_) => true
    case Instant(_) => true
    case Listing(items) => forall i :: 0 <= i < |items| ==> WellFormed(items[i])
    case Unordered(items) => forall i :: 0 <= i < |items| ==> WellFormed(items[i])
    case Dict(fields) => DistinctKeys(fields) && forall i :: 0 <= i < |fields| ==> WellFormed(fields[i].value)
    case Model(fields) => DistinctKeys(fields) && forall i :: 0 <= i < |fields| ==> WellFormed(fields[i].value)
  }

  /** Every object of the document lists its keys in strictly ascending order. */
  ghost predicate Sorted(j: Json) {
    match j
    case Leaf(_) => true
    case Arr(items) => forall i :: 0 <= i < |items| ==> Sorted(items[i])
    case Obj(entries) =>
      StrictlySortedBy(entries, EntryKey) && forall i :: 0 <= i < |entries| ==> Sorted(entries[i].value)
  }

  // ---- canonical_data ----

  function Canonical(codec: Codec, v: Value): Json
    decreases v, 1
  {
    match v
    case Raw(a) => Leaf(a)
    case PathOf(p) => Leaf(Str(p))
    case Instant(t) => Leaf(Str(t))
    case Listing(items) => Arr(CanonicalItems(codec, items))
    case Unordered(items) => Arr(SortBy(CanonicalItems(codec, items), codec.text))
    case Dict(fields) => Obj(CanonicalFields(codec, fields, false))
    case Model(fields) => Obj(CanonicalFields(codec, fields, true))
  }

  function CanonicalItems(codec: Codec, items: seq<Value>): (r: seq<Json>)
    ensures |r| == |items|
    ensures forall i :: 0 <= i < |items| ==> r[i] == Canonical(codec, items[i])
    decreases items, 0
  {
    if items == [] then [] else [Canonical(codec, items[0])] + CanonicalItems(codec, items[1..])
  }

  function CanonicalFields(codec: Codec, fields: seq<Field>, dropNone: bool): (r: seq<Entry>)
    ensures SortedBy(r, EntryKey)
    decreases fields, 0
  {
    if fields == [] then []
    else
      var rest := CanonicalFields(codec, fields[1..], dropNone);
      if dropNone && fields[0].value == NONE then rest
      else Insert(Entry(fields[0].key, Canonical(codec, fields[0].value)), rest, EntryKey)
  }

  // ---- semantic_hash ----

  /** A canonical document read back as data. */
  function Embed(j: Json): Value
    decreases j, 1
  {
    match j
    case Leaf(a) => Raw(a)
    case Arr(items) => Listing(EmbedItems(items))
    case Obj(entries) => Dict(EmbedEntries(entries))
  }

  function EmbedItems(items: seq<Json>): (r: seq<Value>)
    ensures |r| == |items|
    ensures forall i :: 0 <= i < |items| ==> r[i] == Embed(items[i])
    decreases items, 0
  {
    if items == [] then [] else [Embed(items[0])] + EmbedItems(items[1..])
  }

  function EmbedEntries(entries: seq<Entry>): (r: seq<Field>)
    ensures |r| == |entries|
    ensures forall i :: 0 <= i < |entries| ==> r[i] == Field(entries[i].key, Embed(entries[i].value))
    decreases entries, 0
  {
    if entries == [] then []
    else [Field(entries[0].key, Embed(entries[0].value))] + EmbedEntries(entries[1..])
  }

  /** The inner `strip`: canonicalise, drop excluded keys, and do the same again to every child. */
  function Strip(codec: Codec, v: Value, excluded: set<string>): Json
    requires WellFormed(v)
  {
    CanonicalIsSorted(codec, v);
    StripCanonical(codec, Canonical(codec, v), excluded)
  }

  function StripCanonical(codec: Codec, j: Json, excluded: set<string>): Json
    requires Sorted(j)
    decreases j, 1
  {
    match j
    case Leaf(_) => j
    case Arr(items) => Arr(StripItems(codec, items, excluded))
    case Obj(entries) => Obj(StripEntries(codec, entries, excluded))
  }

  function StripItems(codec: Codec, items: seq<Json>, excluded: set<string>): seq<Json>
    requires forall i :: 0 <= i < |items| ==> Sorted(items[i])
    decreases items, 0
  {
    if items == [] then []
    else
      CanonicalOfEmbed(codec, items[0]);
      [StripCanonical(codec, Canonical(codec, Embed(items[0])), excluded)] + StripItems(codec, items[1..], excluded)
  }

  function StripEntries(codec: Codec, entries: seq<Entry>, excluded: set<string>): seq<Entry>
    requires forall i :: 0 <= i < |entries| ==> Sorted(entries[i].value)
    decreases entries, 0
  {
    if entries == [] then []
    else
      var rest := StripEntries(codec, entries[1..], excluded);
      if entries[0].key in excluded then rest
      else
        CanonicalOfEmbed(codec, entries[0].value);
        [Entry(entries[0].key, StripCanonical(codec, Canonical(codec, Embed(entries[0].value)), excluded))] + rest
  }

  function CanonicalText(codec: Codec, v: Value): string {
    codec.text(Canonical(codec, v))
  }

  /** `semantic_hash` without its `sha256:` prefix. */
  function Digest(codec: Codec, v: Value, excluded: set<string>): string
    requires WellFormed(v)
  {
    codec.hex(CanonicalText(codec, Embed(Strip(codec, v, excluded))))
  }

  function SemanticHash(codec: Codec, v: Value, excluded: set<string>): string
    requires WellFormed(v)
  {
    "sha256:" + Digest(codec, v, excluded)
  }

  /** The fields `semantic_hash` removes unless told otherwise. */
  const VOLATILE: set<string> := {
    "created_at", "checked_at", "generated_at", "committed_at", "frozen_at", "run_id", "stage_id",
    "trace_id", "workflow_id", "artifact_hash", "semantic_hash", "packet_id", "receipt_id"
  }

  /** `stable_id`. */
  function StableId(codec: Codec, prefix: string, v: Value): string
    requires WellFormed(v)
  {
    prefix + ":" + Digest(codec, v, VOLATILE)
  }

  // ---- One deep deletion ----

  /** Remove every excluded key, at every depth, in one pass. */
  function Delete(j: Json, excluded: set<string>): Json
    decreases j, 1
  {
    match j
    case Leaf(_) => j
    case Arr(items) => Arr(DeleteItems(items, excluded))
    case Obj(entries) => Obj(DeleteEntries(entries, excluded))
  }

  function DeleteItems(items: seq<Json>, excluded: set<string>): (r: seq<Json>)
    ensures |r| == |items|
    ensures forall i :: 0 <= i < |items| ==> r[i] == Delete(items[i], excluded)
    decreases items, 0
  {
    if items == [] then [] else [Delete(items[0], excluded)] + DeleteItems(items[1..], excluded)
  }

  function DeleteEntries(entries: seq<Entry>, excluded: set<string>): seq<Entry>
    decreases entries, 0
  {
    if entries == [] then []
    else
      var rest := DeleteEntries(entries[1..], excluded);
      if entries[0].key in excluded then rest
      else [Entry(entries[0].key, Delete(entries[0].value, excluded))] + rest
  }

  /** No object of the document, at any depth, has an excluded key. */
  ghost predicate FreeOf(j: Json, excluded: set<string>) {
    match j
    case Leaf(_) => true
    case Arr(items) => forall i :: 0 <= i < |items| ==> FreeOf(items[i], excluded)
    case Obj(entries) =>
      forall i :: 0 <= i < |entries| ==> entries[i].key !in excluded && FreeOf(entries[i].value, excluded)
  }

  // ---- Canonical data is sorted, and canonicalising it again changes nothing ----

  lemma {:induction false} CanonicalIsSorted(codec: Codec, v: Value)
    requires WellFormed(v)
    ensures Sorted(Canonical(codec, v))
    decreases v
  {
    match v
    case Raw(_) =>
    case PathOf(_) =>
    case Instant(_) =>
    case Listing(items) =>
      forall i | 0 <= i < |items| { CanonicalIsSorted(codec, items[i]); }
    case Unordered(items) =>
      forall i | 0 <= i < |items| { CanonicalIsSorted(codec, items[i]); }
      var sorted := SortBy(CanonicalItems(codec, items), codec.text);
      forall i | 0 <= i < |sorted| ensures Sorted(sorted[i]) {
        assert sorted[i] in multiset(sorted);
        assert sorted[i] in CanonicalItems(codec, items);
      }
    case Dict(fields) =>
      forall i | 0 <= i < |fields| { CanonicalIsSorted(codec, fields[i].value); }
      FieldsAreSorted(codec, fields, false);
    case Model(fields) =>
      forall i | 0 <= i < |fields| { CanonicalIsSorted(codec, fields[i].value); }
      FieldsAreSorted(codec, fields, true);
  }

  /** An entry is in the canonical object exactly when it is the canonical form of a kept field. */
  lemma {:induction false} CanonicalEntry(codec: Codec, fields: seq<Field>, dropNone: bool, e: Entry)
    ensures e in CanonicalFields(codec, fields, dropNone) <==>
      exists f :: f in fields && !(dropNone && f.value == NONE) && e == Entry(f.key, Canonical(codec, f.value))
    decreases |fields|
  {
    hide Canonical, Insert;
    if fields != [] {
      CanonicalEntry(codec, fields[1..], dropNone, e);
      assert fields == [fields[0]] + fields[1..];
      InsertHolds(Entry(fields[0].key, Canonical(codec, fields[0].value)), CanonicalFields(codec, fields[1..], dropNone), e);
    }
  }

  lemma {:induction false} InsertHolds(x: Entry, rest: seq<Entry>, e: Entry)
    requires SortedBy(rest, EntryKey)
    ensures e in Insert(x, rest, EntryKey) <==> e == x || e in rest
  {
    assert e in Insert(x, rest, EntryKey) <==> e in multiset(Insert(x, rest, EntryKey));
    assert e in rest <==> e in multiset(rest);
  }

  lemma {:induction false} FieldsAreSorted(codec: Codec, fields: seq<Field>, dropNone: bool)
    requires DistinctKeys(fields)
    requires forall i :: 0 <= i < |fields| ==> Sorted(Canonical(codec, fields[i].value))
    ensures StrictlySortedBy(CanonicalFields(codec, fields, dropNone), EntryKey)
    ensures Sorted(Obj(CanonicalFields(codec, fields, dropNone)))
    decreases |fields|
  {
    var all := CanonicalFields(codec, fields, dropNone);
    if fields != [] {
      FieldsAreSorted(codec, fields[1..], dropNone);
      var rest := CanonicalFields(codec, fields[1..], dropNone);
      var e := Entry(fields[0].key, Canonical(codec, fields[0].value));
      forall i | 0 <= i < |rest| ensures rest[i].key != e.key {
        CanonicalEntry(codec, fields[1..], dropNone, rest[i]);
      }
      InsertStrict(e, rest, EntryKey);
    }
    forall i | 0 <= i < |all| ensures Sorted(all[i].value) {
      CanonicalEntry(codec, fields, dropNone, all[i]);
    }
  }

  /** Canonicalising a canonical document returns it. */
  lemma {:induction false} CanonicalOfEmbed(codec: Codec, j: Json)
    requires Sorted(j)
    ensures Canonical(codec, Embed(j)) == j
    decreases j
  {
    match j
    case Leaf(_) =>
    case Arr(items) =>
      forall i | 0 <= i < |items| { CanonicalOfEmbed(codec, items[i]); }
      assert CanonicalItems(codec, EmbedItems(items)) == items;
    case Obj(entries) =>
      forall i | 0 <= i < |entries| { CanonicalOfEmbed(codec, entries[i].value); }
      EntriesOfEmbed(codec, entries);
  }

  lemma {:induction false} EntriesOfEmbed(codec: Codec, entries: seq<Entry>)
    requires StrictlySortedBy(entries, EntryKey)
    requires forall i :: 0 <= i < |entries| ==> Canonical(codec, Embed(entries[i].value)) == entries[i].value
    ensures CanonicalFields(codec, EmbedEntries(entries), false) == entries
    decreases |entries|
  {
    hide Canonical, Embed, Insert;
    if entries != [] {
      EntriesOfEmbed(codec, entries[1..]);
      assert EmbedEntries(entries)[1..] == EmbedEntries(entries[1..]);
      if |entries| > 1 { assert Less(EntryKey(entries[0]), EntryKey(entries[1])); }
      InsertFirst(entries[0], entries[1..], EntryKey);
      assert entries == [entries[0]] + entries[1..];
    }
  }

  lemma {:induction false} EmbedWellFormed(j: Json)
    requires Sorted(j)
    ensures WellFormed(Embed(j))
    decreases j
  {
    match j
    case Leaf(_) =>
    case Arr(items) =>
      forall i | 0 <= i < |items| { EmbedWellFormed(items[i]); }
    case Obj(entries) =>
      forall i | 0 <= i < |entries| { EmbedWellFormed(entries[i].value); }
      var fields := EmbedEntries(entries);
      forall i, k | 0 <= i < k < |fields| ensures fields[i].key != fields[k].key {
        assert Less(EntryKey(entries[i]), EntryKey(entries[k]));
      }
  }

  // ---- strip is one canonicalisation and one deep deletion ----

  /** Re-canonicalising at every level gains nothing: `strip` is one canonicalisation followed by
      one deep deletion. */
  lemma {:induction false} StripIsDelete(codec: Codec, v: Value, excluded: set<string>)
    requires WellFormed(v)
    ensures Strip(codec, v, excluded) == Delete(Canonical(codec, v), excluded)
  {
    CanonicalIsSorted(codec, v);
    StripCanonicalIsDelete(codec, Canonical(codec, v), excluded);
  }

  lemma {:induction false} StripCanonicalIsDelete(codec: Codec, j: Json, excluded: set<string>)
    requires Sorted(j)
    ensures StripCanonical(codec, j, excluded) == Delete(j, excluded)
    decreases j, 1
  {
    match j
    case Leaf(_) =>
    case Arr(items) => StripItemsIsDelete(codec, items, excluded);
    case Obj(entries) => StripEntriesIsDelete(codec, entries, excluded);
  }

  lemma {:induction false} StripItemsIsDelete(codec: Codec, items: seq<Json>, excluded: set<string>)
    requires forall i :: 0 <= i < |items| ==> Sorted(items[i])
    ensures StripItems(codec, items, excluded) == DeleteItems(items, excluded)
    decreases items, 0
  {
    if items != [] {
      CanonicalOfEmbed(codec, items[0]);
      StripCanonicalIsDelete(codec, items[0], excluded);
      StripItemsIsDelete(codec, items[1..], excluded);
    }
  }

  lemma {:induction false} StripEntriesIsDelete(codec: Codec, entries: seq<Entry>, excluded: set<string>)
    requires forall i :: 0 <= i < |entries| ==> Sorted(entries[i].value)
    ensures StripEntries(codec, entries, excluded) == DeleteEntries(entries, excluded)
    decreases entries, 0
  {
    if entries != [] {
      CanonicalOfEmbed(codec, entries[0].value);
      StripCanonicalIsDelete(codec, entries[0].value, excluded);
      StripEntriesIsDelete(codec, entries[1..], excluded);
    }
  }

  /** What a deletion keeps: the entries with admissible keys, each with its own value cleaned. */
  lemma {:induction false} DeleteEntry(entries: seq<Entry>, excluded: set<string>, e: Entry)
    ensures e in DeleteEntries(entries, excluded) <==>
      exists d :: d in entries && d.key !in excluded && e == Entry(d.key, Delete(d.value, excluded))
    decreases |entries|
  {
    if entries != [] {
      DeleteEntry(entries[1..], excluded, e);
      assert entries == [entries[0]] + entries[1..];
    }
  }

  lemma {:induction false} DeleteIsSorted(j: Json, excluded: set<string>)
    requires Sorted(j)
    ensures Sorted(Delete(j, excluded))
    decreases j
  {
    match j
    case Leaf(_) =>
    case Arr(items) =>
      forall i | 0 <= i < |items| { DeleteIsSorted(items[i], excluded); }
    case Obj(entries) =>
      var kept := DeleteEntries(entries, excluded);
      forall i | 0 <= i < |entries| { DeleteIsSorted(entries[i].value, excluded); }
      forall i | 0 <= i < |kept| ensures Sorted(kept[i].value) { DeleteEntry(entries, excluded, kept[i]); }
      DeleteKeepsOrder(entries, excluded);
  }

  lemma {:induction false} DeleteKeepsOrder(entries: seq<Entry>, excluded: set<string>)
    requires StrictlySortedBy(entries, EntryKey)
    ensures StrictlySortedBy(DeleteEntries(entries, excluded), EntryKey)
    decreases |entries|
  {
    if entries != [] {
      DeleteKeepsOrder(entries[1..], excluded);
      var rest := DeleteEntries(entries[1..], excluded);
      forall j | 0 <= j < |rest| ensures Less(entries[0].key, rest[j].key) {
        DeleteEntry(entries[1..], excluded, rest[j]);
        var d :| d in entries[1..] && rest[j] == Entry(d.key, Delete(d.value, excluded));
        var k :| 0 <= k < |entries[1..]| && entries[1..][k] == d;
        assert Less(EntryKey(entries[0]), EntryKey(entries[k + 1]));
      }
    }
  }

  /** After a deletion no excluded key is left at any depth. */
  lemma {:induction false} DeleteLeavesNone(j: Json, excluded: set<string>)
    ensures FreeOf(Delete(j, excluded), excluded)
    decreases j
  {
    match j
    case Leaf(_) =>
    case Arr(items) =>
      forall i | 0 <= i < |items| { DeleteLeavesNone(items[i], excluded); }
    case Obj(entries) =>
      var kept := DeleteEntries(entries, excluded);
      forall i | 0 <= i < |entries| { DeleteLeavesNone(entries[i].value, excluded); }
      forall i | 0 <= i < |kept| ensures kept[i].key !in excluded && FreeOf(kept[i].value, excluded) {
        DeleteEntry(entries, excluded, kept[i]);
      }
  }

  /** A document free of excluded keys is left alone, and only such a document is. */
  lemma {:induction false} DeleteFixesExactlyTheFree(j: Json, excluded: set<string>)
    ensures FreeOf(j, excluded) <==> Delete(j, excluded) == j
    decreases j
  {
    DeleteLeavesNone(j, excluded);
    match j
    case Leaf(_) =>
    case Arr(items) =>
      forall i | 0 <= i < |items| { DeleteFixesExactlyTheFree(items[i], excluded); }
      if FreeOf(j, excluded) { assert DeleteItems(items, excluded) == items; }
    case Obj(entries) =>
      if FreeOf(j, excluded) {
        forall i | 0 <= i < |entries| { DeleteFixesExactlyTheFree(entries[i].value, excluded); }
        FreeEntriesKept(entries, excluded);
      }
  }

  lemma {:induction false} FreeEntriesKept(entries: seq<Entry>, excluded: set<string>)
    requires forall i :: 0 <= i < |entries| ==>
      entries[i].key !in excluded && Delete(entries[i].value, excluded) == entries[i].value
    ensures DeleteEntries(entries, excluded) == entries
    decreases |entries|
  {
    if entries != [] {
      FreeEntriesKept(entries[1..], excluded);
      assert entries == [entries[0]] + entries[1..];
    }
  }

  /** Stripping what was stripped changes nothing. */
  lemma {:induction false} StripIdempotent(codec: Codec, v: Value, excluded: set<string>)
    requires WellFormed(v)
    ensures var once := Strip(codec, v, excluded);
      Sorted(once) && FreeOf(once, excluded) && WellFormed(Embed(once)) &&
      Strip(codec, Embed(once), excluded) == once
  {
    var once := Strip(codec, v, excluded);
    StripIsDelete(codec, v, excluded);
    CanonicalIsSorted(codec, v);
    DeleteIsSorted(Canonical(codec, v), excluded);
    DeleteLeavesNone(Canonical(codec, v), excluded);
    EmbedWellFormed(once);
    StripIsDelete(codec, Embed(once), excluded);
    CanonicalOfEmbed(codec, once);
    DeleteFixesExactlyTheFree(once, excluded);
  }

  // ---- What a digest depends on ----

  lemma {:induction false} DigestOfDelete(codec: Codec, v: Value, excluded: set<string>)
    requires WellFormed(v)
    ensures Digest(codec, v, excluded) == codec.hex(codec.text(Delete(Canonical(codec, v), excluded)))
    ensures Sorted(Delete(Canonical(codec, v), excluded))
  {
    StripIsDelete(codec, v, excluded);
    CanonicalIsSorted(codec, v);
    DeleteIsSorted(Canonical(codec, v), excluded);
    CanonicalOfEmbed(codec, Delete(Canonical(codec, v), excluded));
  }

  /** Two values have one digest exactly when they agree once canonical and cleaned. */
  lemma {:induction false} SameDigest(codec: Codec, v: Value, w: Value, excluded: set<string>)
    requires codec.Faithful() && WellFormed(v) && WellFormed(w)
    ensures Digest(codec, v, excluded) == Digest(codec, w, excluded) <==>
      Delete(Canonical(codec, v), excluded) == Delete(Canonical(codec, w), excluded)
  {
    DigestOfDelete(codec, v, excluded);
    DigestOfDelete(codec, w, excluded);
  }

  /** Objects whose entries are the same, whatever produced them, are the same object. */
  lemma {:induction false} SameEntries(a: seq<Entry>, b: seq<Entry>)
    requires StrictlySortedBy(a, EntryKey) && StrictlySortedBy(b, EntryKey)
    requires forall e :: e in a <==> e in b
    ensures a == b
  {
    var s := set e | e in a;
    ListingUnique(a, b, s, EntryKey);
  }

  /** The insertion order of a dictionary never reaches the canonical document. */
  lemma {:induction false} DictOrderIrrelevant(codec: Codec, f: seq<Field>, g: seq<Field>)
    requires WellFormed(Dict(f)) && WellFormed(Dict(g)) && multiset(f) == multiset(g)
    ensures Canonical(codec, Dict(f)) == Canonical(codec, Dict(g))
  {
    CanonicalIsSorted(codec, Dict(f));
    CanonicalIsSorted(codec, Dict(g));
    assert forall x :: x in f <==> x in multiset(f);
    assert forall x :: x in g <==> x in multiset(g);
    var a, b := CanonicalFields(codec, f, false), CanonicalFields(codec, g, false);
    forall e ensures e in a <==> e in b {
      CanonicalEntry(codec, f, false, e);
      CanonicalEntry(codec, g, false, e);
    }
    SameEntries(a, b);
  }

  /** The iteration order of a set never reaches the canonical document. */
  lemma {:induction false} SetOrderIrrelevant(codec: Codec, xs: seq<Value>, ys: seq<Value>)
    requires codec.Faithful() && WellFormed(Unordered(xs))
    requires multiset(CanonicalItems(codec, xs)) == multiset(CanonicalItems(codec, ys))
    ensures Canonical(codec, Unordered(xs)) == Canonical(codec, Unordered(ys))
  {
    forall i | 0 <= i < |xs| { CanonicalIsSorted(codec, xs[i]); }
    assert KeysTellApart(CanonicalItems(codec, xs), codec.text);
    SortByPermutes(CanonicalItems(codec, xs), CanonicalItems(codec, ys), codec.text);
  }

  /** In dictionaries that are one once cleaned, fields with the same admissible key agree once cleaned. */
  lemma {:induction false} SameCleanedSameField(codec: Codec, f: seq<Field>, g: seq<Field>, excluded: set<string>, x: Field, y: Field)
    requires WellFormed(Dict(f)) && WellFormed(Dict(g))
    requires Delete(Canonical(codec, Dict(f)), excluded) == Delete(Canonical(codec, Dict(g)), excluded)
    requires x in f && y in g && x.key == y.key && x.key !in excluded
    ensures Delete(Canonical(codec, x.value), excluded) == Delete(Canonical(codec, y.value), excluded)
  {
    CleanedEntry(codec, f, excluded, x);
    CleanedEntry(codec, g, excluded, y);
    var kept := DeleteEntries(CanonicalFields(codec, g, false), excluded);
    CanonicalIsSorted(codec, Dict(g));
    DeleteIsSorted(Canonical(codec, Dict(g)), excluded);
    var a := Entry(x.key, Delete(Canonical(codec, x.value), excluded));
    var b := Entry(y.key, Delete(Canonical(codec, y.value), excluded));
    KeyNamesEntry(kept, a, b);
  }

  /** Under one digest, fields with the same admissible key agree once cleaned. */
  lemma {:induction false} SameDigestSameField(codec: Codec, f: seq<Field>, g: seq<Field>, excluded: set<string>, x: Field, y: Field)
    requires codec.Faithful() && WellFormed(Dict(f)) && WellFormed(Dict(g))
    requires Digest(codec, Dict(f), excluded) == Digest(codec, Dict(g), excluded)
    requires x in f && y in g && x.key == y.key && x.key !in excluded
    ensures Delete(Canonical(codec, x.value), excluded) == Delete(Canonical(codec, y.value), excluded)
  {
    SameDigest(codec, Dict(f), Dict(g), excluded);
    SameCleanedSameField(codec, f, g, excluded, x, y);
  }

  lemma {:induction false} KeyNamesEntry(entries: seq<Entry>, a: Entry, b: Entry)
    requires StrictlySortedBy(entries, EntryKey) && a in entries && b in entries && a.key == b.key
    ensures a == b
  {
    var i :| 0 <= i < |entries| && entries[i] == a;
    var j :| 0 <= j < |entries| && entries[j] == b;
    assert EntryKey(entries[i]) == EntryKey(entries[j]);
  }

  lemma {:induction false} CleanedEntry(codec: Codec, f: seq<Field>, excluded: set<string>, x: Field)
    requires x in f && x.key !in excluded
    ensures Entry(x.key, Delete(Canonical(codec, x.value), excluded))
      in DeleteEntries(CanonicalFields(codec, f, false), excluded)
  {
    var e := Entry(x.key, Canonical(codec, x.value));
    CanonicalEntry(codec, f, false, e);
    DeleteEntry(CanonicalFields(codec, f, false), excluded, Entry(x.key, Delete(e.value, excluded)));
  }

  /** A record hashed whole and a dictionary of its stable fields have one digest: what only the
      record has is excluded, and no field of the dictionary is `None`. */
  lemma {:induction false} ModelDigestIsViewDigest(codec: Codec, whole: seq<Field>, view: seq<Field>, excluded: set<string>)
    requires WellFormed(Model(whole)) && WellFormed(Dict(view))
    requires forall f :: f in view ==> f in whole && f.value != NONE
    requires forall f :: f in whole && f !in view ==> f.key in excluded || f.value == NONE
    ensures Digest(codec, Model(whole), excluded) == Digest(codec, Dict(view), excluded)
  {
    var a, b := CanonicalFields(codec, whole, true), CanonicalFields(codec, view, false);
    CanonicalIsSorted(codec, Model(whole));
    CanonicalIsSorted(codec, Dict(view));
    DeleteIsSorted(Obj(a), excluded);
    DeleteIsSorted(Obj(b), excluded);
    var c, d := DeleteEntries(a, excluded), DeleteEntries(b, excluded);
    forall e ensures e in c <==> e in d {
      DeleteEntry(a, excluded, e);
      DeleteEntry(b, excluded, e);
      if e in c {
        var x :| x in a && x.key !in excluded && e == Entry(x.key, Delete(x.value, excluded));
        CanonicalEntry(codec, whole, true, x);
        CanonicalEntry(codec, view, false, x);
      }
      if e in d {
        var x :| x in b && x.key !in excluded && e == Entry(x.key, Delete(x.value, excluded));
        CanonicalEntry(codec, view, false, x);
        CanonicalEntry(codec, whole, true, x);
      }
    }
    SameEntries(c, d);
    DigestOfDelete(codec, Model(whole), excluded);
    DigestOfDelete(codec, Dict(view), excluded);
  }

  /** Cleaned, a value of a dictionary or record. */
  function Cleaned(codec: Codec, v: Value, excluded: set<string>): Json {
    Delete(Canonical(codec, v), excluded)
  }

  /** The entries of a cleaned object are the cleaned values of its kept admissible fields. */
  lemma {:induction false} CleanedEntries(codec: Codec, fields: seq<Field>, dropNone: bool, excluded: set<string>, e: Entry)
    ensures e in DeleteEntries(CanonicalFields(codec, fields, dropNone), excluded) <==>
      exists f :: f in fields && !(dropNone && f.value == NONE) && f.key !in excluded &&
        e == Entry(f.key, Cleaned(codec, f.value, excluded))
  {
    var all := CanonicalFields(codec, fields, dropNone);
    DeleteEntry(all, excluded, e);
    if e in DeleteEntries(all, excluded) {
      var d :| d in all && d.key !in excluded && e == Entry(d.key, Delete(d.value, excluded));
      CanonicalEntry(codec, fields, dropNone, d);
    }
    if f :| f in fields && !(dropNone && f.value == NONE) && f.key !in excluded && e == Entry(f.key, Cleaned(codec, f.value, excluded)) {
      CanonicalEntry(codec, fields, dropNone, Entry(f.key, Canonical(codec, f.value)));
    }
  }

  ghost predicate SameWhenCleaned(codec: Codec, a: seq<Field>, b: seq<Field>, excluded: set<string>) {
    forall f :: f in a && f.key !in excluded ==> HasCounterpart(codec, f, b, excluded)
  }

  ghost predicate HasCounterpart(codec: Codec, f: Field, b: seq<Field>, excluded: set<string>) {
    exists g :: g in b && Counterparts(codec, f, g, excluded)
  }

  ghost predicate Counterparts(codec: Codec, f: Field, g: Field, excluded: set<string>) {
    && g.key == f.key && (g.value == NONE <==> f.value == NONE)
    && Cleaned(codec, g.value, excluded) == Cleaned(codec, f.value, excluded)
  }

  /** Records whose admissible fields agree once cleaned are one record once cleaned: no digest
      tells them apart, whatever their excluded fields hold. */
  lemma {:induction false} CleanedFieldsDecide(codec: Codec, a: seq<Field>, b: seq<Field>, dropNone: bool, excluded: set<string>)
    requires WellFormed(Dict(a)) && WellFormed(Dict(b))
    requires SameWhenCleaned(codec, a, b, excluded) && SameWhenCleaned(codec, b, a, excluded)
    ensures DeleteEntries(CanonicalFields(codec, a, dropNone), excluded) == DeleteEntries(CanonicalFields(codec, b, dropNone), excluded)
  {
    var c := DeleteEntries(CanonicalFields(codec, a, dropNone), excluded);
    var d := DeleteEntries(CanonicalFields(codec, b, dropNone), excluded);
    forall e ensures e in c <==> e in d {
      CleanedEntries(codec, a, dropNone, excluded, e);
      CleanedEntries(codec, b, dropNone, excluded, e);
    }
    CleanedIsStrict(codec, a, dropNone, excluded);
    CleanedIsStrict(codec, b, dropNone, excluded);
    SameEntries(c, d);
  }

  lemma {:induction false} CleanedIsStrict(codec: Codec, a: seq<Field>, dropNone: bool, excluded: set<string>)
    requires WellFormed(Dict(a))
    ensures StrictlySortedBy(DeleteEntries(CanonicalFields(codec, a, dropNone), excluded), EntryKey)
  {
    CanonicalIsSorted(codec, if dropNone then Model(a) else Dict(a));
    DeleteKeepsOrder(CanonicalFields(codec, a, dropNone), excluded);
  }

  // ---- Records with the same keys ----

  lemma {:induction false} NullIsNone(codec: Codec, v: Value, excluded: set<string>)
    ensures Cleaned(codec, v, excluded) == Leaf(Null) <==> v == NONE
  {
  }

  ghost predicate FieldsCleanAlike(codec: Codec, a: seq<Field>, b: seq<Field>, excluded: set<string>)
    requires |a| == |b|
  {
    forall i :: 0 <= i < |a| && a[i].key !in excluded ==> Cleaned(codec, a[i].value, excluded) == Cleaned(codec, b[i].value, excluded)
  }

  /** Two records with the same keys are one once cleaned exactly when their admissible fields are. */
  lemma {:induction false} RecordsCleanAlike(codec: Codec, a: seq<Field>, b: seq<Field>, keys: seq<string>, dropNone: bool, excluded: set<string>)
    requires Keyed(a, keys) && Keyed(b, keys) && AllDifferent(keys)
    ensures DeleteEntries(CanonicalFields(codec, a, dropNone), excluded) == DeleteEntries(CanonicalFields(codec, b, dropNone), excluded)
      <==> FieldsCleanAlike(codec, a, b, excluded)
  {
    hide Cleaned, CanonicalFields, DeleteEntries, WellFormed;
    TellApart(a, keys);
    TellApart(b, keys);
    if FieldsCleanAlike(codec, a, b, excluded) {
      MatchedFields(codec, a, b, keys, excluded);
      MatchedFields(codec, b, a, keys, excluded);
      CleanedFieldsDecide(codec, a, b, dropNone, excluded);
    }
    if DeleteEntries(CanonicalFields(codec, a, dropNone), excluded) == DeleteEntries(CanonicalFields(codec, b, dropNone), excluded) {
      forall i | 0 <= i < |a| && a[i].key !in excluded ensures Cleaned(codec, a[i].value, excluded) == Cleaned(codec, b[i].value, excluded) {
        FieldCleansAlike(codec, a, b, keys, dropNone, excluded, i);
        FieldCleansAlike(codec, b, a, keys, dropNone, excluded, i);
      }
    }
  }

  lemma {:induction false} MatchedFields(codec: Codec, a: seq<Field>, b: seq<Field>, keys: seq<string>, excluded: set<string>)
    requires Keyed(a, keys) && Keyed(b, keys) && FieldsCleanAlike(codec, a, b, excluded)
    ensures SameWhenCleaned(codec, a, b, excluded)
  {
    hide Cleaned, WellFormed;
    forall f | f in a && f.key !in excluded ensures HasCounterpart(codec, f, b, excluded) {
      var i :| 0 <= i < |a| && a[i] == f;
      NullIsNone(codec, f.value, excluded);
      NullIsNone(codec, b[i].value, excluded);
      assert b[i] in b && Counterparts(codec, f, b[i], excluded);
    }
  }

  lemma {:induction false} FieldCleansAlike(
      codec: Codec, a: seq<Field>, b: seq<Field>, keys: seq<string>, dropNone: bool, excluded: set<string>, i: nat)
    requires Keyed(a, keys) && Keyed(b, keys) && AllDifferent(keys) && i < |a| && a[i].key !in excluded
    requires DeleteEntries(CanonicalFields(codec, a, dropNone), excluded) == DeleteEntries(CanonicalFields(codec, b, dropNone), excluded)
    ensures a[i].value != NONE || b[i].value == NONE || !dropNone ==>
      Cleaned(codec, a[i].value, excluded) == Cleaned(codec, b[i].value, excluded)
  {
    hide Cleaned, CanonicalFields, DeleteEntries, WellFormed;
    var e := Entry(a[i].key, Cleaned(codec, a[i].value, excluded));
    CleanedEntries(codec, a, dropNone, excluded, e);
    CleanedEntries(codec, b, dropNone, excluded, e);
    if !(dropNone && a[i].value == NONE) {
      assert a[i] in a;
      var f :| f in b && f.key !in excluded && e == Entry(f.key, Cleaned(codec, f.value, excluded));
      var j :| 0 <= j < |b| && b[j] == f;
      assert keys[j] == keys[i];
    }
  }

  ghost predicate ItemsCleanAlike(codec: Codec, xs: seq<Value>, ys: seq<Value>, excluded: set<string>) {
    |xs| == |ys| && forall i :: 0 <= i < |xs| ==> Cleaned(codec, xs[i], excluded) == Cleaned(codec, ys[i], excluded)
  }

  lemma {:induction false} ListsCleanAlike(codec: Codec, xs: seq<Value>, ys: seq<Value>, excluded: set<string>)
    ensures Cleaned(codec, Listing(xs), excluded) == Cleaned(codec, Listing(ys), excluded) <==> ItemsCleanAlike(codec, xs, ys, excluded)
  {
    var a, b := DeleteItems(CanonicalItems(codec, xs), excluded), DeleteItems(CanonicalItems(codec, ys), excluded);
    assert |a| == |xs| && |b| == |ys|;
    assert forall i :: 0 <= i < |xs| ==> a[i] == Cleaned(codec, xs[i], excluded);
    assert forall i :: 0 <= i < |ys| ==> b[i] == Cleaned(codec, ys[i], excluded);
    if ItemsCleanAlike(codec, xs, ys, excluded) { assert a == b; }
  }
}
