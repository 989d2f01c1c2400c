/** Identities minted by `stable_id` from a dictionary of texts and lists of texts (run/evidence.py:119-120),
    and when they tell records apart. */
module Identities {
  import opened Ordering
  import opened CanonicalHash

  datatype Part = Text(text: string) | Texts(texts: seq<string>) | Missing | Amount(amount: Double) | Number(number: int)

  function PartValue(p: Part): Value {
    match p
    case Text(s) => Raw(Str(s))
    case Texts(ss) => Listing(TextValues(ss))
    case Missing => NONE
    case Amount(r) => Raw(Float(r))
    case Number(n) => Raw(Int(n))
  }

  function TextValues(ss: seq<string>): (r: seq<Value>)
    ensures |r| == |ss|
    ensures forall i :: 0 <= i < |ss| ==> r[i] == Raw(Str(ss[i]))
  {
    if ss == [] then [] else [Raw(Str(ss[0]))] + TextValues(ss[1..])
  }

  /** The dictionary keys are distinct and none is one the hash removes. */
  ghost predicate GoodKeysFor(keys: seq<string>, excluded: set<string>) {
    && (forall i, j :: 0 <= i < j < |keys| ==> keys[i] != keys[j])
    && (forall i :: 0 <= i < |keys| ==> keys[i] !in excluded)
  }

  ghost predicate GoodKeys(keys: seq<string>) { GoodKeysFor(keys, VOLATILE) }

  function Fields(keys: seq<string>, parts: seq<Part>): (r: seq<Field>)
    requires |keys| == |parts|
    ensures |r| == |keys|
    ensures forall i :: 0 <= i < |r| ==> r[i] == Field(keys[i], PartValue(parts[i]))
  {
    seq(|keys|, i requires 0 <= i < |keys| => Field(keys[i], PartValue(parts[i])))
  }

  lemma {:induction false} FieldsWellFormed(keys: seq<string>, parts: seq<Part>)
    requires |keys| == |parts| && forall i, j :: 0 <= i < j < |keys| ==> keys[i] != keys[j]
    ensures WellFormed(Dict(Fields(keys, parts)))
  {
    forall i | 0 <= i < |parts| ensures WellFormed(Fields(keys, parts)[i].value) {
      assert Fields(keys, parts)[i].value == PartValue(parts[i]);
    }
  }

  function IdOf(codec: Codec, prefix: string, keys: seq<string>, parts: seq<Part>): string
    requires |keys| == |parts| && GoodKeys(keys)
  {
    FieldsWellFormed(keys, parts);
    StableId(codec, prefix, Dict(Fields(keys, parts)))
  }

  lemma {:induction false} SamePart(codec: Codec, a: Part, b: Part, excluded: set<string>)
    requires Delete(Canonical(codec, PartValue(a)), excluded) == Delete(Canonical(codec, PartValue(b)), excluded)
    ensures a == b
  {
    match (a, b)
    case (Texts(ss), Texts(ts)) =>
      CleanTexts(codec, ss, excluded);
      CleanTexts(codec, ts, excluded);
      assert ss == ts;
    case (_, _) =>
  }

  lemma {:induction false} CleanTexts(codec: Codec, ss: seq<string>, excluded: set<string>)
    ensures var items := DeleteItems(CanonicalItems(codec, TextValues(ss)), excluded);
      |items| == |ss| && forall i :: 0 <= i < |ss| ==> items[i] == Leaf(Str(ss[i]))
  {
  }

  /** Dictionaries of parts that are one once cleaned have the same parts. */
  lemma {:induction false} FieldsTellApart(codec: Codec, keys: seq<string>, a: seq<Part>, b: seq<Part>, excluded: set<string>)
    requires GoodKeysFor(keys, excluded) && |a| == |b| == |keys|
    requires Delete(Canonical(codec, Dict(Fields(keys, a))), excluded) == Delete(Canonical(codec, Dict(Fields(keys, b))), excluded)
    ensures a == b
  {
    hide Delete, Canonical;
    var f, g := Fields(keys, a), Fields(keys, b);
    FieldsWellFormed(keys, a);
    FieldsWellFormed(keys, b);
    forall i | 0 <= i < |keys| ensures a[i] == b[i] {
      SameCleanedSameField(codec, f, g, excluded, f[i], g[i]);
      SamePart(codec, a[i], b[i], excluded);
    }
  }

  /** Equal identities come from equal parts. */
  lemma {:induction false} IdTellsApart(codec: Codec, prefix: string, keys: seq<string>, a: seq<Part>, b: seq<Part>)
    requires codec.Faithful() && GoodKeys(keys) && |a| == |b| == |keys|
    requires IdOf(codec, prefix, keys, a) == IdOf(codec, prefix, keys, b)
    ensures a == b
  {
    hide Digest, Delete, Canonical;
    var f, g := Fields(keys, a), Fields(keys, b);
    FieldsWellFormed(keys, a);
    FieldsWellFormed(keys, b);
    SameTail(prefix + ":", Digest(codec, Dict(f), VOLATILE), Digest(codec, Dict(g), VOLATILE));
    SameDigest(codec, Dict(f), Dict(g), VOLATILE);
    FieldsTellApart(codec, keys, a, b, VOLATILE);
  }

  lemma {:induction false} SameTail(p: string, s: string, t: string)
    requires p + s == p + t
    ensures s == t
  {
    assert (p + s)[|p|..] == s && (p + t)[|p|..] == t;
  }

  // ---- The identities of the reconciled records ----

  const CLAIM_KEYS: seq<string> := ["subject_id", "predicate", "object"]
  const GROUP_KEYS: seq<string> := ["subject_id", "field", "values"]
  const DIAGNOSTIC_KEYS: seq<string> := ["stage", "code", "subject_id", "field"]

  lemma {:induction false} ReconciledKeysAreGood()
    ensures GoodKeys(CLAIM_KEYS) && GoodKeys(GROUP_KEYS) && GoodKeys(DIAGNOSTIC_KEYS)
  {
  }

  /** `_claim_id`. */
  function ClaimId(codec: Codec, subject: string, predicat: string, object_: string): string {
    ReconciledKeysAreGood();
    IdOf(codec, "claim", CLAIM_KEYS, [Text(subject), Text(predicat), Text(object_)])
  }

  function ConflictId(codec: Codec, subject: string, field: string, values: seq<string>): string {
    ReconciledKeysAreGood();
    IdOf(codec, "conflict", GROUP_KEYS, [Text(subject), Text(field), Texts(values)])
  }

  function UnknownId(codec: Codec, subject: string, field: string, values: seq<string>): string {
    ReconciledKeysAreGood();
    IdOf(codec, "unknown", GROUP_KEYS, [Text(subject), Text(field), Texts(values)])
  }

  function DiagnosticId(codec: Codec, stage: string, code: string, subject: string, field: string): string {
    ReconciledKeysAreGood();
    IdOf(codec, "diagnostic", DIAGNOSTIC_KEYS, [Text(stage), Text(code), Text(subject), Text(field)])
  }

  /** Two claims have one identity exactly when they say the same thing. */
  lemma {:induction false} ClaimIdIdentifies(codec: Codec, s: string, p: string, o: string, t: string, q: string, u: string)
    requires codec.Faithful() && ClaimId(codec, s, p, o) == ClaimId(codec, t, q, u)
    ensures s == t && p == q && o == u
  {
    ReconciledKeysAreGood();
    var a, b := [Text(s), Text(p), Text(o)], [Text(t), Text(q), Text(u)];
    IdTellsApart(codec, "claim", CLAIM_KEYS, a, b);
    assert a[0] == b[0] && a[1] == b[1] && a[2] == b[2];
  }

  lemma {:induction false} ConflictIdIdentifies(codec: Codec, s: string, f: string, vs: seq<string>, t: string, g: string, ws: seq<string>)
    requires codec.Faithful() && ConflictId(codec, s, f, vs) == ConflictId(codec, t, g, ws)
    ensures s == t && f == g && vs == ws
  {
    ReconciledKeysAreGood();
    var a, b := [Text(s), Text(f), Texts(vs)], [Text(t), Text(g), Texts(ws)];
    IdTellsApart(codec, "conflict", GROUP_KEYS, a, b);
    assert a[0] == b[0] && a[1] == b[1] && a[2] == b[2];
  }

  // ---- The identities of projected records ----

  function TextParts(ss: seq<string>): (r: seq<Part>)
    ensures |r| == |ss|
    ensures forall i :: 0 <= i < |ss| ==> r[i] == Text(ss[i])
  {
    seq(|ss|, i requires 0 <= i < |ss| => Text(ss[i]))
  }

  function EdgeFields(source: string, target: string, typeName: string, keys: seq<string>, values: seq<string>): seq<Field>
    requires |keys| == |values|
  {
    [Field("source_id", Raw(Str(source))), Field("target_id", Raw(Str(target))), Field("edge_type", Raw(Str(typeName))),
     Field("properties", Dict(Fields(keys, TextParts(values))))]
  }

  lemma {:induction false} EdgeFieldsWellFormed(source: string, target: string, typeName: string, keys: seq<string>, values: seq<string>)
    requires |keys| == |values| && GoodKeys(keys)
    ensures WellFormed(Dict(EdgeFields(source, target, typeName, keys, values)))
  {
    FieldsWellFormed(keys, TextParts(values));
    var f := EdgeFields(source, target, typeName, keys, values);
    assert f[0].key == "source_id" && f[1].key == "target_id" && f[2].key == "edge_type" && f[3].key == "properties";
  }

  /** The identity of an edge with its properties. */
  function EdgeId(codec: Codec, source: string, target: string, typeName: string, keys: seq<string>, values: seq<string>): string
    requires |keys| == |values| && GoodKeys(keys)
  {
    EdgeFieldsWellFormed(source, target, typeName, keys, values);
    StableId(codec, "edge", Dict(EdgeFields(source, target, typeName, keys, values)))
  }
}
