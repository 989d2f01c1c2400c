/** Producer statements reconciled into claims, conflicts, unknowns and diagnostics
    (stages/reconcile_assertions.py, reconciliation/predicates.py). */
module Reconciliation {
  import opened Wrappers
  import opened Ordering
  import opened CanonicalHash
  import opened Identities
  import opened Domain

  datatype Statement = Statement(
    inputId: string, subject: string, predicat: string, object_: string, authority: string, confidence: string, evidenceClass: string)

  /** The predicate tables and the producer vocabularies. */
  datatype Registry = Registry(
    many: set<string>, single: set<string>, auxiliary: set<string>, declarationOnly: set<string>,
    levels: map<string, Level>, authorities: map<string, Authority>) {

    function SupportOf(p: string): Support {
      if p in many then SetValued else if p in single then SingleValued else if p in auxiliary then Auxiliary else Unsupported
    }

    function CardinalityOf(p: string): Cardinality {
      match SupportOf(p)
      case SetValued => Many
      case Auxiliary => Many
      case SingleValued => One
      case Unsupported => Unstated
    }

    predicate Projectable(p: string) {
      p !in declarationOnly && (SupportOf(p) == SetValued || SupportOf(p) == SingleValued)
    }

    function LevelOf(s: Statement): Level { if s.confidence in levels then levels[s.confidence] else Low }

    function AuthorityOf(s: Statement): Authority { if s.authority in authorities then authorities[s.authority] else UnknownAuthority }

    function DerivationOf(s: Statement): Derivation { if s.evidenceClass == "declared" then Declared else Deterministic }
  }

  datatype Diagnostic = Diagnostic(
    diagnosticId: string, packetId: string, subject: string, field: string, evidenceRefs: seq<string>, objects: seq<string>, count: nat)

  datatype Outcome = Outcome(claims: seq<Claim>, conflicts: seq<Conflict>, unknowns: seq<Unknown>, diagnostics: seq<Diagnostic>)

  type Key = (string, string)

  // ---- Evidence ----

  /** The stages whose evidence carries a statement. */
  const STATEMENT_STAGES: set<string> := {"ingest_assertions", "ingest_document_signals"}

  /** `AssertionEvidenceIndex`: the last record for a statement wins. */
  function Resolution(evidence: seq<Evidence>): map<Key, string> {
    if evidence == [] then map[]
    else
      var e := evidence[|evidence| - 1];
      var earlier := Resolution(evidence[..|evidence| - 1]);
      if e.stage in STATEMENT_STAGES && e.assertionId.Some? then earlier[(e.subject, e.assertionId.value) := e.evidenceId] else earlier
  }

  /** The packet of each evidence record, by identity. */
  function Packets(evidence: seq<Evidence>): map<string, string> {
    if evidence == [] then map[]
    else Packets(evidence[..|evidence| - 1])[evidence[|evidence| - 1].evidenceId := evidence[|evidence| - 1].packetId]
  }

  /** `resolve_all`: the evidence of some statements, in ascending order. */
  function Refs(index: map<Key, string>, s: set<Statement>): seq<string> {
    SortedIds(set x | x in s && (x.subject, x.inputId) in index :: index[(x.subject, x.inputId)])
  }

  function PacketIdFor(packets: map<string, string>, refs: seq<string>): string {
    if refs == [] then "packet:unresolved"
    else if refs[0] in packets && packets[refs[0]] != "" then packets[refs[0]]
    else PacketIdFor(packets, refs[1..])
  }

  // ---- The statements of a question ----

  function Asked(s: Statement): Key { (s.subject, s.predicat) }

  function Keys(s: set<Statement>): set<Key> { set x | x in s :: Asked(x) }

  function About(s: set<Statement>, k: Key): set<Statement> { set x | x in s && Asked(x) == k }

  function Saying(s: set<Statement>, k: Key, o: string): set<Statement> { set x | x in s && Asked(x) == k && x.object_ == o }

  function Objects(s: set<Statement>, k: Key): set<string> { set x | x in s && Asked(x) == k :: x.object_ }

  function SetOf(xs: seq<Statement>): set<Statement> { set x | x in xs }

  // ---- Confidence ----

  /** The lowest level any of the statements is given; low when there are none. */
  function WeakestLevel(r: Registry, s: set<Statement>): Level {
    if s == {} || exists x :: x in s && r.LevelOf(x) == Low then Low
    else if exists x :: x in s && r.LevelOf(x) == Medium then Medium
    else High
  }

  function WeakestAuthority(r: Registry, s: set<Statement>): Authority {
    if s == {} || exists x :: x in s && r.AuthorityOf(x) == UnknownAuthority then UnknownAuthority
    else if exists x :: x in s && r.AuthorityOf(x) == Candidate then Candidate
    else if exists x :: x in s && r.AuthorityOf(x) == Derived then Derived
    else if exists x :: x in s && r.AuthorityOf(x) == ValidatedMachine then ValidatedMachine
    else Source
  }

  function DerivationAcross(r: Registry, s: set<Statement>): Derivation {
    var methods := set x | x in s :: r.DerivationOf(x);
    if methods == {Declared} then Declared else if methods == {Deterministic} then Deterministic else CrossRecord
  }

  function ClaimConfidence(r: Registry, s: set<Statement>, evidenceCount: nat, status: ConflictStatus): Confidence {
    Confidence(WeakestLevel(r, s), if evidenceCount > 1 then Corroborated else Direct, DerivationAcross(r, s), WeakestAuthority(r, s),
               if status != NoConflict then Partial else Sufficient, status)
  }

  /** The weakest level is a level some statement has, and none has a weaker one. */
  lemma {:induction false} WeakestIsLeast(r: Registry, s: set<Statement>, x: Statement)
    requires x in s
    ensures LevelRank(WeakestLevel(r, s)) <= LevelRank(r.LevelOf(x)) && AuthorityRank(WeakestAuthority(r, s)) <= AuthorityRank(r.AuthorityOf(x))
    ensures exists y :: y in s && r.LevelOf(y) == WeakestLevel(r, s)
    ensures exists y :: y in s && r.AuthorityOf(y) == WeakestAuthority(r, s)
  {
  }

  // ---- What a question yields ----

  datatype Compiler = Compiler(codec: Codec, registry: Registry, index: map<Key, string>, packets: map<string, string>)

  function StatusOf(c: Compiler, s: set<Statement>, k: Key): ConflictStatus {
    if |Objects(s, k)| <= 1 then NoConflict
    else match c.registry.CardinalityOf(k.1) case One => Confirmed case Unstated => Possible case Many => NoConflict
  }

  function ConflictsFor(c: Compiler, s: set<Statement>, k: Key): seq<Conflict> {
    if StatusOf(c, s, k) != Confirmed then []
    else
      var values := SortedIds(Objects(s, k));
      [Conflict(ConflictId(c.codec, k.0, k.1, values), k.0, k.1, values, Refs(c.index, About(s, k)), false)]
  }

  function ConflictIdsFor(c: Compiler, s: set<Statement>, k: Key): seq<string> {
    if StatusOf(c, s, k) != Confirmed then [] else [ConflictId(c.codec, k.0, k.1, SortedIds(Objects(s, k)))]
  }

  function ClaimFor(c: Compiler, s: set<Statement>, k: Key, o: string): Claim {
    var supporting := Saying(s, k, o);
    var refs := Refs(c.index, supporting);
    var status := StatusOf(c, s, k);
    Claim(ClaimId(c.codec, k.0, k.1, o), k.0, k.1, o, SortedIds(set x | x in supporting :: x.inputId), refs,
          ClaimConfidence(c.registry, supporting, |refs|, status), WeakestAuthority(c.registry, supporting),
          c.registry.CardinalityOf(k.1), c.registry.SupportOf(k.1), status, ConflictIdsFor(c, s, k), false, [])
  }

  function ClaimsFor(c: Compiler, s: set<Statement>, k: Key, objects: seq<string>): (r: seq<Claim>)
    ensures |r| == |objects|
    ensures forall i :: 0 <= i < |r| ==> r[i] == ClaimFor(c, s, k, objects[i])
  {
    seq(|objects|, i requires 0 <= i < |objects| => ClaimFor(c, s, k, objects[i]))
  }

  function UnknownsFor(c: Compiler, s: set<Statement>, k: Key): seq<Unknown> {
    if c.registry.SupportOf(k.1) != Unsupported then []
    else [Unknown(UnknownId(c.codec, k.0, k.1, SortedIds(Objects(s, k))), k.0, Some(k.1), Refs(c.index, About(s, k)))]
  }

  function DiagnosticsFor(c: Compiler, s: set<Statement>, k: Key, count: nat): seq<Diagnostic> {
    if c.registry.SupportOf(k.1) != Unsupported then []
    else
      var refs := Refs(c.index, About(s, k));
      [Diagnostic(DiagnosticId(c.codec, "reconcile_assertions", "assertion-predicate-unsupported", k.0, k.1),
                  PacketIdFor(c.packets, refs), k.0, k.1, refs, SortedIds(Objects(s, k)), count)]
  }

  // ---- What all the questions yield ----

  function AllClaims(c: Compiler, s: set<Statement>, keys: seq<Key>): seq<Claim> {
    if keys == [] then []
    else
      var k := keys[|keys| - 1];
      AllClaims(c, s, keys[..|keys| - 1]) + ClaimsFor(c, s, k, SortedIds(Objects(s, k)))
  }

  function AllConflicts(c: Compiler, s: set<Statement>, keys: seq<Key>): seq<Conflict> {
    if keys == [] then [] else AllConflicts(c, s, keys[..|keys| - 1]) + ConflictsFor(c, s, keys[|keys| - 1])
  }

  function AllUnknowns(c: Compiler, s: set<Statement>, keys: seq<Key>): seq<Unknown> {
    if keys == [] then [] else AllUnknowns(c, s, keys[..|keys| - 1]) + UnknownsFor(c, s, keys[|keys| - 1])
  }

  function AllDiagnostics(c: Compiler, s: set<Statement>, statements: seq<Statement>, keys: seq<Key>): seq<Diagnostic> {
    if keys == [] then []
    else
      var k := keys[|keys| - 1];
      AllDiagnostics(c, s, statements, keys[..|keys| - 1]) + DiagnosticsFor(c, s, k, |Group(statements, k)|)
  }

  /** The statements about a question, in their order. */
  function Group(statements: seq<Statement>, k: Key): seq<Statement> {
    if statements == [] then []
    else
      var last := statements[|statements| - 1];
      Group(statements[..|statements| - 1], k) + if Asked(last) == k then [last] else []
  }

  function DiagnosticKey(x: Diagnostic): string { x.diagnosticId }

  function Claims(c: Compiler, s: set<Statement>): seq<Claim> {
    SortBy(AllClaims(c, s, SortedPairs(Keys(s))), ClaimKey)
  }

  function Conflicts(c: Compiler, s: set<Statement>): seq<Conflict> {
    SortBy(AllConflicts(c, s, SortedPairs(Keys(s))), ConflictKey)
  }

  function Unknowns(c: Compiler, s: set<Statement>): seq<Unknown> {
    SortBy(AllUnknowns(c, s, SortedPairs(Keys(s))), UnknownKey)
  }

  function Diagnostics(c: Compiler, statements: seq<Statement>): seq<Diagnostic> {
    SortBy(AllDiagnostics(c, SetOf(statements), statements, SortedPairs(Keys(SetOf(statements)))), DiagnosticKey)
  }

  function CompilerOf(codec: Codec, registry: Registry, evidence: seq<Evidence>): Compiler {
    Compiler(codec, registry, Resolution(evidence), Packets(evidence))
  }

  /** What reconciliation reports: all but the diagnostics' counts depend on the set of statements only. */
  function Reconciled(c: Compiler, statements: seq<Statement>): Outcome {
    var s := SetOf(statements);
    Outcome(Claims(c, s), Conflicts(c, s), Unknowns(c, s), Diagnostics(c, statements))
  }

  // ---- The stage ----

  /** `AssertionEvidenceIndex.__init__`. */
  method BuildIndex(evidence: seq<Evidence>) returns (index: map<Key, string>)
    ensures index == Resolution(evidence)
  {
    index := map[];
    for i := 0 to |evidence|
      invariant index == Resolution(evidence[..i])
    {
      assert evidence[..i + 1][..i] == evidence[..i];
      var record := evidence[i];
      if record.stage !in STATEMENT_STAGES { continue; }
      if record.assertionId.None? { continue; }
      index := index[(record.subject, record.assertionId.value) := record.evidenceId];
    }
    assert evidence[..|evidence|] == evidence;
  }

  lemma {:induction false} GroupSnoc(statements: seq<Statement>, i: nat, k: Key)
    requires i < |statements|
    ensures Group(statements[..i + 1], k) == Group(statements[..i], k) + if Asked(statements[i]) == k then [statements[i]] else []
    ensures SetOf(statements[..i + 1]) == SetOf(statements[..i]) + {statements[i]}
  {
    assert statements[..i + 1][..i] == statements[..i];
    assert statements[..i + 1] == statements[..i] + [statements[i]];
  }

  lemma {:induction false} GroupHolds(statements: seq<Statement>, k: Key)
    ensures SetOf(Group(statements, k)) == About(SetOf(statements), k)
  {
    if statements != [] {
      var n := |statements| - 1;
      GroupHolds(statements[..n], k);
      assert statements == statements[..n] + [statements[n]];
      SetOfSnoc(statements[..n], statements[n]);
      SetOfSnoc(Group(statements[..n], k), statements[n]);
      assert Group(statements[..n], k) + [] == Group(statements[..n], k);
    }
  }

  lemma {:induction false} SetOfSnoc(xs: seq<Statement>, x: Statement)
    ensures SetOf(xs + [x]) == SetOf(xs) + {x}
  {
  }

  method GroupStatements(statements: seq<Statement>) returns (grouped: map<Key, seq<Statement>>)
    ensures grouped.Keys == Keys(SetOf(statements))
    ensures forall k :: k in grouped ==> grouped[k] == Group(statements, k)
  {
    grouped := map[];
    for i := 0 to |statements|
      invariant grouped.Keys == Keys(SetOf(statements[..i]))
      invariant forall k :: k in grouped ==> grouped[k] == Group(statements[..i], k)
    {
      var s := statements[i];
      var key := (s.subject, s.predicat);
      forall k ensures Group(statements[..i + 1], k) == Group(statements[..i], k) + if Asked(s) == k then [s] else [] {
        GroupSnoc(statements, i, k);
      }
      GroupSnoc(statements, i, key);
      if key !in grouped { GroupEmpty(statements[..i], key); }
      grouped := grouped[key := (if key in grouped then grouped[key] else []) + [s]];
    }
    assert statements[..|statements|] == statements;
  }

  lemma {:induction false} GroupEmpty(statements: seq<Statement>, k: Key)
    requires k !in Keys(SetOf(statements))
    ensures Group(statements, k) == []
  {
    GroupHolds(statements, k);
    EmptyList(Group(statements, k));
    assert About(SetOf(statements), k) == {};
  }

  lemma {:induction false} EmptyList(xs: seq<Statement>)
    ensures SetOf(xs) == {} ==> xs == []
  {
    if xs != [] { assert xs[0] in SetOf(xs); }
  }

  /** The statements of one question by what they answer. */
  method GroupByObject(group: seq<Statement>, ghost k: Key) returns (byObject: map<string, set<Statement>>)
    requires forall x :: x in group ==> Asked(x) == k
    ensures byObject.Keys == Objects(SetOf(group), k)
    ensures forall o :: o in byObject ==> byObject[o] == Saying(SetOf(group), k, o)
  {
    byObject := map[];
    for i := 0 to |group|
      invariant byObject.Keys == Objects(SetOf(group[..i]), k)
      invariant forall o :: o in byObject ==> byObject[o] == Saying(SetOf(group[..i]), k, o)
    {
      var s := group[i];
      GroupSnoc(group, i, k);
      if s.object_ !in byObject { assert Saying(SetOf(group[..i]), k, s.object_) == {}; }
      byObject := byObject[s.object_ := (if s.object_ in byObject then byObject[s.object_] else {}) + {s}];
    }
    assert group[..|group|] == group;
  }

  /** `run`. */
  method Run(codec: Codec, registry: Registry, statements: seq<Statement>, evidence: seq<Evidence>) returns (outcome: Outcome)
    ensures outcome == Reconciled(CompilerOf(codec, registry, evidence), statements)
  {
    hide AllClaims, AllConflicts, AllUnknowns, AllDiagnostics, ClaimsFor, ConflictsFor, UnknownsFor, DiagnosticsFor, Group, Keys, SetOf,
      Resolution, Packets;
    var index := BuildIndex(evidence);
    var c := Compiler(codec, registry, index, Packets(evidence));
    var grouped := GroupStatements(statements);
    var keys := SortedPairs(grouped.Keys);
    var claims: seq<Claim>, conflicts: seq<Conflict>, unknowns: seq<Unknown>, diagnostics: seq<Diagnostic> := [], [], [], [];
    ghost var s := SetOf(statements);
    NoKeys(c, s, statements);
    for i := 0 to |keys|
      invariant claims == AllClaims(c, s, keys[..i]) && conflicts == AllConflicts(c, s, keys[..i])
      invariant unknowns == AllUnknowns(c, s, keys[..i]) && diagnostics == AllDiagnostics(c, s, statements, keys[..i])
    {
      var newClaims, newConflicts, newUnknowns, newDiagnostics := ReconcileGroup(c, statements, keys[i], grouped[keys[i]]);
      MoreKeys(c, s, statements, keys, i);
      claims := claims + newClaims;
      conflicts := conflicts + newConflicts;
      unknowns := unknowns + newUnknowns;
      diagnostics := diagnostics + newDiagnostics;
    }
    assert keys[..|keys|] == keys;
    outcome := Outcome(SortBy(claims, ClaimKey), SortBy(conflicts, ConflictKey), SortBy(unknowns, UnknownKey), SortBy(diagnostics, DiagnosticKey));
  }

  lemma {:induction false} NoKeys(c: Compiler, s: set<Statement>, statements: seq<Statement>)
    ensures AllClaims(c, s, []) == [] && AllConflicts(c, s, []) == [] && AllUnknowns(c, s, []) == []
    ensures AllDiagnostics(c, s, statements, []) == []
  {
  }

  lemma {:induction false} MoreKeys(c: Compiler, s: set<Statement>, statements: seq<Statement>, keys: seq<Key>, i: nat)
    requires i < |keys|
    ensures AllClaims(c, s, keys[..i + 1]) == AllClaims(c, s, keys[..i]) + ClaimsFor(c, s, keys[i], SortedIds(Objects(s, keys[i])))
    ensures AllConflicts(c, s, keys[..i + 1]) == AllConflicts(c, s, keys[..i]) + ConflictsFor(c, s, keys[i])
    ensures AllUnknowns(c, s, keys[..i + 1]) == AllUnknowns(c, s, keys[..i]) + UnknownsFor(c, s, keys[i])
    ensures AllDiagnostics(c, s, statements, keys[..i + 1])
      == AllDiagnostics(c, s, statements, keys[..i]) + DiagnosticsFor(c, s, keys[i], |Group(statements, keys[i])|)
  {
    assert keys[..i + 1][..i] == keys[..i];
  }

  /** One turn of the loop over questions. */
  method ReconcileGroup(c: Compiler, ghost statements: seq<Statement>, k: Key, group: seq<Statement>)
    returns (claims: seq<Claim>, conflicts: seq<Conflict>, unknowns: seq<Unknown>, diagnostics: seq<Diagnostic>)
    requires group == Group(statements, k)
    ensures var s := SetOf(statements);
      && claims == ClaimsFor(c, s, k, SortedIds(Objects(s, k))) && conflicts == ConflictsFor(c, s, k)
      && unknowns == UnknownsFor(c, s, k) && diagnostics == DiagnosticsFor(c, s, k, |group|)
  {
    hide ClaimsFor, ConflictsFor, UnknownsFor, DiagnosticsFor, Group, PacketIdFor, Refs, StatusOf, ConflictIdsFor, Saying, Objects;
    ghost var s := SetOf(statements);
    GroupHolds(statements, k);
    var members := SetOf(group);
    assert forall x :: x in group ==> x in members;
    var byObject := GroupByObject(group, k);
    SameGroup(s, k);
    var objects := SortedIds(byObject.Keys);
    var groupEvidence := Refs(c.index, members);
    var packetId := PacketIdFor(c.packets, groupEvidence);
    var status, conflictIds;
    conflicts, unknowns, diagnostics, status, conflictIds := JudgeGroup(c, s, k, objects, groupEvidence, packetId, |group|);
    claims := ClaimsOfGroup(c, s, k, byObject, objects, status, conflictIds);
  }

  /** Whether the answers compete, and what is reported about the question itself. */
  method JudgeGroup(
      c: Compiler, ghost s: set<Statement>, k: Key, objects: seq<string>, groupEvidence: seq<string>, packetId: string, count: nat)
    returns (conflicts: seq<Conflict>, unknowns: seq<Unknown>, diagnostics: seq<Diagnostic>, status: ConflictStatus, conflictIds: seq<string>)
    requires objects == SortedIds(Objects(s, k)) && groupEvidence == Refs(c.index, About(s, k))
    requires packetId == PacketIdFor(c.packets, groupEvidence)
    ensures status == StatusOf(c, s, k) && conflictIds == ConflictIdsFor(c, s, k) && conflicts == ConflictsFor(c, s, k)
    ensures unknowns == UnknownsFor(c, s, k) && diagnostics == DiagnosticsFor(c, s, k, count)
  {
    hide ConflictId, UnknownId, DiagnosticId, Refs, PacketIdFor, Objects;
    var support, cardinality := c.registry.SupportOf(k.1), c.registry.CardinalityOf(k.1);
    conflictIds := [];
    status := NoConflict;
    conflicts, unknowns, diagnostics := [], [], [];
    if cardinality == One && |objects| > 1 {
      var conflictId := ConflictId(c.codec, k.0, k.1, objects);
      conflicts := [Conflict(conflictId, k.0, k.1, objects, groupEvidence, false)];
      conflictIds := [conflictId];
      status := Confirmed;
    } else if cardinality == Unstated && |objects| > 1 {
      status := Possible;
    }
    if support == Unsupported {
      unknowns := [Unknown(UnknownId(c.codec, k.0, k.1, objects), k.0, Some(k.1), groupEvidence)];
      diagnostics := [Diagnostic(DiagnosticId(c.codec, "reconcile_assertions", "assertion-predicate-unsupported", k.0, k.1),
                                 packetId, k.0, k.1, groupEvidence, objects, count)];
    }
  }

  lemma {:induction false} ClaimsForGrows(c: Compiler, s: set<Statement>, k: Key, objects: seq<string>, i: nat)
    ensures ClaimsFor(c, s, k, []) == []
    ensures i < |objects| ==> ClaimsFor(c, s, k, objects[..i + 1]) == ClaimsFor(c, s, k, objects[..i]) + [ClaimFor(c, s, k, objects[i])]
  {
    hide ClaimFor;
  }

  /** The loop over the objects of a question. */
  method ClaimsOfGroup(
      c: Compiler, ghost s: set<Statement>, k: Key, byObject: map<string, set<Statement>>, objects: seq<string>, status: ConflictStatus,
      conflictIds: seq<string>) returns (claims: seq<Claim>)
    requires forall o :: o in objects ==> o in byObject && byObject[o] == Saying(s, k, o)
    requires status == StatusOf(c, s, k) && conflictIds == ConflictIdsFor(c, s, k)
    ensures claims == ClaimsFor(c, s, k, objects)
  {
    hide StatusOf, ConflictIdsFor, ClaimId, Saying, Refs, WeakestAuthority, ClaimConfidence, ClaimsFor;
    claims := [];
    ClaimsForGrows(c, s, k, objects, 0);
    for i := 0 to |objects|
      invariant claims == ClaimsFor(c, s, k, objects[..i])
    {
      var supporting := byObject[objects[i]];
      var refs := Refs(c.index, supporting);
      claims := claims + [
        Claim(ClaimId(c.codec, k.0, k.1, objects[i]), k.0, k.1, objects[i], SortedIds(set x | x in supporting :: x.inputId), refs,
              ClaimConfidence(c.registry, supporting, |refs|, status), WeakestAuthority(c.registry, supporting),
              c.registry.CardinalityOf(k.1), c.registry.SupportOf(k.1), status, conflictIds, false, [])];
      ClaimsForGrows(c, s, k, objects, i);
    }
    assert objects[..|objects|] == objects;
  }

  /** Restricting to a question keeps what its statements answer. */
  lemma {:induction false} SameGroup(s: set<Statement>, k: Key)
    ensures Objects(About(s, k), k) == Objects(s, k)
    ensures forall o :: Saying(About(s, k), k, o) == Saying(s, k, o)
  {
  }

  // ---- Order and repetition ----

  lemma {:induction false} GroupCounts(statements: seq<Statement>, k: Key, x: Statement)
    ensures multiset(Group(statements, k))[x] == if Asked(x) == k then multiset(statements)[x] else 0
  {
    if statements != [] {
      var n := |statements| - 1;
      assert statements == statements[..n] + [statements[n]];
      GroupCounts(statements[..n], k, x);
    }
  }

  lemma {:induction false} GroupSizes(xs: seq<Statement>, ys: seq<Statement>, k: Key)
    requires multiset(xs) == multiset(ys)
    ensures |Group(xs, k)| == |Group(ys, k)|
  {
    forall x ensures multiset(Group(xs, k))[x] == multiset(Group(ys, k))[x] {
      GroupCounts(xs, k, x);
      GroupCounts(ys, k, x);
    }
    assert multiset(Group(xs, k)) == multiset(Group(ys, k));
    SameLength(Group(xs, k), Group(ys, k));
  }

  lemma {:induction false} SameDiagnostics(c: Compiler, s: set<Statement>, xs: seq<Statement>, ys: seq<Statement>, keys: seq<Key>)
    requires multiset(xs) == multiset(ys)
    ensures AllDiagnostics(c, s, xs, keys) == AllDiagnostics(c, s, ys, keys)
  {
    if keys != [] {
      SameDiagnostics(c, s, xs, ys, keys[..|keys| - 1]);
      GroupSizes(xs, ys, keys[|keys| - 1]);
    }
  }

  /** The order in which statements arrive never reaches what is reported. */
  lemma {:induction false} OrderIrrelevant(c: Compiler, xs: seq<Statement>, ys: seq<Statement>)
    requires multiset(xs) == multiset(ys)
    ensures Reconciled(c, xs) == Reconciled(c, ys)
  {
    hide Claims, Conflicts, Unknowns, AllDiagnostics, Group;
    assert SetOf(xs) == SetOf(ys) by {
      forall x ensures x in SetOf(xs) <==> x in SetOf(ys) { SameMembers(xs, ys, x); }
    }
    SameDiagnostics(c, SetOf(xs), xs, ys, SortedPairs(Keys(SetOf(xs))));
  }

  ghost predicate SameButCount(a: seq<Diagnostic>, b: seq<Diagnostic>) {
    |a| == |b| && forall i :: 0 <= i < |a| ==> a[i] == b[i].(count := a[i].count)
  }

  lemma {:induction false} DiagnosticsButCount(c: Compiler, s: set<Statement>, xs: seq<Statement>, ys: seq<Statement>, keys: seq<Key>)
    ensures SameButCount(AllDiagnostics(c, s, xs, keys), AllDiagnostics(c, s, ys, keys))
  {
    hide PacketIdFor, DiagnosticId, Group;
    if keys != [] { DiagnosticsButCount(c, s, xs, ys, keys[..|keys| - 1]); }
  }

  lemma {:induction false} SortedTail(a: seq<Diagnostic>)
    requires SortedBy(a, DiagnosticKey) && a != []
    ensures SortedBy(a[1..], DiagnosticKey)
  {
  }

  lemma {:induction false} InsertUnfolds(x: Diagnostic, a: seq<Diagnostic>)
    requires SortedBy(a, DiagnosticKey)
    ensures Insert(x, a, DiagnosticKey) ==
      if a == [] || Leq(x.diagnosticId, a[0].diagnosticId) then [x] + a else (SortedTail(a); [a[0]] + Insert(x, a[1..], DiagnosticKey))
  {
  }

  lemma {:induction false} ConsButCount(x: Diagnostic, y: Diagnostic, a: seq<Diagnostic>, b: seq<Diagnostic>)
    requires x == y.(count := x.count) && SameButCount(a, b)
    ensures SameButCount([x] + a, [y] + b)
  {
  }

  lemma {:induction false} InsertButCount(x: Diagnostic, y: Diagnostic, a: seq<Diagnostic>, b: seq<Diagnostic>)
    requires x == y.(count := x.count) && SameButCount(a, b) && SortedBy(a, DiagnosticKey) && SortedBy(b, DiagnosticKey)
    ensures SameButCount(Insert(x, a, DiagnosticKey), Insert(y, b, DiagnosticKey))
    decreases |a|
  {
    hide SortedBy, Insert, Leq;
    InsertUnfolds(x, a);
    InsertUnfolds(y, b);
    if a == [] || Leq(x.diagnosticId, a[0].diagnosticId) {
      ConsButCount(x, y, a, b);
    } else {
      SortedTail(a);
      SortedTail(b);
      InsertButCount(x, y, a[1..], b[1..]);
      ConsButCount(a[0], b[0], Insert(x, a[1..], DiagnosticKey), Insert(y, b[1..], DiagnosticKey));
    }
  }

  lemma {:induction false} SortButCount(a: seq<Diagnostic>, b: seq<Diagnostic>)
    requires SameButCount(a, b)
    ensures SameButCount(SortBy(a, DiagnosticKey), SortBy(b, DiagnosticKey))
  {
    if a != [] {
      SortButCount(a[1..], b[1..]);
      InsertButCount(a[0], b[0], SortBy(a[1..], DiagnosticKey), SortBy(b[1..], DiagnosticKey));
    }
  }

  /** Repeating statements changes nothing but the number of statements a diagnostic mentions. */
  lemma {:induction false} RepetitionIrrelevant(c: Compiler, xs: seq<Statement>, ys: seq<Statement>)
    requires SetOf(xs) == SetOf(ys)
    ensures var a, b := Reconciled(c, xs), Reconciled(c, ys);
      a.claims == b.claims && a.conflicts == b.conflicts && a.unknowns == b.unknowns && SameButCount(a.diagnostics, b.diagnostics)
  {
    hide AllDiagnostics, Claims, Conflicts, Unknowns;
    var s := SetOf(xs);
    DiagnosticsButCount(c, s, xs, ys, SortedPairs(Keys(s)));
    SortButCount(AllDiagnostics(c, s, xs, SortedPairs(Keys(s))), AllDiagnostics(c, s, ys, SortedPairs(Keys(s))));
  }

  // ---- Claims and statements correspond ----

  function Triple(x: Statement): (string, string, string) { (x.subject, x.predicat, x.object_) }

  function Triples(s: set<Statement>): set<(string, string, string)> { set x | x in s :: Triple(x) }

  function Stated(x: Claim): (string, string, string) { (x.subject, x.predicat, x.object_) }

  ghost predicate Answers(c: Compiler, s: set<Statement>, k: Key, x: Claim) {
    exists o :: o in Objects(s, k) && x == ClaimFor(c, s, k, o)
  }

  lemma {:induction false} InJoined<T>(a: seq<T>, b: seq<T>, x: T)
    ensures x in a + b <==> x in a || x in b
  {
  }

  lemma {:induction false} AllClaimsUnfolds(c: Compiler, s: set<Statement>, keys: seq<Key>)
    ensures AllClaims(c, s, keys) ==
      if keys == [] then []
      else AllClaims(c, s, keys[..|keys| - 1]) + ClaimsFor(c, s, keys[|keys| - 1], SortedIds(Objects(s, keys[|keys| - 1])))
  {
  }

  lemma {:induction false} AllClaimsMembers(c: Compiler, s: set<Statement>, keys: seq<Key>, x: Claim)
    ensures x in AllClaims(c, s, keys) <==> exists k :: k in keys && Answers(c, s, k, x)
  {
    hide AllClaims, ClaimFor, Answers, Objects, ClaimsFor;
    AllClaimsUnfolds(c, s, keys);
    if keys != [] {
      var n := |keys| - 1;
      var earlier, last := keys[..n], keys[n];
      AllClaimsMembers(c, s, earlier, x);
      MembersOfMore(c, s, last, x);
      InJoined(AllClaims(c, s, earlier), ClaimsFor(c, s, last, SortedIds(Objects(s, last))), x);
      forall k ensures k in keys <==> k in earlier || k == last {
        assert keys == earlier + [last];
        InJoined(earlier, [last], k);
      }
    }
  }

  lemma {:induction false} MembersOfMore(c: Compiler, s: set<Statement>, k: Key, x: Claim)
    ensures x in ClaimsFor(c, s, k, SortedIds(Objects(s, k))) <==> Answers(c, s, k, x)
  {
    hide ClaimFor, Objects;
    var objects := SortedIds(Objects(s, k));
    var more := ClaimsFor(c, s, k, objects);
    if o :| o in Objects(s, k) && x == ClaimFor(c, s, k, o) {
      var i :| 0 <= i < |objects| && objects[i] == o;
      assert more[i] == x;
    }
  }

  /** The claims are what the statements say, and nothing else. */
  lemma {:induction false} ClaimsMembers(c: Compiler, s: set<Statement>, x: Claim)
    ensures x in Claims(c, s) <==> exists y :: y in s && x == ClaimFor(c, s, Asked(y), y.object_)
  {
    hide ClaimFor;
    var all := AllClaims(c, s, SortedPairs(Keys(s)));
    AllClaimsMembers(c, s, SortedPairs(Keys(s)), x);
    assert x in SortBy(all, ClaimKey) <==> x in multiset(SortBy(all, ClaimKey));
    if k :| k in Keys(s) && Answers(c, s, k, x) {
      var o :| o in Objects(s, k) && x == ClaimFor(c, s, k, o);
      var y :| y in s && Asked(y) == k && y.object_ == o;
    }
    if y :| y in s && x == ClaimFor(c, s, Asked(y), y.object_) {
      assert Asked(y) in Keys(s) && y.object_ in Objects(s, Asked(y));
      assert Answers(c, s, Asked(y), x);
    }
  }

  ghost predicate DistinctClaims(xs: seq<Claim>) {
    forall i, j :: 0 <= i < j < |xs| ==> xs[i].claimId != xs[j].claimId
  }

  lemma {:induction false} AllClaimsDistinct(c: Compiler, s: set<Statement>, keys: seq<Key>)
    requires c.codec.Faithful()
    requires forall i, j :: 0 <= i < j < |keys| ==> keys[i] != keys[j]
    ensures DistinctClaims(AllClaims(c, s, keys))
  {
    hide *;
    AllClaimsUnfolds(c, s, keys);
    if keys != [] {
      var n := |keys| - 1;
      var earlier, more := AllClaims(c, s, keys[..n]), ClaimsFor(c, s, keys[n], SortedIds(Objects(s, keys[n])));
      AllClaimsDistinct(c, s, keys[..n]);
      QuestionDistinct(c, s, keys[n]);
      forall i, j | 0 <= i < |earlier| && 0 <= j < |more| ensures earlier[i].claimId != more[j].claimId {
        EarlierDiffers(c, s, keys[..n], keys[n], earlier[i], more[j]);
      }
      DistinctJoined(earlier, more);
    } else {
      DistinctJoined([], []);
    }
  }

  lemma {:induction false} DistinctJoined(a: seq<Claim>, b: seq<Claim>)
    requires (a == [] || DistinctClaims(a)) && (b == [] || DistinctClaims(b))
    requires forall i, j :: 0 <= i < |a| && 0 <= j < |b| ==> a[i].claimId != b[j].claimId
    ensures DistinctClaims(a + b) && DistinctClaims([])
  {
  }

  lemma {:induction false} QuestionDistinct(c: Compiler, s: set<Statement>, k: Key)
    requires c.codec.Faithful()
    ensures DistinctClaims(ClaimsFor(c, s, k, SortedIds(Objects(s, k))))
  {
    hide ClaimId, Refs, ClaimConfidence, WeakestAuthority, StatusOf, ConflictIdsFor, Objects, Saying;
    var objects := SortedIds(Objects(s, k));
    var more := ClaimsFor(c, s, k, objects);
    forall i, j | 0 <= i < j < |more| ensures more[i].claimId != more[j].claimId {
      assert Less(objects[i], objects[j]);
      ClaimIdDiffers(c.codec, more[i], more[j]);
    }
  }

  lemma {:induction false} EarlierDiffers(c: Compiler, s: set<Statement>, keys: seq<Key>, k: Key, x: Claim, y: Claim)
    requires c.codec.Faithful() && k !in keys && x in AllClaims(c, s, keys) && y in ClaimsFor(c, s, k, SortedIds(Objects(s, k)))
    ensures x.claimId != y.claimId
  {
    hide ClaimId, Refs, ClaimConfidence, WeakestAuthority, StatusOf, ConflictIdsFor, Objects, Saying, AllClaims;
    AllClaimsMembers(c, s, keys, x);
    var q :| q in keys && Answers(c, s, q, x);
    ClaimIdDiffers(c.codec, x, y);
  }

  lemma {:induction false} ClaimIdDiffers(codec: Codec, x: Claim, y: Claim)
    requires codec.Faithful() && x.claimId == ClaimId(codec, x.subject, x.predicat, x.object_)
    requires y.claimId == ClaimId(codec, y.subject, y.predicat, y.object_)
    ensures x.claimId == y.claimId <==> Stated(x) == Stated(y)
  {
    if x.claimId == y.claimId { ClaimIdIdentifies(codec, x.subject, x.predicat, x.object_, y.subject, y.predicat, y.object_); }
  }

  /** Claims have distinct identities in ascending order, and there is exactly one for every distinct
      subject, predicate and object. */
  lemma {:induction false} OneClaimPerTriple(c: Compiler, s: set<Statement>)
    requires c.codec.Faithful()
    ensures StrictlySortedBy(Claims(c, s), ClaimKey)
    ensures (set x | x in Claims(c, s) :: Stated(x)) == Triples(s) && |Claims(c, s)| == |Triples(s)|
  {
    hide AllClaims, ClaimId, Refs, StatusOf, ConflictIdsFor, ClaimConfidence;
    var all, claims := AllClaims(c, s, SortedPairs(Keys(s))), Claims(c, s);
    AllClaimsDistinct(c, s, SortedPairs(Keys(s)));
    SortByStrict(all, ClaimKey);
    forall t ensures t in Triples(s) <==> t in set x | x in claims :: Stated(x) {
      if y :| y in s && Triple(y) == t {
        ClaimsMembers(c, s, ClaimFor(c, s, Asked(y), y.object_));
      }
      if x :| x in claims && Stated(x) == t { ClaimsMembers(c, s, x); }
    }
    forall i, j | 0 <= i < j < |claims| ensures Stated(claims[i]) != Stated(claims[j]) {
      ClaimsMembers(c, s, claims[i]);
      ClaimsMembers(c, s, claims[j]);
      assert Less(ClaimKey(claims[i]), ClaimKey(claims[j]));
    }
    ImageSize(claims);
  }

  lemma {:induction false} ImageSize(claims: seq<Claim>)
    requires forall i, j :: 0 <= i < j < |claims| ==> Stated(claims[i]) != Stated(claims[j])
    ensures |set x | x in claims :: Stated(x)| == |claims|
  {
    if claims != [] {
      var n := |claims| - 1;
      ImageSize(claims[..n]);
      assert claims == claims[..n] + [claims[n]];
      var earlier := set x | x in claims[..n] :: Stated(x);
      assert Stated(claims[n]) !in earlier;
      assert (set x | x in claims :: Stated(x)) == earlier + {Stated(claims[n])};
    }
  }

  /** A claim names exactly the statements that say it. */
  lemma {:induction false} ClaimNamesItsStatements(c: Compiler, s: set<Statement>, x: Claim, id: string)
    requires x in Claims(c, s)
    ensures id in x.assertionIds <==> exists y :: y in s && Triple(y) == Stated(x) && y.inputId == id
    ensures x.assertionIds != []
  {
    hide Claims, Refs, ClaimConfidence, WeakestAuthority, StatusOf, ConflictIdsFor, ClaimId;
    ClaimsMembers(c, s, x);
    var y :| y in s && x == ClaimFor(c, s, Asked(y), y.object_);
    var ids := set z | z in Saying(s, Asked(y), y.object_) :: z.inputId;
    assert y.inputId in ids;
    if z :| z in s && Triple(z) == Stated(x) && z.inputId == id { assert z in Saying(s, Asked(y), y.object_); }
  }

  // ---- Conflicts ----

  lemma {:induction false} AllConflictsMembers(c: Compiler, s: set<Statement>, keys: seq<Key>, x: Conflict)
    ensures x in AllConflicts(c, s, keys) <==> exists k :: k in keys && x in ConflictsFor(c, s, k)
  {
    hide ConflictsFor;
    if keys != [] {
      var n := |keys| - 1;
      AllConflictsMembers(c, s, keys[..n], x);
      assert keys == keys[..n] + [keys[n]];
    }
  }

  lemma {:induction false} ConflictsMembers(c: Compiler, s: set<Statement>, x: Conflict)
    ensures x in Conflicts(c, s) <==> exists k :: k in Keys(s) && x in ConflictsFor(c, s, k)
  {
    hide ConflictsFor;
    var all := AllConflicts(c, s, SortedPairs(Keys(s)));
    AllConflictsMembers(c, s, SortedPairs(Keys(s)), x);
    assert x in SortBy(all, ConflictKey) <==> x in multiset(SortBy(all, ConflictKey));
  }

  lemma {:induction false} ClaimAnswersItsQuestion(c: Compiler, s: set<Statement>, x: Claim)
    requires x in Claims(c, s)
    ensures var k := (x.subject, x.predicat);
      && k in Keys(s) && x.object_ in Objects(s, k) && x == ClaimFor(c, s, k, x.object_)
      && x.conflictStatus == StatusOf(c, s, k) && x.conflictIds == ConflictIdsFor(c, s, k)
  {
    hide Claims, Refs, StatusOf, ConflictIdsFor, ClaimId, ClaimConfidence, Saying, WeakestAuthority;
    ClaimsMembers(c, s, x);
    var y :| y in s && x == ClaimFor(c, s, Asked(y), y.object_);
    assert Asked(y) == (x.subject, x.predicat);
  }

  /** A claim is confirmed-conflicted exactly when its predicate takes one value and the question was
      answered with two or more; it then names one conflict, which lists precisely those answers. */
  lemma {:induction false} ConfirmedExactlyWhenContested(c: Compiler, s: set<Statement>, x: Claim)
    requires x in Claims(c, s)
    ensures x.conflictStatus == Confirmed <==>
      c.registry.SupportOf(x.predicat) == SingleValued && |Objects(s, (x.subject, x.predicat))| >= 2
    ensures x.conflictIds == [] <==> x.conflictStatus != Confirmed
    ensures x.conflictStatus == Confirmed ==>
      exists v :: v in Conflicts(c, s) && x.conflictIds == [v.conflictId] && v.subject == x.subject && v.field == x.predicat
        && v.values == SortedIds(Objects(s, (x.subject, x.predicat)))
  {
    hide Claims, Conflicts, Refs, Objects, ConflictId, ClaimFor, Keys;
    ClaimAnswersItsQuestion(c, s, x);
    var k := (x.subject, x.predicat);
    if x.conflictStatus == Confirmed {
      var v := ConflictsFor(c, s, k)[0];
      ConflictsMembers(c, s, v);
    }
  }

  /** A reported conflict has at least two answers, each of them a claim that names it. */
  lemma {:induction false} ConflictHasItsClaims(c: Compiler, s: set<Statement>, v: Conflict, o: string)
    requires v in Conflicts(c, s)
    ensures |v.values| >= 2
    ensures o in v.values <==> exists x :: x in Claims(c, s) && x.subject == v.subject && x.predicat == v.field && x.object_ == o
    ensures forall x :: x in Claims(c, s) && x.subject == v.subject && x.predicat == v.field ==> x.conflictIds == [v.conflictId]
  {
    hide Claims, Conflicts, Refs, ConflictId, ClaimId, ClaimConfidence, Saying;
    ConflictsMembers(c, s, v);
    var k :| k in Keys(s) && v in ConflictsFor(c, s, k);
    assert k == (v.subject, v.field);
    forall x | x in Claims(c, s) && x.subject == v.subject && x.predicat == v.field
      ensures x.conflictIds == [v.conflictId] && x.object_ in v.values
    {
      ClaimsMembers(c, s, x);
    }
    if o in v.values {
      var y :| y in s && Asked(y) == k && y.object_ == o;
      ClaimsMembers(c, s, ClaimFor(c, s, k, o));
    }
  }

  // ---- More statements ----

  lemma {:induction false} MoreWeakens(r: Registry, s: set<Statement>, t: set<Statement>)
    requires s <= t && s != {}
    ensures LevelRank(WeakestLevel(r, t)) <= LevelRank(WeakestLevel(r, s))
    ensures AuthorityRank(WeakestAuthority(r, t)) <= AuthorityRank(WeakestAuthority(r, s))
  {
    hide WeakestLevel, WeakestAuthority;
    var x :| x in s;
    WeakestIsLeast(r, s, x);
    var y :| y in s && r.LevelOf(y) == WeakestLevel(r, s);
    var z :| z in s && r.AuthorityOf(z) == WeakestAuthority(r, s);
    WeakestIsLeast(r, t, y);
    WeakestIsLeast(r, t, z);
  }

  lemma {:induction false} MoreObjects(s: set<Statement>, t: set<Statement>, k: Key)
    requires s <= t
    ensures |Objects(s, k)| <= |Objects(t, k)|
  {
    SubsetSize(Objects(s, k), Objects(t, k));
  }

  lemma {:induction false} ClaimForWeakens(c: Compiler, s: set<Statement>, t: set<Statement>, k: Key, o: string)
    requires s <= t && Saying(s, k, o) != {}
    ensures NoStronger(ClaimFor(c, t, k, o), ClaimFor(c, s, k, o))
  {
    hide Refs, ClaimId, WeakestLevel, WeakestAuthority, DerivationAcross, ConflictIdsFor, Objects;
    var a, b := Saying(s, k, o), Saying(t, k, o);
    assert a <= b;
    MoreWeakens(c.registry, a, b);
    MoreObjects(s, t, k);
    var ids, more := set x | x in a :: x.inputId, set x | x in b :: x.inputId;
    assert ids <= more;
  }

  /** More statements never lose a claim, raise its level or authority, drop a statement it names, or
      settle a conflict. */
  lemma {:induction false} MoreNeverRaises(c: Compiler, s: set<Statement>, t: set<Statement>, x: Claim)
    requires s <= t && x in Claims(c, s)
    ensures exists y :: y in Claims(c, t) && y.claimId == x.claimId && Stated(y) == Stated(x) && NoStronger(y, x)
  {
    hide Claims, NoStronger, Refs, ClaimId, StatusOf, ConflictIdsFor, ClaimConfidence, WeakestAuthority;
    ClaimsMembers(c, s, x);
    var z :| z in s && x == ClaimFor(c, s, Asked(z), z.object_);
    var k, o := Asked(z), z.object_;
    assert z in Saying(s, k, o) && z in t;
    ClaimsMembers(c, t, ClaimFor(c, t, k, o));
    ClaimForWeakens(c, s, t, k, o);
  }

  ghost predicate NoStronger(y: Claim, x: Claim) {
    && LevelRank(y.confidence.level) <= LevelRank(x.confidence.level) && AuthorityRank(y.authority) <= AuthorityRank(x.authority)
    && (forall id :: id in x.assertionIds ==> id in y.assertionIds)
    && (x.conflictStatus == Confirmed ==> y.conflictStatus == Confirmed)
  }
}
