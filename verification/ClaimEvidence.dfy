/** What the reconciled records rest on, read off the statements and the evidence records themselves
    (stages/reconcile_assertions.py). */
module ClaimEvidence {
  import opened Wrappers
  import opened Ordering
  import opened CanonicalHash
  import opened Identities
  import opened Domain
  import opened Reconciliation

  // ---- The record of a statement ----

  /** A record of a statement stage that names the statement. */
  ghost predicate Carries(e: Evidence, y: Statement) {
    (e.stage == "ingest_assertions" || e.stage == "ingest_document_signals") && e.subject == y.subject && e.assertionId == Some(y.inputId)
  }

  ghost predicate IsLastOf(evidence: seq<Evidence>, y: Statement, i: nat) {
    i < |evidence| && Carries(evidence[i], y) && forall j :: i < j < |evidence| ==> !Carries(evidence[j], y)
  }

  /** The last record that names the statement is called `ref`. */
  ghost predicate RecordedAs(evidence: seq<Evidence>, y: Statement, ref: string) {
    exists i: nat :: IsLastOf(evidence, y, i) && evidence[i].evidenceId == ref
  }

  lemma {:induction false} LastOfMore(evidence: seq<Evidence>, y: Statement, ref: string)
    requires evidence != []
    ensures var n := |evidence| - 1;
      RecordedAs(evidence, y, ref) <==> if Carries(evidence[n], y) then evidence[n].evidenceId == ref else RecordedAs(evidence[..n], y, ref)
  {
    hide Carries;
    var n := |evidence| - 1;
    if Carries(evidence[n], y) {
      assert IsLastOf(evidence, y, n);
    } else {
      if i: nat :| IsLastOf(evidence[..n], y, i) && evidence[..n][i].evidenceId == ref { assert IsLastOf(evidence, y, i); }
      if i: nat :| IsLastOf(evidence, y, i) && evidence[i].evidenceId == ref { assert IsLastOf(evidence[..n], y, i); }
    }
  }

  lemma {:induction false} ResolutionMeans(evidence: seq<Evidence>, y: Statement, ref: string)
    ensures RecordedAs(evidence, y, ref) <==>
      (y.subject, y.inputId) in Resolution(evidence) && Resolution(evidence)[(y.subject, y.inputId)] == ref
  {
    hide RecordedAs;
    if evidence == [] {
      NoneRecorded(y, ref);
    } else {
      LastOfMore(evidence, y, ref);
      ResolutionMeans(evidence[..|evidence| - 1], y, ref);
    }
  }

  lemma {:induction false} NoneRecorded(y: Statement, ref: string)
    ensures !RecordedAs([], y, ref)
  {
  }

  lemma {:induction false} RefsMean(evidence: seq<Evidence>, s: set<Statement>, ref: string)
    ensures ref in Refs(Resolution(evidence), s) <==> exists y :: y in s && RecordedAs(evidence, y, ref)
  {
    hide RecordedAs, Resolution, Refs;
    var index := Resolution(evidence);
    RefsMembers(index, s, ref);
    forall y ensures RecordedAs(evidence, y, ref) <==> Finds(index, y, ref) { ResolutionMeans(evidence, y, ref); }
  }

  ghost predicate Finds(index: map<Key, string>, y: Statement, ref: string) {
    (y.subject, y.inputId) in index && index[(y.subject, y.inputId)] == ref
  }

  lemma {:induction false} RefsMembers(index: map<Key, string>, s: set<Statement>, ref: string)
    ensures ref in Refs(index, s) <==> exists y :: y in s && Finds(index, y, ref)
  {
    var found := set x | x in s && (x.subject, x.inputId) in index :: index[(x.subject, x.inputId)];
    if y :| y in s && Finds(index, y, ref) { assert index[(y.subject, y.inputId)] in found; }
  }

  // ---- What claims cite ----

  ghost predicate AnsweredWith(statements: seq<Statement>, k: Key, o: string) {
    exists y :: y in statements && Asked(y) == k && y.object_ == o
  }

  /** Some statement says this and is recorded as `ref`. */
  ghost predicate Backs(evidence: seq<Evidence>, statements: seq<Statement>, said: (string, string, string), ref: string) {
    exists y :: y in statements && Triple(y) == said && RecordedAs(evidence, y, ref)
  }

  /** Some statement answers the question and is recorded as `ref`. */
  ghost predicate Informs(evidence: seq<Evidence>, statements: seq<Statement>, k: Key, ref: string) {
    exists y :: y in statements && Asked(y) == k && RecordedAs(evidence, y, ref)
  }

  lemma {:induction false} ClaimRefs(c: Compiler, s: set<Statement>, k: Key, o: string)
    ensures var x := ClaimFor(c, s, k, o);
      && x.evidenceRefs == Refs(c.index, Saying(s, k, o))
      && (x.confidence.strength == Corroborated <==> |x.evidenceRefs| > 1)
  {
    hide Refs, Saying, StatusOf, ClaimId, ConflictIdsFor;
  }

  lemma {:induction false} TwoInOrder(refs: seq<string>)
    requires Ascending(refs)
    ensures |refs| > 1 <==> exists a, b :: a in refs && b in refs && a != b
  {
    if |refs| > 1 { assert refs[0] in refs && refs[1] in refs && refs[0] != refs[1]; }
  }

  /** A claim cites exactly the last records of the statements that say it, and counts as corroborated
      exactly when two of these are different. */
  lemma {:induction false} ClaimCitesItsStatements(
      codec: Codec, registry: Registry, evidence: seq<Evidence>, statements: seq<Statement>, x: Claim)
    requires x in Reconciled(CompilerOf(codec, registry, evidence), statements).claims
    ensures forall ref :: ref in x.evidenceRefs <==> Backs(evidence, statements, Stated(x), ref)
    ensures Ascending(x.evidenceRefs)
    ensures x.confidence.strength == Corroborated <==>
      exists a, b :: a != b && Backs(evidence, statements, Stated(x), a) && Backs(evidence, statements, Stated(x), b)
  {
    hide Claims, Conflicts, Unknowns, Diagnostics, ClaimFor, Resolution, Packets, RecordedAs, Refs, Backs;
    var c, s := CompilerOf(codec, registry, evidence), SetOf(statements);
    ClaimAnswersItsQuestion(c, s, x);
    var k := (x.subject, x.predicat);
    ClaimRefs(c, s, k, x.object_);
    RefsAscend(c.index, Saying(s, k, x.object_));
    TwoInOrder(x.evidenceRefs);
    forall ref ensures ref in x.evidenceRefs <==> Backs(evidence, statements, Stated(x), ref) {
      RefsMean(evidence, Saying(s, k, x.object_), ref);
      SayingBacks(evidence, statements, k, x.object_, ref);
    }
  }

  lemma {:induction false} RefsAscend(index: map<Key, string>, s: set<Statement>)
    ensures Ascending(Refs(index, s))
  {
  }

  lemma {:induction false} SayingBacks(evidence: seq<Evidence>, statements: seq<Statement>, k: Key, o: string, ref: string)
    ensures (exists y :: y in Saying(SetOf(statements), k, o) && RecordedAs(evidence, y, ref)) <==>
      Backs(evidence, statements, (k.0, k.1, o), ref)
  {
    hide RecordedAs;
    forall y ensures y in Saying(SetOf(statements), k, o) <==> y in statements && Triple(y) == (k.0, k.1, o) {
    }
  }

  lemma {:induction false} AboutInforms(evidence: seq<Evidence>, statements: seq<Statement>, k: Key, ref: string)
    ensures ref in Refs(Resolution(evidence), About(SetOf(statements), k)) <==> Informs(evidence, statements, k, ref)
  {
    hide RecordedAs, Refs, Resolution;
    RefsMean(evidence, About(SetOf(statements), k), ref);
    forall y ensures y in About(SetOf(statements), k) <==> y in statements && Asked(y) == k {
    }
  }

  /** A conflict cites exactly the last records of the statements about its question. */
  lemma {:induction false} ConflictCitesItsQuestion(
      codec: Codec, registry: Registry, evidence: seq<Evidence>, statements: seq<Statement>, v: Conflict, ref: string)
    requires v in Reconciled(CompilerOf(codec, registry, evidence), statements).conflicts
    ensures ref in v.evidenceRefs <==> Informs(evidence, statements, (v.subject, v.field), ref)
    ensures !v.blocking
  {
    hide Claims, Conflicts, Unknowns, Diagnostics, Resolution, Packets, Refs, Informs, StatusOf, About, ConflictId;
    var c, s := CompilerOf(codec, registry, evidence), SetOf(statements);
    ConflictsMembers(c, s, v);
    AboutInforms(evidence, statements, (v.subject, v.field), ref);
  }

  // ---- Unsupported predicates ----

  /** A question somebody answered, whose predicate no table declares. */
  ghost predicate LeftOpen(registry: Registry, statements: seq<Statement>, k: Key) {
    (exists y :: y in statements && Asked(y) == k) && k.1 !in registry.many && k.1 !in registry.single && k.1 !in registry.auxiliary
  }

  lemma {:induction false} LeftOpenMeans(registry: Registry, statements: seq<Statement>, k: Key)
    ensures LeftOpen(registry, statements, k) <==> k in Keys(SetOf(statements)) && registry.SupportOf(k.1) == Unsupported
  {
    forall y ensures y in SetOf(statements) <==> y in statements {
    }
  }

  lemma {:induction false} AllUnknownsMembers(c: Compiler, s: set<Statement>, keys: seq<Key>, x: Unknown)
    ensures x in AllUnknowns(c, s, keys) <==> exists k :: k in keys && x in UnknownsFor(c, s, k)
  {
    hide UnknownsFor;
    if keys != [] {
      var n := |keys| - 1;
      AllUnknownsMembers(c, s, keys[..n], x);
      assert keys == keys[..n] + [keys[n]];
    }
  }

  lemma {:induction false} UnknownsMembers(c: Compiler, s: set<Statement>, x: Unknown)
    ensures x in Unknowns(c, s) <==> exists k :: k in Keys(s) && x in UnknownsFor(c, s, k)
  {
    hide UnknownsFor;
    var all := AllUnknowns(c, s, SortedPairs(Keys(s)));
    AllUnknownsMembers(c, s, SortedPairs(Keys(s)), x);
    assert x in SortBy(all, UnknownKey) <==> x in multiset(SortBy(all, UnknownKey));
  }

  /** An unknown is reported for a question exactly when it was left open. */
  lemma {:induction false} UnknownExactlyWhenLeftOpen(
      codec: Codec, registry: Registry, evidence: seq<Evidence>, statements: seq<Statement>, k: Key)
    ensures LeftOpen(registry, statements, k) <==>
      exists u :: u in Reconciled(CompilerOf(codec, registry, evidence), statements).unknowns && u.subject == k.0 && u.field == Some(k.1)
  {
    hide Claims, Conflicts, Unknowns, Diagnostics, Resolution, Packets, Refs, About, UnknownId, Keys, LeftOpen, Registry.SupportOf;
    var c, s := CompilerOf(codec, registry, evidence), SetOf(statements);
    LeftOpenMeans(registry, statements, k);
    var unknowns := Unknowns(c, s);
    if k in Keys(s) && registry.SupportOf(k.1) == Unsupported {
      var u := UnknownsFor(c, s, k)[0];
      UnknownsMembers(c, s, u);
      assert u in unknowns && u.subject == k.0 && u.field == Some(k.1);
    }
    if u :| u in unknowns && u.subject == k.0 && u.field == Some(k.1) {
      UnknownsMembers(c, s, u);
      var q :| q in Keys(s) && u in UnknownsFor(c, s, q);
      assert q == k;
    }
  }

  /** An unknown names a question that was left open, and cites exactly the last records of its statements. */
  lemma {:induction false} UnknownCitesItsQuestion(
      codec: Codec, registry: Registry, evidence: seq<Evidence>, statements: seq<Statement>, u: Unknown, ref: string)
    requires u in Reconciled(CompilerOf(codec, registry, evidence), statements).unknowns
    ensures u.field.Some? && LeftOpen(registry, statements, (u.subject, u.field.value))
    ensures ref in u.evidenceRefs <==> Informs(evidence, statements, (u.subject, u.field.value), ref)
  {
    hide Claims, Conflicts, Unknowns, Diagnostics, Resolution, Packets, Refs, Informs, About, UnknownId, Keys, LeftOpen, Registry.SupportOf;
    var c, s := CompilerOf(codec, registry, evidence), SetOf(statements);
    UnknownsMembers(c, s, u);
    var k :| k in Keys(s) && u in UnknownsFor(c, s, k);
    LeftOpenMeans(registry, statements, k);
    AboutInforms(evidence, statements, k, ref);
  }

  // ---- Diagnostics ----

  /** What is reported about one question. */
  function DiagnosticsOf(c: Compiler, s: set<Statement>, statements: seq<Statement>, k: Key): seq<Diagnostic> {
    DiagnosticsFor(c, s, k, |Group(statements, k)|)
  }

  lemma {:induction false} AllDiagnosticsUnfolds(c: Compiler, s: set<Statement>, statements: seq<Statement>, keys: seq<Key>)
    ensures AllDiagnostics(c, s, statements, keys) ==
      if keys == [] then []
      else AllDiagnostics(c, s, statements, keys[..|keys| - 1]) + DiagnosticsOf(c, s, statements, keys[|keys| - 1])
  {
  }

  lemma {:induction false} AllDiagnosticsMembers(c: Compiler, s: set<Statement>, statements: seq<Statement>, keys: seq<Key>, x: Diagnostic)
    ensures x in AllDiagnostics(c, s, statements, keys) <==>
      exists k :: k in keys && x in DiagnosticsOf(c, s, statements, k)
  {
    hide DiagnosticsOf, AllDiagnostics;
    AllDiagnosticsUnfolds(c, s, statements, keys);
    if keys != [] {
      var n := |keys| - 1;
      AllDiagnosticsMembers(c, s, statements, keys[..n], x);
      assert keys == keys[..n] + [keys[n]];
    }
  }

  lemma {:induction false} DiagnosticsMembers(c: Compiler, statements: seq<Statement>, x: Diagnostic)
    ensures x in Diagnostics(c, statements) <==>
      exists k :: k in Keys(SetOf(statements)) && x in DiagnosticsOf(c, SetOf(statements), statements, k)
  {
    hide DiagnosticsOf, AllDiagnostics, Keys;
    var s := SetOf(statements);
    var all := AllDiagnostics(c, s, statements, SortedPairs(Keys(s)));
    AllDiagnosticsMembers(c, s, statements, SortedPairs(Keys(s)), x);
    assert x in SortBy(all, DiagnosticKey) <==> x in multiset(SortBy(all, DiagnosticKey));
  }

  /** The positions at which a question is answered. */
  ghost function Mentions(statements: seq<Statement>, k: Key): set<nat> {
    set i: nat | i < |statements| && Asked(statements[i]) == k
  }

  lemma {:induction false} GroupMentions(statements: seq<Statement>, k: Key)
    ensures |Group(statements, k)| == |Mentions(statements, k)|
  {
    if statements != [] {
      var n := |statements| - 1;
      GroupMentions(statements[..n], k);
      var before := Mentions(statements[..n], k);
      assert n !in before;
      assert Mentions(statements, k) == before + if Asked(statements[n]) == k then {n} else {};
    }
  }

  /** A diagnostic is reported for a question exactly when it was left open. */
  lemma {:induction false} DiagnosticExactlyWhenLeftOpen(
      codec: Codec, registry: Registry, evidence: seq<Evidence>, statements: seq<Statement>, k: Key)
    ensures LeftOpen(registry, statements, k) <==>
      exists d :: d in Reconciled(CompilerOf(codec, registry, evidence), statements).diagnostics && d.subject == k.0 && d.field == k.1
  {
    hide Claims, Conflicts, Unknowns, Diagnostics, Resolution, Packets, Refs, About, DiagnosticId, Keys, LeftOpen, Registry.SupportOf, Group,
         PacketIdFor, Objects;
    var c, s := CompilerOf(codec, registry, evidence), SetOf(statements);
    LeftOpenMeans(registry, statements, k);
    var diagnostics := Diagnostics(c, statements);
    if k in Keys(s) && registry.SupportOf(k.1) == Unsupported {
      var d := DiagnosticsOf(c, s, statements, k)[0];
      DiagnosticsMembers(c, statements, d);
      assert d in diagnostics && d.subject == k.0 && d.field == k.1;
    }
    if d :| d in diagnostics && d.subject == k.0 && d.field == k.1 {
      DiagnosticsMembers(c, statements, d);
      var q :| q in Keys(s) && d in DiagnosticsOf(c, s, statements, q);
      assert q == k;
    }
  }

  /** A diagnostic cites exactly the last records of the statements about its question, lists exactly their
      answers and counts every one of them. */
  lemma {:induction false} DiagnosticDescribesItsQuestion(
      codec: Codec, registry: Registry, evidence: seq<Evidence>, statements: seq<Statement>, d: Diagnostic)
    requires d in Reconciled(CompilerOf(codec, registry, evidence), statements).diagnostics
    ensures var k := (d.subject, d.field);
      && (forall ref :: ref in d.evidenceRefs <==> Informs(evidence, statements, k, ref)) && Ascending(d.evidenceRefs)
      && (forall o :: o in d.objects <==> AnsweredWith(statements, k, o))
      && d.count == |Mentions(statements, k)|
    ensures d.packetId == PacketIdFor(Packets(evidence), d.evidenceRefs)
  {
    hide Claims, Conflicts, Unknowns, Diagnostics, Resolution, Packets, Refs, About, DiagnosticId, Keys, Registry.SupportOf, Group,
         PacketIdFor, Informs, Mentions, Objects, AnsweredWith;
    var c, s := CompilerOf(codec, registry, evidence), SetOf(statements);
    DiagnosticsMembers(c, statements, d);
    var k := (d.subject, d.field);
    RefsAscend(c.index, About(s, k));
    GroupMentions(statements, k);
    forall ref ensures ref in d.evidenceRefs <==> Informs(evidence, statements, k, ref) {
      AboutInforms(evidence, statements, k, ref);
    }
    forall o ensures o in d.objects <==> AnsweredWith(statements, k, o) {
      ObjectsMean(statements, k, o);
    }
  }

  lemma {:induction false} ObjectsMean(statements: seq<Statement>, k: Key, o: string)
    ensures o in Objects(SetOf(statements), k) <==> AnsweredWith(statements, k, o)
  {
    if AnsweredWith(statements, k, o) {
      var y :| y in statements && Asked(y) == k && y.object_ == o;
      assert y in SetOf(statements);
    }
  }

  // ---- The packet a diagnostic names ----

  ghost predicate IsLastCalled(evidence: seq<Evidence>, ref: string, i: nat) {
    i < |evidence| && evidence[i].evidenceId == ref && forall j :: i < j < |evidence| ==> evidence[j].evidenceId != ref
  }

  /** The last record called `ref` came from this packet. */
  ghost predicate CameFrom(evidence: seq<Evidence>, ref: string, packetId: string) {
    exists i: nat :: IsLastCalled(evidence, ref, i) && evidence[i].packetId == packetId
  }

  lemma {:induction false} PacketsMean(evidence: seq<Evidence>, ref: string, packetId: string)
    ensures CameFrom(evidence, ref, packetId) <==> ref in Packets(evidence) && Packets(evidence)[ref] == packetId
  {
    if evidence != [] {
      hide Packets;
      var n := |evidence| - 1;
      PacketsMean(evidence[..n], ref, packetId);
      PacketsUnfolds(evidence);
      if evidence[n].evidenceId == ref {
        assert IsLastCalled(evidence, ref, n);
      } else {
        if i: nat :| IsLastCalled(evidence[..n], ref, i) && evidence[..n][i].packetId == packetId { assert IsLastCalled(evidence, ref, i); }
        if i: nat :| IsLastCalled(evidence, ref, i) && evidence[i].packetId == packetId { assert IsLastCalled(evidence[..n], ref, i); }
      }
    }
  }

  lemma {:induction false} PacketsUnfolds(evidence: seq<Evidence>)
    requires evidence != []
    ensures var last := evidence[|evidence| - 1]; Packets(evidence) == Packets(evidence[..|evidence| - 1])[last.evidenceId := last.packetId]
  {
  }

  /** Which packet stands for some records: that of the first which came from any, if one did. */
  ghost predicate StandsFor(evidence: seq<Evidence>, refs: seq<string>, packetId: string) {
    if forall i, p :: 0 <= i < |refs| && p != "" ==> !CameFrom(evidence, refs[i], p) then packetId == "packet:unresolved"
    else exists i :: 0 <= i < |refs| && packetId != "" && CameFrom(evidence, refs[i], packetId)
           && forall j, p :: 0 <= j < i && p != "" ==> !CameFrom(evidence, refs[j], p)
  }

  lemma {:induction false} StandsForFirst(evidence: seq<Evidence>, refs: seq<string>)
    ensures StandsFor(evidence, refs, PacketIdFor(Packets(evidence), refs))
  {
    hide CameFrom, Packets;
    var id := PacketIdFor(Packets(evidence), refs);
    if refs != [] {
      forall p ensures CameFrom(evidence, refs[0], p) <==> refs[0] in Packets(evidence) && Packets(evidence)[refs[0]] == p {
        PacketsMean(evidence, refs[0], p);
      }
      if refs[0] in Packets(evidence) && Packets(evidence)[refs[0]] != "" {
        assert CameFrom(evidence, refs[0], id);
      } else {
        StandsForFirst(evidence, refs[1..]);
        SkipFirst(evidence, refs, id);
      }
    }
  }

  lemma {:induction false} SkipFirst(evidence: seq<Evidence>, refs: seq<string>, id: string)
    requires refs != [] && (forall p :: p != "" ==> !CameFrom(evidence, refs[0], p)) && StandsFor(evidence, refs[1..], id)
    ensures StandsFor(evidence, refs, id)
  {
    hide CameFrom;
    var rest := refs[1..];
    assert forall i :: 0 <= i < |rest| ==> rest[i] == refs[i + 1];
    if forall i, p :: 0 <= i < |rest| && p != "" ==> !CameFrom(evidence, rest[i], p) {
      forall i, p | 0 <= i < |refs| && p != "" ensures !CameFrom(evidence, refs[i], p) {
        if i > 0 { assert refs[i] == rest[i - 1]; }
      }
    } else {
      var i :| 0 <= i < |rest| && id != "" && CameFrom(evidence, rest[i], id)
        && forall j, p :: 0 <= j < i && p != "" ==> !CameFrom(evidence, rest[j], p);
      assert CameFrom(evidence, refs[i + 1], id);
      forall j, p | 0 <= j < i + 1 && p != "" ensures !CameFrom(evidence, refs[j], p) {
        if j > 0 { assert refs[j] == rest[j - 1]; }
      }
    }
  }

  /** A diagnostic names the packet of the first record it cites that came from one. */
  lemma {:induction false} DiagnosticNamesItsPacket(
      codec: Codec, registry: Registry, evidence: seq<Evidence>, statements: seq<Statement>, d: Diagnostic)
    requires d in Reconciled(CompilerOf(codec, registry, evidence), statements).diagnostics
    ensures StandsFor(evidence, d.evidenceRefs, d.packetId)
  {
    hide StandsFor, Reconciled, PacketIdFor, Packets;
    DiagnosticDescribesItsQuestion(codec, registry, evidence, statements, d);
    StandsForFirst(evidence, d.evidenceRefs);
  }

  // ---- The confidence of a claim ----

  /** Every statement that says this gives itself at least this level. */
  ghost predicate AllReach(registry: Registry, statements: seq<Statement>, said: (string, string, string), rank: nat) {
    forall y :: y in statements && Triple(y) == said ==> y.confidence in registry.levels && LevelRank(registry.levels[y.confidence]) >= rank
  }

  /** Every statement that says this has at least this authority. */
  ghost predicate AllHave(registry: Registry, statements: seq<Statement>, said: (string, string, string), rank: nat) {
    forall y :: y in statements && Triple(y) == said ==>
      y.authority in registry.authorities && AuthorityRank(registry.authorities[y.authority]) >= rank
  }

  ghost predicate AllDeclared(statements: seq<Statement>, said: (string, string, string)) {
    forall y :: y in statements && Triple(y) == said ==> y.evidenceClass == "declared"
  }

  ghost predicate NoneDeclared(statements: seq<Statement>, said: (string, string, string)) {
    forall y :: y in statements && Triple(y) == said ==> y.evidenceClass != "declared"
  }

  /** Two statements answer the question differently. */
  ghost predicate Contested(statements: seq<Statement>, k: Key) {
    exists a, b :: a != b && AnsweredWith(statements, k, a) && AnsweredWith(statements, k, b)
  }

  lemma {:induction false} ContestedMeans(statements: seq<Statement>, k: Key)
    ensures Contested(statements, k) <==> |Objects(SetOf(statements), k)| > 1
  {
    hide Objects, AnsweredWith;
    var objects := SortedIds(Objects(SetOf(statements), k));
    TwoInOrder(objects);
    forall o ensures o in objects <==> AnsweredWith(statements, k, o) {
      ObjectsMean(statements, k, o);
    }
  }

  lemma {:induction false} SayingMeans(statements: seq<Statement>, k: Key, o: string, y: Statement)
    ensures y in Saying(SetOf(statements), k, o) <==> y in statements && Triple(y) == (k.0, k.1, o)
  {
  }

  /** A claim is given the least level and authority of the statements that say it. */
  lemma {:induction false} ClaimIsItsWeakest(
      codec: Codec, registry: Registry, evidence: seq<Evidence>, statements: seq<Statement>, x: Claim, rank: nat)
    requires x in Reconciled(CompilerOf(codec, registry, evidence), statements).claims && rank > 0
    ensures LevelRank(x.confidence.level) >= rank <==> AllReach(registry, statements, Stated(x), rank)
    ensures AuthorityRank(x.authority) >= rank <==> AllHave(registry, statements, Stated(x), rank)
    ensures x.confidence.authority == x.authority
  {
    hide Claims, Conflicts, Unknowns, Diagnostics, ClaimFor, Resolution, Packets, WeakestLevel, WeakestAuthority, Saying;
    var c, s := CompilerOf(codec, registry, evidence), SetOf(statements);
    ClaimAnswersItsQuestion(c, s, x);
    var supporting := Saying(s, (x.subject, x.predicat), x.object_);
    ClaimGrade(c, s, (x.subject, x.predicat), x.object_);
    SomeSay(s, (x.subject, x.predicat), x.object_);
    forall y ensures y in supporting <==> y in statements && Triple(y) == Stated(x) {
      SayingMeans(statements, (x.subject, x.predicat), x.object_, y);
    }
    forall y | y in supporting
      ensures LevelRank(x.confidence.level) <= LevelRank(registry.LevelOf(y)) && AuthorityRank(x.authority) <= AuthorityRank(registry.AuthorityOf(y))
    {
      WeakestIsLeast(registry, supporting, y);
    }
    var y :| y in supporting;
    WeakestIsLeast(registry, supporting, y);
  }

  lemma {:induction false} SomeSay(s: set<Statement>, k: Key, o: string)
    requires o in Objects(s, k)
    ensures Saying(s, k, o) != {}
  {
    var y :| y in s && Asked(y) == k && y.object_ == o;
    assert y in Saying(s, k, o);
  }

  lemma {:induction false} ClaimGrade(c: Compiler, s: set<Statement>, k: Key, o: string)
    ensures var x, t := ClaimFor(c, s, k, o), Saying(s, k, o);
      && x.confidence.level == WeakestLevel(c.registry, t) && x.authority == x.confidence.authority == WeakestAuthority(c.registry, t)
      && x.confidence.derivation == DerivationAcross(c.registry, t) && x.confidence.conflictStatus == x.conflictStatus == StatusOf(c, s, k)
      && (x.confidence.completeness == Sufficient <==> x.conflictStatus == NoConflict)
      && (x.confidence.completeness == Partial <==> x.conflictStatus != NoConflict)
      && x.support == c.registry.SupportOf(k.1) && x.cardinality == c.registry.CardinalityOf(k.1)
  {
    hide Refs, Saying, StatusOf, ClaimId, ConflictIdsFor, WeakestLevel, WeakestAuthority, DerivationAcross;
  }

  /** A claim is declared when all its statements are, deterministic when none is, and put together from both
      otherwise. */
  lemma {:induction false} ClaimDerivesAsItsStatements(
      codec: Codec, registry: Registry, evidence: seq<Evidence>, statements: seq<Statement>, x: Claim)
    requires x in Reconciled(CompilerOf(codec, registry, evidence), statements).claims
    ensures x.confidence.derivation == Declared <==> AllDeclared(statements, Stated(x))
    ensures x.confidence.derivation == Deterministic <==> NoneDeclared(statements, Stated(x))
    ensures x.confidence.derivation in {Declared, Deterministic, CrossRecord}
  {
    hide Claims, Conflicts, Unknowns, Diagnostics, ClaimFor, Resolution, Packets, Saying, DerivationAcross;
    var c, s := CompilerOf(codec, registry, evidence), SetOf(statements);
    ClaimAnswersItsQuestion(c, s, x);
    var supporting := Saying(s, (x.subject, x.predicat), x.object_);
    ClaimGrade(c, s, (x.subject, x.predicat), x.object_);
    SomeSay(s, (x.subject, x.predicat), x.object_);
    forall y ensures y in supporting <==> y in statements && Triple(y) == Stated(x) {
      SayingMeans(statements, (x.subject, x.predicat), x.object_, y);
    }
    DerivationMeans(registry, supporting);
  }

  lemma {:induction false} DerivationMeans(registry: Registry, s: set<Statement>)
    requires s != {}
    ensures DerivationAcross(registry, s) == Declared <==> forall y :: y in s ==> y.evidenceClass == "declared"
    ensures DerivationAcross(registry, s) == Deterministic <==> forall y :: y in s ==> y.evidenceClass != "declared"
    ensures DerivationAcross(registry, s) in {Declared, Deterministic, CrossRecord}
  {
    var methods := set y | y in s :: registry.DerivationOf(y);
    var z :| z in s;
    assert registry.DerivationOf(z) in methods;
    forall y | y in s ensures registry.DerivationOf(y) in methods && registry.DerivationOf(y) in {Declared, Deterministic} {
    }
    if methods == {Declared} { assert registry.DerivationOf(z) == Declared; }
    if forall y :: y in s ==> y.evidenceClass == "declared" { assert methods == {Declared}; }
    if forall y :: y in s ==> y.evidenceClass != "declared" { assert methods == {Deterministic}; }
  }

  /** How a claim stands to the other answers follows from the tables: a contested question is a confirmed
      conflict when one value is allowed, a possible one when no table declares the predicate, and none
      otherwise; anything but none leaves the claim partial. */
  lemma {:induction false} ClaimStandsAsTheTablesSay(
      codec: Codec, registry: Registry, evidence: seq<Evidence>, statements: seq<Statement>, x: Claim)
    requires x in Reconciled(CompilerOf(codec, registry, evidence), statements).claims
    ensures var p := x.predicat;
      && (x.support == SetValued <==> p in registry.many)
      && (x.support == SingleValued <==> p !in registry.many && p in registry.single)
      && (x.support == Unsupported <==> p !in registry.many && p !in registry.single && p !in registry.auxiliary)
      && (x.cardinality == One <==> x.support == SingleValued) && (x.cardinality == Unstated <==> x.support == Unsupported)
      && (x.conflictStatus == Confirmed <==> Contested(statements, (x.subject, p)) && x.support == SingleValued)
      && (x.conflictStatus == Possible <==> Contested(statements, (x.subject, p)) && x.support == Unsupported)
    ensures x.confidence.conflictStatus == x.conflictStatus
    ensures x.confidence.completeness == if x.conflictStatus == NoConflict then Sufficient else Partial
  {
    hide Claims, Conflicts, Unknowns, Diagnostics, ClaimFor, Resolution, Packets, Saying, DerivationAcross, Contested, WeakestLevel,
         WeakestAuthority, Objects;
    var c, s := CompilerOf(codec, registry, evidence), SetOf(statements);
    ClaimAnswersItsQuestion(c, s, x);
    ClaimGrade(c, s, (x.subject, x.predicat), x.object_);
    ContestedMeans(statements, (x.subject, x.predicat));
  }

  // ---- Identities ----

  /** Two reported conflicts, unknowns or diagnostics with one identity are the same record. */
  lemma {:induction false} ConflictsToldApart(
      codec: Codec, registry: Registry, evidence: seq<Evidence>, statements: seq<Statement>, v: Conflict, w: Conflict)
    requires codec.Faithful()
    requires var r := Reconciled(CompilerOf(codec, registry, evidence), statements); v in r.conflicts && w in r.conflicts
    ensures v.conflictId == w.conflictId <==> v == w
  {
    hide Claims, Conflicts, Unknowns, Diagnostics, Resolution, Packets, Refs, StatusOf, About, ConflictId;
    var c, s := CompilerOf(codec, registry, evidence), SetOf(statements);
    ConflictsMembers(c, s, v);
    ConflictsMembers(c, s, w);
    if v.conflictId == w.conflictId { ConflictIdIdentifies(codec, v.subject, v.field, v.values, w.subject, w.field, w.values); }
  }

  lemma {:induction false} UnknownsToldApart(
      codec: Codec, registry: Registry, evidence: seq<Evidence>, statements: seq<Statement>, u: Unknown, w: Unknown)
    requires codec.Faithful()
    requires var r := Reconciled(CompilerOf(codec, registry, evidence), statements); u in r.unknowns && w in r.unknowns
    ensures u.unknownId == w.unknownId <==> u == w
  {
    hide Claims, Conflicts, Unknowns, Diagnostics, Resolution, Packets, Refs, About, IdOf, Objects;
    var c, s := CompilerOf(codec, registry, evidence), SetOf(statements);
    UnknownsMembers(c, s, u);
    UnknownsMembers(c, s, w);
    var k :| k in Keys(s) && u in UnknownsFor(c, s, k);
    var q :| q in Keys(s) && w in UnknownsFor(c, s, q);
    if u.unknownId == w.unknownId {
      ReconciledKeysAreGood();
      var a, b := [Text(k.0), Text(k.1), Texts(SortedIds(Objects(s, k)))], [Text(q.0), Text(q.1), Texts(SortedIds(Objects(s, q)))];
      IdTellsApart(codec, "unknown", GROUP_KEYS, a, b);
      assert a[0] == b[0] && a[1] == b[1];
    }
  }

  lemma {:induction false} DiagnosticsToldApart(
      codec: Codec, registry: Registry, evidence: seq<Evidence>, statements: seq<Statement>, d: Diagnostic, e: Diagnostic)
    requires codec.Faithful()
    requires var r := Reconciled(CompilerOf(codec, registry, evidence), statements); d in r.diagnostics && e in r.diagnostics
    ensures d.diagnosticId == e.diagnosticId <==> d == e
  {
    hide Claims, Conflicts, Unknowns, Diagnostics, Resolution, Packets, Refs, About, IdOf, Objects, Group, PacketIdFor;
    var c, s := CompilerOf(codec, registry, evidence), SetOf(statements);
    DiagnosticsMembers(c, statements, d);
    DiagnosticsMembers(c, statements, e);
    var k :| k in Keys(s) && d in DiagnosticsOf(c, s, statements, k);
    var q :| q in Keys(s) && e in DiagnosticsOf(c, s, statements, q);
    if d.diagnosticId == e.diagnosticId {
      ReconciledKeysAreGood();
      var stage, code := Text("reconcile_assertions"), Text("assertion-predicate-unsupported");
      var a, b := [stage, code, Text(k.0), Text(k.1)], [stage, code, Text(q.0), Text(q.1)];
      IdTellsApart(codec, "diagnostic", DIAGNOSTIC_KEYS, a, b);
      assert a[2] == b[2] && a[3] == b[3];
    }
  }
}
