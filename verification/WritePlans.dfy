/** Write intents, plans and receipts (io/write_plan.py, io/write_intent.py, io/write_policy.py), and
    the decision both sinks make for each intent (io/filesystem_output_sink.py, io/memory_output_sink.py).

A destination is its list of path components below the output root. */
module WritePlans {
  import opened Wrappers

  type Path = seq<string>
  type HashFn = string -> string

  datatype Artifact = Artifact(logicalId: string, destination: Path, kind: string, content: string)

  datatype Intent = Intent(artifact: Artifact, expected: Option<string>, required: bool)

  datatype Policy = Policy(
    dryRun: bool, allowedRoots: seq<Path>, allowedKinds: set<string>, allowOverwrite: bool, requireExpected: bool,
    rejectCollisions: bool, atomicWrites: bool, maximumCount: nat, maximumBytes: nat)

  datatype Action = Create | Replace | Skip

  datatype Reason = Unchanged | Missing | NotRegular | OverwriteProhibited | ExpectedRequired | ExpectedMismatch | Authorized

  datatype Issue =
    | TooMany | TooLarge | KindNotAllowed(kind: string) | OutsideRoots(at: Path) | Collision(at: Path)
    | DestinationNotRegular(at: Path) | RequiredExists(at: Path) | ExpectedHashRequired(at: Path) | HashMismatch(at: Path)

  datatype Entry = Entry(intent: Intent, action: Action, existing: Option<string>, reason: Reason) {
    function Destination(): Path { intent.artifact.destination }
    function Content(): string { intent.artifact.content }
  }

  datatype WritePlan = WritePlan(entries: seq<Entry>, totalBytes: nat, issues: set<Issue>) {
    predicate Ready() { issues == {} }
  }

  /** What a sink sees at a destination. */
  datatype Seen = Absent | Regular(content: string) | Other

  datatype StaleReason = NoLongerRegular | TargetChanged | AlreadyCreated | ExpectedNoLonger | Disappeared

  datatype Message = DryRun(planned: Action) | Planned(why: Reason) | Stale(stale: StaleReason) | SystemError | Performed(done: Action)
    | AlreadyExists | BundleCommitted

  datatype Status = Written | Skipped | Failed

  datatype CommitResult = CommitResult(logicalId: string, destination: Path, status: Status, message: Message)

  datatype ReceiptStatus = Passed | CommitFailed | Blocked

  datatype Receipt = Receipt(status: ReceiptStatus, results: seq<CommitResult>)

  // ---- Planning ----

  function HashOf(hash: HashFn, seen: Seen): Option<string> {
    if seen.Regular? then Some(hash(seen.content)) else None
  }

  /** The action one intent gets from what is at its destination. */
  function Decide(policy: Policy, hash: HashFn, intent: Intent, seen: Seen): Entry {
    var existing := HashOf(hash, seen);
    if existing == Some(hash(intent.artifact.content)) then Entry(intent, Skip, existing, Unchanged)
    else if seen == Absent then Entry(intent, Create, existing, Missing)
    else if seen == Other then Entry(intent, Skip, existing, NotRegular)
    else if !policy.allowOverwrite then Entry(intent, Skip, existing, OverwriteProhibited)
    else if policy.requireExpected && intent.expected == None then Entry(intent, Skip, existing, ExpectedRequired)
    else if intent.expected != None && intent.expected != existing then Entry(intent, Skip, existing, ExpectedMismatch)
    else Entry(intent, Replace, existing, Authorized)
  }

  /** What a refused required intent is reported as. */
  function RefusalIssues(entry: Entry): set<Issue> {
    if !entry.intent.required then {}
    else
      match entry.reason
      case NotRegular => {DestinationNotRegular(entry.Destination())}
      case OverwriteProhibited => {RequiredExists(entry.Destination())}
      case ExpectedRequired => {ExpectedHashRequired(entry.Destination())}
      case ExpectedMismatch => {HashMismatch(entry.Destination())}
      case _ => {}
  }

  predicate Allowed(policy: Policy, destination: Path) {
    exists i :: 0 <= i < |policy.allowedRoots| && policy.allowedRoots[i] <= destination
  }

  function TotalBytes(intents: seq<Intent>): nat {
    if intents == [] then 0 else |intents[0].artifact.content| + TotalBytes(intents[1..])
  }

  function Limits(policy: Policy, intents: seq<Intent>): set<Issue> {
    (if |intents| > policy.maximumCount then {TooMany} else {})
    + (if TotalBytes(intents) > policy.maximumBytes then {TooLarge} else {})
  }

  /** What one planned intent adds to the issues, given the destinations planned before it. */
  function IssuesOf(policy: Policy, earlier: set<Path>, entry: Entry): set<Issue> {
    var artifact := entry.intent.artifact;
    (if artifact.kind !in policy.allowedKinds then {KindNotAllowed(artifact.kind)} else {})
    + (if !Allowed(policy, artifact.destination) then {OutsideRoots(artifact.destination)} else {})
    + (if artifact.destination in earlier && policy.rejectCollisions then {Collision(artifact.destination)} else {})
    + RefusalIssues(entry)
  }

  function IssuesAt(policy: Policy, hash: HashFn, intents: seq<Intent>, seen: seq<Seen>, i: nat): set<Issue>
    requires |intents| == |seen| && i < |intents|
  {
    IssuesOf(policy, DestinationsBefore(intents, i), Decide(policy, hash, intents[i], seen[i]))
  }

  function DestinationsBefore(intents: seq<Intent>, i: nat): set<Path>
    requires i <= |intents|
  {
    if i == 0 then {} else DestinationsBefore(intents, i - 1) + {intents[i - 1].artifact.destination}
  }

  lemma {:induction false} DestinationsCollected(intents: seq<Intent>, i: nat, j: nat)
    requires j < i <= |intents|
    ensures intents[j].artifact.destination in DestinationsBefore(intents, i)
  {
    if j < i - 1 { DestinationsCollected(intents, i - 1, j); }
  }

  /** What is reported once the first `n` intents are planned. */
  function IssuesUpTo(policy: Policy, hash: HashFn, intents: seq<Intent>, seen: seq<Seen>, n: nat): set<Issue>
    requires |intents| == |seen| && n <= |intents|
  {
    if n == 0 then Limits(policy, intents)
    else IssuesUpTo(policy, hash, intents, seen, n - 1) + IssuesAt(policy, hash, intents, seen, n - 1)
  }

  /** The plan made from what was seen at each destination. */
  ghost predicate IsPlan(plan: WritePlan, policy: Policy, hash: HashFn, intents: seq<Intent>, seen: seq<Seen>) {
    && |plan.entries| == |intents| == |seen|
    && (forall i :: 0 <= i < |intents| ==> plan.entries[i] == Decide(policy, hash, intents[i], seen[i]))
    && plan.totalBytes == TotalBytes(intents)
    && plan.issues == IssuesUpTo(policy, hash, intents, seen, |intents|)
  }

  /** An issue is reported exactly when a limit or some intent raises it. */
  lemma {:induction false} IssuesCollected(policy: Policy, hash: HashFn, intents: seq<Intent>, seen: seq<Seen>, n: nat, x: Issue)
    requires |intents| == |seen| && n <= |intents|
    ensures x in IssuesUpTo(policy, hash, intents, seen, n) <==>
      x in Limits(policy, intents) || exists i :: 0 <= i < n && x in IssuesAt(policy, hash, intents, seen, i)
  {
    hide Limits, IssuesAt;
    if n > 0 { IssuesCollected(policy, hash, intents, seen, n - 1, x); }
  }

  /** `make_commit_receipt`. */
  function MakeReceipt(plan: WritePlan, results: seq<CommitResult>): Receipt {
    if !plan.Ready() then Receipt(Blocked, results)
    else if exists i :: 0 <= i < |results| && results[i].status == Failed then Receipt(CommitFailed, results)
    else Receipt(Passed, results)
  }

  function Outcome(entry: Entry, status: Status, message: Message): CommitResult {
    CommitResult(entry.intent.artifact.logicalId, entry.Destination(), status, message)
  }

  /** Why a planned action must not be performed on what is at the target now. */
  function StaleReasonOf(hash: HashFn, entry: Entry, seen: Seen): Option<StaleReason> {
    var current := HashOf(hash, seen);
    if seen == Other then Some(NoLongerRegular)
    else if current != entry.existing then Some(TargetChanged)
    else if entry.action == Create && current != None then Some(AlreadyCreated)
    else if entry.action == Replace && entry.intent.expected != None && entry.intent.expected != current then Some(ExpectedNoLonger)
    else if entry.action == Replace && current == None then Some(Disappeared)
    else None
  }

  // ---- What a plan guarantees ----

  /** A file of another content may be replaced: overwriting is allowed, and the hash it is expected to have,
      if one is given or must be, is the one it has. */
  predicate MayReplace(policy: Policy, hash: HashFn, intent: Intent, content: string) {
    policy.allowOverwrite && (intent.expected == Some(hash(content)) || (intent.expected == None && !policy.requireExpected))
  }

  /** The action an entry of any plan has, from what was seen at its destination. */
  lemma {:induction false} ActionsExactly(plan: WritePlan, policy: Policy, hash: HashFn, intents: seq<Intent>, seen: seq<Seen>, i: nat)
    requires IsPlan(plan, policy, hash, intents, seen) && i < |intents|
    ensures var e, x := plan.entries[i], intents[i];
      && e.intent == x && e.existing == HashOf(hash, seen[i])
      && (e.action == Create <==> seen[i] == Absent)
      && (e.action == Replace <==>
            seen[i].Regular? && hash(seen[i].content) != hash(x.artifact.content) && MayReplace(policy, hash, x, seen[i].content))
      && (e.reason == Unchanged <==> seen[i].Regular? && hash(seen[i].content) == hash(x.artifact.content))
  {
    hide TotalBytes, IssuesUpTo;
  }

  lemma {:induction false} BeforeExactly(intents: seq<Intent>, i: nat, d: Path)
    requires i <= |intents|
    ensures d in DestinationsBefore(intents, i) <==> exists j :: 0 <= j < i && intents[j].artifact.destination == d
  {
    if i > 0 { BeforeExactly(intents, i - 1, d); }
  }

  ghost predicate BelowARoot(roots: seq<Path>, d: Path) { exists k :: 0 <= k < |roots| && roots[k] <= d }

  /** A required file of another content is seen, which may not be overwritten for this reason. */
  predicate RefusedFor(policy: Policy, hash: HashFn, intent: Intent, seen: Seen, x: Issue) {
    match x
    case DestinationNotRegular(_) => seen == Other
    case RequiredExists(_) => seen.Regular? && hash(seen.content) != hash(intent.artifact.content) && !policy.allowOverwrite
    case ExpectedHashRequired(_) =>
      seen.Regular? && hash(seen.content) != hash(intent.artifact.content) && policy.allowOverwrite && policy.requireExpected
      && intent.expected == None
    case HashMismatch(_) =>
      seen.Regular? && hash(seen.content) != hash(intent.artifact.content) && policy.allowOverwrite && intent.expected != None
      && intent.expected != Some(hash(seen.content))
    case _ => false
  }

  /** The `i`th intent raises the issue. */
  ghost predicate RaisedBy(policy: Policy, hash: HashFn, intents: seq<Intent>, seen: seq<Seen>, i: nat, x: Issue)
    requires i < |intents| == |seen|
  {
    var a := intents[i].artifact;
    match x
    case TooMany => false
    case TooLarge => false
    case KindNotAllowed(kind) => a.kind == kind && kind !in policy.allowedKinds
    case OutsideRoots(at) => a.destination == at && !BelowARoot(policy.allowedRoots, at)
    case Collision(at) => policy.rejectCollisions && a.destination == at && exists j :: 0 <= j < i && intents[j].artifact.destination == at
    case DestinationNotRegular(at) => intents[i].required && a.destination == at && RefusedFor(policy, hash, intents[i], seen[i], x)
    case RequiredExists(at) => intents[i].required && a.destination == at && RefusedFor(policy, hash, intents[i], seen[i], x)
    case ExpectedHashRequired(at) => intents[i].required && a.destination == at && RefusedFor(policy, hash, intents[i], seen[i], x)
    case HashMismatch(at) => intents[i].required && a.destination == at && RefusedFor(policy, hash, intents[i], seen[i], x)
  }

  lemma {:induction false} IssueAtMeans(policy: Policy, hash: HashFn, intents: seq<Intent>, seen: seq<Seen>, i: nat, x: Issue)
    requires i < |intents| == |seen|
    ensures x in IssuesAt(policy, hash, intents, seen, i) <==> RaisedBy(policy, hash, intents, seen, i, x)
  {
    hide DestinationsBefore, Decide, RefusalIssues;
    BeforeExactly(intents, i, intents[i].artifact.destination);
    RefusalsMean(policy, hash, intents[i], seen[i], x);
  }

  lemma {:induction false} RefusalsMean(policy: Policy, hash: HashFn, intent: Intent, seen: Seen, x: Issue)
    ensures var d := intent.artifact.destination;
      x in RefusalIssues(Decide(policy, hash, intent, seen)) <==>
        intent.required && RefusedFor(policy, hash, intent, seen, x)
        && (x == DestinationNotRegular(d) || x == RequiredExists(d) || x == ExpectedHashRequired(d) || x == HashMismatch(d))
    ensures Decide(policy, hash, intent, seen).intent == intent
  {
  }

  /** A plan reports an issue exactly when there are too many intents or bytes, or some intent raises it. */
  lemma {:induction false} IssuesExactly(plan: WritePlan, policy: Policy, hash: HashFn, intents: seq<Intent>, seen: seq<Seen>, x: Issue)
    requires IsPlan(plan, policy, hash, intents, seen)
    ensures x in plan.issues <==>
      || (x == TooMany && |intents| > policy.maximumCount) || (x == TooLarge && TotalBytes(intents) > policy.maximumBytes)
      || exists i :: 0 <= i < |intents| && RaisedBy(policy, hash, intents, seen, i, x)
  {
    hide TotalBytes, IssuesUpTo, IssuesAt, Decide, RaisedBy;
    IssuesCollected(policy, hash, intents, seen, |intents|, x);
    forall i | 0 <= i < |intents| ensures x in IssuesAt(policy, hash, intents, seen, i) <==> RaisedBy(policy, hash, intents, seen, i, x) {
      IssueAtMeans(policy, hash, intents, seen, i, x);
    }
  }

  /** Nothing about the intent itself stands against the plan. */
  ghost predicate InOrder(policy: Policy, hash: HashFn, intents: seq<Intent>, seen: seq<Seen>, i: nat)
    requires i < |intents| == |seen|
  {
    var x := intents[i];
    && x.artifact.kind in policy.allowedKinds && BelowARoot(policy.allowedRoots, x.artifact.destination)
    && (policy.rejectCollisions ==> forall j :: 0 <= j < i ==> intents[j].artifact.destination != x.artifact.destination)
    && (x.required ==>
          || seen[i] == Absent
          || (seen[i].Regular? && (hash(seen[i].content) == hash(x.artifact.content) || MayReplace(policy, hash, x, seen[i].content))))
  }

  /** A plan is ready exactly when the limits are kept, every kind and destination is allowed, no destination
      collides, and what each required intent finds is nothing, its own content, or a file it may replace. */
  lemma {:induction false} ReadyExactlyWhen(plan: WritePlan, policy: Policy, hash: HashFn, intents: seq<Intent>, seen: seq<Seen>)
    requires IsPlan(plan, policy, hash, intents, seen)
    ensures plan.Ready() <==>
      && |intents| <= policy.maximumCount && TotalBytes(intents) <= policy.maximumBytes
      && forall i :: 0 <= i < |intents| ==> InOrder(policy, hash, intents, seen, i)
  {
    hide TotalBytes, IssuesUpTo, Decide, RaisedBy, InOrder;
    if plan.Ready() {
      IssuesExactly(plan, policy, hash, intents, seen, TooMany);
      IssuesExactly(plan, policy, hash, intents, seen, TooLarge);
      forall i | 0 <= i < |intents| ensures InOrder(policy, hash, intents, seen, i) {
        if !InOrder(policy, hash, intents, seen, i) {
          var x := IssueOfDisorder(policy, hash, intents, seen, i);
          IssuesExactly(plan, policy, hash, intents, seen, x);
        }
      }
    } else {
      var x :| x in plan.issues;
      IssuesExactly(plan, policy, hash, intents, seen, x);
      if i :| 0 <= i < |intents| && RaisedBy(policy, hash, intents, seen, i, x) {
        RaisedMeansDisorder(policy, hash, intents, seen, i, x);
      }
    }
  }

  lemma {:induction false} IssueOfDisorder(policy: Policy, hash: HashFn, intents: seq<Intent>, seen: seq<Seen>, i: nat) returns (x: Issue)
    requires i < |intents| == |seen| && !InOrder(policy, hash, intents, seen, i)
    ensures RaisedBy(policy, hash, intents, seen, i, x)
  {
    var a, d := intents[i].artifact, intents[i].artifact.destination;
    if a.kind !in policy.allowedKinds { return KindNotAllowed(a.kind); }
    if !BelowARoot(policy.allowedRoots, d) { return OutsideRoots(d); }
    if policy.rejectCollisions && exists j :: 0 <= j < i && intents[j].artifact.destination == d { return Collision(d); }
    if seen[i] == Other { return DestinationNotRegular(d); }
    if !policy.allowOverwrite { return RequiredExists(d); }
    x := if intents[i].expected == None then ExpectedHashRequired(d) else HashMismatch(d);
  }

  lemma {:induction false} RaisedMeansDisorder(policy: Policy, hash: HashFn, intents: seq<Intent>, seen: seq<Seen>, i: nat, x: Issue)
    requires i < |intents| == |seen| && RaisedBy(policy, hash, intents, seen, i, x)
    ensures !InOrder(policy, hash, intents, seen, i)
  {
  }

  /** The bytes of a list of intents are those of its parts, and those of one intent are its content's. */
  lemma {:induction false} TotalBytesAdd(xs: seq<Intent>, ys: seq<Intent>, x: Intent)
    ensures TotalBytes(xs + ys) == TotalBytes(xs) + TotalBytes(ys) && TotalBytes([x]) == |x.artifact.content| && TotalBytes([]) == 0
  {
    assert [x][1..] == [];
    if xs == [] {
      assert xs + ys == ys;
    } else {
      assert (xs + ys)[1..] == xs[1..] + ys;
      TotalBytesAdd(xs[1..], ys, x);
    }
  }

  lemma {:induction false} RefusalsReported(plan: WritePlan, policy: Policy, hash: HashFn, intents: seq<Intent>, seen: seq<Seen>, i: nat)
    requires IsPlan(plan, policy, hash, intents, seen) && i < |intents|
    ensures RefusalIssues(plan.entries[i]) <= plan.issues
  {
    forall x | x in RefusalIssues(plan.entries[i]) ensures x in plan.issues {
      assert x in IssuesAt(policy, hash, intents, seen, i);
      IssuesCollected(policy, hash, intents, seen, |intents|, x);
    }
  }

  /** A ready plan leaves no required intent refused: each is unchanged already, or will be written. */
  lemma {:induction false} ReadyPlanServesRequired(plan: WritePlan, policy: Policy, hash: HashFn, intents: seq<Intent>, seen: seq<Seen>, i: nat)
    requires IsPlan(plan, policy, hash, intents, seen) && plan.Ready() && i < |intents| && intents[i].required
    ensures plan.entries[i].action == Skip ==>
      plan.entries[i].reason == Unchanged && HashOf(hash, seen[i]) == Some(hash(intents[i].artifact.content))
  {
    RefusalsReported(plan, policy, hash, intents, seen, i);
    var entry := plan.entries[i];
    assert entry.reason == NotRegular ==> DestinationNotRegular(entry.Destination()) in RefusalIssues(entry);
    assert entry.reason == OverwriteProhibited ==> RequiredExists(entry.Destination()) in RefusalIssues(entry);
    assert entry.reason == ExpectedRequired ==> ExpectedHashRequired(entry.Destination()) in RefusalIssues(entry);
    assert entry.reason == ExpectedMismatch ==> HashMismatch(entry.Destination()) in RefusalIssues(entry);
  }

  lemma {:induction false} CollisionReported(plan: WritePlan, policy: Policy, hash: HashFn, intents: seq<Intent>, seen: seq<Seen>, i: nat, j: nat)
    requires IsPlan(plan, policy, hash, intents, seen) && policy.rejectCollisions && j < i < |intents|
    requires intents[i].artifact.destination == intents[j].artifact.destination
    ensures Collision(intents[i].artifact.destination) in plan.issues
  {
    DestinationsCollected(intents, i, j);
    assert Collision(intents[i].artifact.destination) in IssuesAt(policy, hash, intents, seen, i);
    IssuesCollected(policy, hash, intents, seen, |intents|, Collision(intents[i].artifact.destination));
  }

  /** Under a policy that rejects collisions, a ready plan has pairwise different destinations. */
  lemma {:induction false} ReadyPlanHasNoCollision(plan: WritePlan, policy: Policy, hash: HashFn, intents: seq<Intent>, seen: seq<Seen>)
    requires IsPlan(plan, policy, hash, intents, seen) && plan.Ready() && policy.rejectCollisions
    ensures forall i, j :: 0 <= j < i < |intents| ==> intents[i].artifact.destination != intents[j].artifact.destination
  {
    forall i, j | 0 <= j < i < |intents| ensures intents[i].artifact.destination != intents[j].artifact.destination {
      if intents[i].artifact.destination == intents[j].artifact.destination {
        CollisionReported(plan, policy, hash, intents, seen, i, j);
      }
    }
  }

  // ---- Committing, on files alone ----

  type Files = map<Path, string>

  function SeenIn(files: Files, destination: Path): Seen {
    if destination in files then Regular(files[destination]) else Absent
  }

  function SeenAll(files: Files, intents: seq<Intent>): (r: seq<Seen>)
    ensures |r| == |intents|
    ensures forall i :: 0 <= i < |intents| ==> r[i] == SeenIn(files, intents[i].artifact.destination)
  {
    if intents == [] then [] else [SeenIn(files, intents[0].artifact.destination)] + SeenAll(files, intents[1..])
  }

  datatype Step = Step(files: Files, result: CommitResult)

  /** One entry committed without looking at the target again. */
  function MemoryStep(policy: Policy, files: Files, entry: Entry): Step {
    if policy.dryRun then Step(files, Outcome(entry, Skipped, DryRun(entry.action)))
    else if entry.action == Skip then Step(files, Outcome(entry, Skipped, Planned(entry.reason)))
    else Step(files[entry.Destination() := entry.Content()], Outcome(entry, Written, Performed(entry.action)))
  }

  /** One entry committed after revalidating the target, when nothing interferes and nothing fails. */
  function QuietStep(policy: Policy, hash: HashFn, files: Files, entry: Entry): Step {
    if policy.dryRun || entry.action == Skip then MemoryStep(policy, files, entry)
    else
      var stale := StaleReasonOf(hash, entry, SeenIn(files, entry.Destination()));
      if stale.Some? then Step(files, Outcome(entry, Failed, Stale(stale.value)))
      else MemoryStep(policy, files, entry)
  }

  datatype Run = Run(files: Files, results: seq<CommitResult>)

  /** The entries committed in order, each remembering nothing but the files. */
  function MemoryRun(policy: Policy, files: Files, entries: seq<Entry>): (r: Run)
    ensures |r.results| == |entries|
  {
    if entries == [] then Run(files, [])
    else
      var before := MemoryRun(policy, files, entries[..|entries| - 1]);
      var step := MemoryStep(policy, before.files, entries[|entries| - 1]);
      Run(step.files, before.results + [step.result])
  }

  function QuietRun(policy: Policy, hash: HashFn, files: Files, entries: seq<Entry>): (r: Run)
    ensures |r.results| == |entries|
  {
    if entries == [] then Run(files, [])
    else
      var before := QuietRun(policy, hash, files, entries[..|entries| - 1]);
      var step := QuietStep(policy, hash, before.files, entries[|entries| - 1]);
      Run(step.files, before.results + [step.result])
  }

  predicate Writes(entry: Entry, d: Path) {
    entry.action != Skip && entry.Destination() == d
  }

  ghost predicate SharedTarget(entries: seq<Entry>, i: nat, j: nat) {
    i < j < |entries| && Writes(entries[i], entries[j].Destination()) && Writes(entries[j], entries[j].Destination())
  }

  ghost predicate NoSharing(entries: seq<Entry>) {
    forall i, j :: 0 <= i < j < |entries| ==> !SharedTarget(entries, i, j)
  }

  /** The entries that write were decided from these files. */
  ghost predicate DecidedFrom(policy: Policy, hash: HashFn, files: Files, entries: seq<Entry>) {
    forall i :: 0 <= i < |entries| && entries[i].action != Skip ==>
      entries[i] == Decide(policy, hash, entries[i].intent, SeenIn(files, entries[i].Destination()))
  }

  /** The last mutating entry for a destination, if any. */
  function LastWriter(entries: seq<Entry>, d: Path): (r: Option<nat>)
    ensures r.None? <==> forall i :: 0 <= i < |entries| ==> !Writes(entries[i], d)
    ensures r.Some? ==> r.value < |entries| && Writes(entries[r.value], d)
    ensures r.Some? ==> forall i :: r.value < i < |entries| ==> !Writes(entries[i], d)
  {
    if entries == [] then None
    else
      var n := |entries| - 1;
      if Writes(entries[n], d) then Some(n) else LastWriter(entries[..n], d)
  }

  /** What memory holds after a run: what the last writer of a destination put there, else what was there. */
  lemma {:induction false} MemoryHolds(policy: Policy, files: Files, entries: seq<Entry>, d: Path)
    requires !policy.dryRun
    ensures SeenIn(MemoryRun(policy, files, entries).files, d) ==
      if LastWriter(entries, d).Some? then Regular(entries[LastWriter(entries, d).value].Content()) else SeenIn(files, d)
    decreases |entries|
  {
    if entries != [] {
      MemoryHolds(policy, files, entries[..|entries| - 1], d);
    }
  }

  /** A planned write is performed while its target is as planned, and refused once the target's
      hash has changed. */
  lemma {:induction false} StaleExactlyWhenChanged(policy: Policy, hash: HashFn, entry: Entry, planned: Seen, now: Seen)
    requires entry == Decide(policy, hash, entry.intent, planned) && entry.action != Skip && now != Other
    ensures StaleReasonOf(hash, entry, now) == None <==> HashOf(hash, now) == HashOf(hash, planned)
  {
  }

  /** On files alone, where no directory is ever in the way, committing with revalidation and committing
      blindly agree on files and results exactly when no two mutating entries share a destination. */
  lemma {:induction false} QuietIsMemoryExactlyWithoutSharing(policy: Policy, hash: HashFn, files: Files, entries: seq<Entry>)
    requires !policy.dryRun && DecidedFrom(policy, hash, files, entries)
    ensures QuietRun(policy, hash, files, entries) == MemoryRun(policy, files, entries) <==> NoSharing(entries)
    decreases |entries|
  {
    if entries != [] {
      var n := |entries| - 1;
      var earlier := entries[..n];
      QuietIsMemoryExactlyWithoutSharing(policy, hash, files, earlier);
      SharingSplits(entries);
      if QuietRun(policy, hash, files, earlier) == MemoryRun(policy, files, earlier) {
        LastStepAgrees(policy, hash, files, entries);
      } else {
        RunsDiverge(policy, hash, files, entries);
      }
    }
  }

  lemma {:induction false} SharingSplits(entries: seq<Entry>)
    requires entries != []
    ensures var n := |entries| - 1;
      NoSharing(entries) <==>
        NoSharing(entries[..n]) && (Writes(entries[n], entries[n].Destination()) ==> LastWriter(entries[..n], entries[n].Destination()).None?)
  {
    var n := |entries| - 1;
    var earlier := entries[..n];
    assert forall i, j :: 0 <= i < j < n ==> (SharedTarget(entries, i, j) <==> SharedTarget(earlier, i, j));
    assert forall i :: 0 <= i < n ==> entries[i] == earlier[i];
    if Writes(entries[n], entries[n].Destination()) && LastWriter(earlier, entries[n].Destination()).Some? {
      assert SharedTarget(entries, LastWriter(earlier, entries[n].Destination()).value, n);
    }
  }

  /** While the runs agree so far, the next entry is performed in both exactly when no earlier entry
      wrote its destination. */
  lemma {:induction false} LastStepAgrees(policy: Policy, hash: HashFn, files: Files, entries: seq<Entry>)
    requires !policy.dryRun && DecidedFrom(policy, hash, files, entries) && entries != []
    requires QuietRun(policy, hash, files, entries[..|entries| - 1]) == MemoryRun(policy, files, entries[..|entries| - 1])
    ensures QuietRun(policy, hash, files, entries) == MemoryRun(policy, files, entries) <==>
      (Writes(entries[|entries| - 1], entries[|entries| - 1].Destination()) ==>
        LastWriter(entries[..|entries| - 1], entries[|entries| - 1].Destination()).None?)
  {
    var n := |entries| - 1;
    var earlier, last := entries[..n], entries[n];
    var d := last.Destination();
    var run := MemoryRun(policy, files, earlier);
    MemoryHolds(policy, files, earlier, d);
    if last.action != Skip {
      StaleExactlyWhenChanged(policy, hash, last, SeenIn(files, d), SeenIn(run.files, d));
      var q, m := QuietStep(policy, hash, run.files, last), MemoryStep(policy, run.files, last);
      assert q.result.status != m.result.status <==> HashOf(hash, SeenIn(run.files, d)) != HashOf(hash, SeenIn(files, d));
      assert QuietRun(policy, hash, files, entries).results[n] == q.result && MemoryRun(policy, files, entries).results[n] == m.result;
      if LastWriter(earlier, d).Some? {
        var k := LastWriter(earlier, d).value;
        assert earlier[k] == entries[k];
      }
    }
  }

  /** Runs that differ on a prefix differ. */
  lemma {:induction false} RunsDiverge(policy: Policy, hash: HashFn, files: Files, entries: seq<Entry>)
    requires entries != []
    requires QuietRun(policy, hash, files, entries[..|entries| - 1]) != MemoryRun(policy, files, entries[..|entries| - 1])
    ensures QuietRun(policy, hash, files, entries) != MemoryRun(policy, files, entries)
  {
    if QuietRun(policy, hash, files, entries).results == MemoryRun(policy, files, entries).results {
      ResultsSplit(policy, hash, files, entries);
      SameResultsSameFiles(policy, hash, files, entries[..|entries| - 1]);
    }
  }

  lemma {:induction false} ResultsSplit(policy: Policy, hash: HashFn, files: Files, entries: seq<Entry>)
    requires entries != []
    ensures var n := |entries| - 1; QuietRun(policy, hash, files, entries).results[..n] == QuietRun(policy, hash, files, entries[..n]).results
    ensures var n := |entries| - 1; MemoryRun(policy, files, entries).results[..n] == MemoryRun(policy, files, entries[..n]).results
  {
  }

  /** The results alone tell the two runs apart. */
  lemma {:induction false} SameResultsSameFiles(policy: Policy, hash: HashFn, files: Files, entries: seq<Entry>)
    requires QuietRun(policy, hash, files, entries).results == MemoryRun(policy, files, entries).results
    ensures QuietRun(policy, hash, files, entries).files == MemoryRun(policy, files, entries).files
    decreases |entries|
  {
    if entries != [] {
      var n := |entries| - 1;
      ResultsSplit(policy, hash, files, entries);
      SameResultsSameFiles(policy, hash, files, entries[..n]);
      assert QuietRun(policy, hash, files, entries).results[n] == MemoryRun(policy, files, entries).results[n];
    }
  }

  /** After a ready all-required plan was committed, planning the same intents again finds every
      destination unchanged, and is ready. */
  lemma {:induction false} RecommitSkipsEverything(policy: Policy, hash: HashFn, files: Files, intents: seq<Intent>, first: WritePlan, second: WritePlan)
    requires !policy.dryRun && policy.rejectCollisions
    requires forall i :: 0 <= i < |intents| ==> intents[i].required
    requires IsPlan(first, policy, hash, intents, SeenAll(files, intents)) && first.Ready()
    requires IsPlan(second, policy, hash, intents, SeenAll(MemoryRun(policy, files, first.entries).files, intents))
    ensures second.Ready()
    ensures forall i :: 0 <= i < |intents| ==> second.entries[i].action == Skip && second.entries[i].reason == Unchanged
  {
    hide IssuesAt, MemoryRun, Limits, IssuesUpTo;
    var after := MemoryRun(policy, files, first.entries).files;
    var was, now := SeenAll(files, intents), SeenAll(after, intents);
    forall i | 0 <= i < |intents|
      ensures second.entries[i].action == Skip && second.entries[i].reason == Unchanged
      ensures IssuesAt(policy, hash, intents, now, i) <= IssuesAt(policy, hash, intents, was, i)
    {
      CommittedIsThere(policy, hash, files, intents, first, i);
      UnchangedRaisesNothing(policy, hash, intents, was, now, i);
    }
    IssuesShrink(policy, hash, intents, was, now, |intents|);
  }

  lemma {:induction false} IssuesShrink(policy: Policy, hash: HashFn, intents: seq<Intent>, was: seq<Seen>, now: seq<Seen>, n: nat)
    requires |intents| == |was| == |now| && n <= |intents|
    requires forall i :: 0 <= i < |intents| ==> IssuesAt(policy, hash, intents, now, i) <= IssuesAt(policy, hash, intents, was, i)
    ensures IssuesUpTo(policy, hash, intents, now, n) <= IssuesUpTo(policy, hash, intents, was, n)
  {
    hide IssuesAt, Limits;
    if n > 0 { IssuesShrink(policy, hash, intents, was, now, n - 1); }
  }

  lemma {:induction false} CommittedIsThere(policy: Policy, hash: HashFn, files: Files, intents: seq<Intent>, first: WritePlan, i: nat)
    requires !policy.dryRun && policy.rejectCollisions && i < |intents| && intents[i].required
    requires IsPlan(first, policy, hash, intents, SeenAll(files, intents)) && first.Ready()
    ensures HashOf(hash, SeenIn(MemoryRun(policy, files, first.entries).files, intents[i].artifact.destination))
      == Some(hash(intents[i].artifact.content))
  {
    hide IssuesAt, Limits, MemoryRun, LastWriter, Decide, RefusalIssues;
    var d := intents[i].artifact.destination;
    var seen := SeenAll(files, intents);
    assert first.entries[i].Destination() == d && first.entries[i].Content() == intents[i].artifact.content by { DecisionKeepsIntent(policy, hash, intents[i], seen[i]); }
    MemoryHolds(policy, files, first.entries, d);
    ReadyPlanServesRequired(first, policy, hash, intents, seen, i);
    OnlyOneDestination(first, policy, hash, intents, seen);
    OnlyOneWriter(first.entries, i);
  }

  lemma {:induction false} DecisionKeepsIntent(policy: Policy, hash: HashFn, intent: Intent, seen: Seen)
    ensures Decide(policy, hash, intent, seen).intent == intent
  {
  }

  lemma {:induction false} OnlyOneDestination(plan: WritePlan, policy: Policy, hash: HashFn, intents: seq<Intent>, seen: seq<Seen>)
    requires IsPlan(plan, policy, hash, intents, seen) && plan.Ready() && policy.rejectCollisions
    ensures forall i, j :: 0 <= j < i < |plan.entries| ==> plan.entries[i].Destination() != plan.entries[j].Destination()
  {
    hide IssuesAt, Limits, Decide;
    ReadyPlanHasNoCollision(plan, policy, hash, intents, seen);
    forall i | 0 <= i < |intents| ensures plan.entries[i].intent == intents[i] { DecisionKeepsIntent(policy, hash, intents[i], seen[i]); }
  }

  lemma {:induction false} UnchangedRaisesNothing(policy: Policy, hash: HashFn, intents: seq<Intent>, was: seq<Seen>, now: seq<Seen>, i: nat)
    requires |intents| == |was| == |now| && i < |intents|
    requires HashOf(hash, now[i]) == Some(hash(intents[i].artifact.content))
    ensures IssuesAt(policy, hash, intents, now, i) <= IssuesAt(policy, hash, intents, was, i)
  {
  }

  lemma {:induction false} OnlyOneWriter(entries: seq<Entry>, i: nat)
    requires i < |entries|
    requires forall i, j :: 0 <= j < i < |entries| ==> entries[i].Destination() != entries[j].Destination()
    ensures LastWriter(entries, entries[i].Destination()) == if entries[i].action == Skip then None else Some(i)
  {
    var d := entries[i].Destination();
    forall k | 0 <= k < |entries| && k != i ensures !Writes(entries[k], d) {
    }
    var last := LastWriter(entries, d);
    assert last.Some? ==> last.value == i;
    assert entries[i].action != Skip ==> Writes(entries[i], d);
  }
}
