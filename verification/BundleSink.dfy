/** The packet bundle sink (io/packet_bundle_output_sink.py): stage, verify, and rename once. */
module BundleSink {
  import opened Wrappers
  import opened WritePlans
  import opened Disks
  import opened FileSystemSink
  import opened SinkRefinement

  /** `_ALL_KINDS`: every artifact kind but the publication plan. */
  function BundleKinds(): set<string> {
    { "topology-packet", "validation-receipt", "report-manifest", "human-report", "graph-export", "risk-report",
      "maturity-report", "diagram", "debug-artifact", "commit-receipt" }
  }

  function BundlePolicy(dryRun: bool, allowOverwrite: bool): Policy {
    Policy(dryRun, [[]], BundleKinds(), allowOverwrite, false, true, true, 1000, 268_435_456)
  }

  function StagingPolicy(policy: Policy): Policy {
    Policy(false, [[]], BundleKinds(), false, false, true, true, policy.maximumCount, policy.maximumBytes)
  }

  // ---- What a bundle is ----

  /** The files are those of the intents, each with its bytes, and no others. */
  ghost predicate HoldsExactly(files: Files, intents: seq<Intent>) {
    && (forall i :: 0 <= i < |intents| ==>
          intents[i].artifact.destination in files && files[intents[i].artifact.destination] == intents[i].artifact.content)
    && (forall d :: d in files ==> exists i :: 0 <= i < |intents| && intents[i].artifact.destination == d)
  }

  ghost predicate StrictlyBelow(intents: seq<Intent>) {
    forall i :: 0 <= i < |intents| ==> intents[i].artifact.destination != []
  }

  /** The intents whose destination is not the root itself. */
  function Below(intents: seq<Intent>): (r: seq<Intent>)
    ensures forall x :: x in r <==> x in intents && x.artifact.destination != []
  {
    if intents == [] then [] else (if intents[0].artifact.destination != [] then [intents[0]] else []) + Below(intents[1..])
  }

  lemma {:induction false} AllBelow(intents: seq<Intent>)
    requires StrictlyBelow(intents)
    ensures Below(intents) == intents
  {
    if intents != [] { AllBelow(intents[1..]); }
  }

  /** Some required destination is the root itself. */
  ghost predicate RootRequired(intents: seq<Intent>) {
    exists i :: 0 <= i < |intents| && intents[i].required && intents[i].artifact.destination == []
  }

  /** What a passed commit leaves: nothing new where a required destination is the root, otherwise the
      intents strictly below it. */
  ghost predicate LeftByPass(start: Store, root: Path, bundle: Bundle, now: Store) {
    if RootRequired(bundle.intents) then SameBelow(start, now, root) else bundle.Published(Contents(now, root))
  }

  /** Then every intent is there, and nothing else, exactly when each destination is strictly below the
      root. */
  lemma {:induction false} WholeExactlyWhenBelow(start: Store, root: Path, bundle: Bundle, now: Store)
    requires root !in start && LeftByPass(start, root, bundle, now)
    ensures HoldsExactly(Contents(now, root), bundle.intents) <==> StrictlyBelow(bundle.intents)
  {
    var intents := bundle.intents;
    if StrictlyBelow(intents) {
      AllBelow(intents);
    } else if HoldsExactly(Contents(now, root), intents) {
      var i :| 0 <= i < |intents| && intents[i].artifact.destination == [];
      assert root + [] == root;
      assert IsFile(now, root);
      if RootRequired(intents) { SameAtRoot(start, now, root); }
      assert false;
    }
  }

  predicate AnyMutating(entries: seq<Entry>) {
    exists i :: 0 <= i < |entries| && entries[i].action != Skip
  }

  /** What is to be published, and the loader that owns it. */
  datatype Bundle = Bundle(intents: seq<Intent>, verify: Files -> bool) {
    /** The files are those of the intents strictly below the root, and the loader accepts them. */
    ghost predicate Published(files: Files) { HoldsExactly(files, Below(intents)) && verify(files) }
  }

  /** Nothing has happened at or below the root, or the whole bundle, accepted by its loader, appeared where
      nothing was. */
  ghost predicate Intact(start: Store, root: Path, bundle: Bundle, now: Store) {
    SameBelow(start, now, root) || (root !in start && bundle.Published(Contents(now, root)))
  }

  ghost predicate AlwaysIntact(start: Store, root: Path, bundle: Bundle, run: seq<Event>) {
    forall k :: 0 <= k < |run| ==> Intact(start, root, bundle, run[k].before) && Intact(start, root, bundle, run[k].after)
  }

  ghost predicate UntouchedBelow(first: Store, run: seq<Event>, root: Path) {
    forall k :: 0 <= k < |run| ==> SameBelow(first, run[k].before, root) && SameBelow(first, run[k].after, root)
  }

  lemma {:induction false} IntactStays(start: Store, root: Path, bundle: Bundle, a: Store, b: Store)
    requires Intact(start, root, bundle, a) && SameBelow(a, b, root)
    ensures Intact(start, root, bundle, b)
  {
    hide Bundle.Published, Contents;
    SameContents(a, b, root);
    if SameBelow(start, a, root) {
      forall p | root <= p ensures SameAt(start, b, p) { assert SameAt(start, a, p) && SameAt(a, b, p); }
    }
  }

  lemma {:induction false} UntouchedIsIntact(start: Store, root: Path, bundle: Bundle, first: Store, run: seq<Event>)
    requires Intact(start, root, bundle, first) && UntouchedBelow(first, run, root)
    ensures AlwaysIntact(start, root, bundle, run)
  {
    hide Intact, SameBelow;
    forall k | 0 <= k < |run| ensures Intact(start, root, bundle, run[k].before) && Intact(start, root, bundle, run[k].after) {
      IntactStays(start, root, bundle, first, run[k].before);
      IntactStays(start, root, bundle, first, run[k].after);
    }
  }

  lemma {:induction false} AlwaysIntactJoins(start: Store, root: Path, bundle: Bundle, a: seq<Event>, b: seq<Event>)
    requires AlwaysIntact(start, root, bundle, a) && AlwaysIntact(start, root, bundle, b)
    ensures AlwaysIntact(start, root, bundle, a + b)
  {
    hide Intact;
  }

  lemma {:induction false} ChainedJoins(first: Store, a: seq<Event>, mid: Store, b: seq<Event>, last: Store)
    requires Chained(first, a, mid) && Chained(mid, b, last)
    ensures Chained(first, a + b, last)
    decreases |b|
  {
    if b == [] {
      assert a + b == a;
    } else {
      var n := |b| - 1;
      ChainedJoins(first, a, mid, b[..n], b[n].before);
      assert (a + b)[..|a + b| - 1] == a + b[..n];
    }
  }

  /** A lawful run of which nothing at or below the root is in the way. */
  lemma {:induction false} RunKeepsRoot(ctx: Context, first: Store, run: seq<Event>, last: Store, root: Path)
    requires Lawful(ctx, run) && Chained(first, run, last) && ctx.root != [] && Shielded(ctx.guard, root)
    requires forall p :: root <= p ==> OutOfTheWay(ctx, p)
    ensures UntouchedBelow(first, run, root) && SameBelow(first, last, root)
  {
    hide Lawful, Chained, OutOfTheWay;
    forall p | root <= p ensures SameThroughout(first, run, p) && SameAt(first, last, p) {
      ShieldCovers(ctx.guard, root, p);
      GuardedUntouched(ctx, run, p);
      StaysAsItWas(ctx, first, run, last, p);
    }
    forall k | 0 <= k < |run| ensures SameBelow(first, run[k].before, root) && SameBelow(first, run[k].after, root) {
      forall p | root <= p ensures SameAt(first, run[k].before, p) && SameAt(first, run[k].after, p) {
        assert SameThroughout(first, run, p);
      }
    }
  }

  /** A context in which nothing may be written, and only directories above the root made. */
  ghost function RootOnly(policy: Policy, hash: HashFn, root: Path, guard: set<Path>): Context {
    Context(policy, hash, root, guard, [Entry(Intent(Artifact("", [], "", ""), None, false), Skip, None, Missing)])
  }

  lemma {:induction false} RootOnlyKeepsRoot(ctx: Context, root: Path)
    requires ctx == RootOnly(ctx.policy, ctx.hash, root, ctx.guard)
    ensures ctx.Above(root) && forall p :: root <= p ==> OutOfTheWay(ctx, p)
  {
    assert root + [] == root;
    assert root <= ctx.Target(ctx.entries[0]);
  }

  // ---- The staging plan ----

  /** What a sink sees in a fresh staging directory: nothing, except the directory itself. */
  function FreshView(intents: seq<Intent>): (r: seq<Seen>)
    ensures |r| == |intents|
    ensures forall i :: 0 <= i < |r| ==> r[i] == if intents[i].artifact.destination == [] then Other else Absent
  {
    seq(|intents|, i requires 0 <= i < |intents| => if intents[i].artifact.destination == [] then Other else Absent)
  }

  lemma {:induction false} FreshlySeen(store: Store, staging: Path, intents: seq<Intent>)
    requires IsDir(store, staging) && forall p :: p in store && staging <= p ==> p == staging
    ensures SeenOn(store, staging, intents) == FreshView(intents) && Contents(store, staging) == map[]
  {
    assert staging + [] == staging;
    var on := SeenOn(store, staging, intents);
    forall i | 0 <= i < |intents| ensures on[i] == FreshView(intents)[i] {
      var d := intents[i].artifact.destination;
      assert staging <= staging + d;
      assert d != [] ==> |staging + d| > |staging|;
    }
    forall d ensures !IsFile(store, staging + d) { assert staging <= staging + d; }
    ContentsPointwise(store, staging, map[]);
  }

  /** A ready plan for the bundle makes the staging plan ready exactly when no required destination is
      the root itself. */
  lemma {:induction false} StagingReadyExactlyWhen(
      outer: WritePlan, inner: WritePlan, dryRun: bool, allowOverwrite: bool, hash: HashFn, intents: seq<Intent>, seen: seq<Seen>)
    requires IsPlan(outer, BundlePolicy(dryRun, allowOverwrite), hash, intents, seen) && outer.Ready()
    requires IsPlan(inner, StagingPolicy(BundlePolicy(dryRun, allowOverwrite)), hash, intents, FreshView(intents))
    ensures inner.Ready() <==> !RootRequired(intents)
  {
    hide IssuesUpTo, IssuesAt, Limits, BundleKinds;
    var policy := StagingPolicy(BundlePolicy(dryRun, allowOverwrite));
    var bundle := BundlePolicy(dryRun, allowOverwrite);
    var view := FreshView(intents);
    if !RootRequired(intents) {
      forall x ensures x !in inner.issues {
        IssuesCollected(policy, hash, intents, view, |intents|, x);
        IssuesCollected(bundle, hash, intents, seen, |intents|, x);
        SameLimits(bundle, intents);
        forall i | 0 <= i < |intents| ensures x !in IssuesAt(policy, hash, intents, view, i) {
          FreshIssues(bundle, hash, intents, seen, i);
        }
      }
    } else {
      var i :| 0 <= i < |intents| && intents[i].required && intents[i].artifact.destination == [];
      RefusalsReported(inner, policy, hash, intents, view, i);
      assert DestinationNotRegular([]) in RefusalIssues(inner.entries[i]);
    }
  }

  lemma {:induction false} SameLimits(bundle: Policy, intents: seq<Intent>)
    ensures Limits(StagingPolicy(bundle), intents) == Limits(bundle, intents)
  {
  }

  lemma {:induction false} FreshIssues(bundle: Policy, hash: HashFn, intents: seq<Intent>, seen: seq<Seen>, i: nat)
    requires bundle == BundlePolicy(bundle.dryRun, bundle.allowOverwrite) && |seen| == |intents| && i < |intents|
    requires !(intents[i].required && intents[i].artifact.destination == [])
    ensures IssuesAt(StagingPolicy(bundle), hash, intents, FreshView(intents), i) <= IssuesAt(bundle, hash, intents, seen, i)
  {
    hide BundleKinds, DestinationsBefore;
    var entry := Decide(StagingPolicy(bundle), hash, intents[i], FreshView(intents)[i]);
    assert RefusalIssues(entry) == {};
    assert Allowed(StagingPolicy(bundle), intents[i].artifact.destination) by { assert StagingPolicy(bundle).allowedRoots[0] <= intents[i].artifact.destination; }
  }

  /** The plan of a bundle is ready exactly when there are at most a thousand artifacts of at most 256 MiB
      together, each of a kind bundles hold, no two for one destination, and every required one can be put there:
      where nothing is, or the same content, or a file that may be overwritten and is as expected. */
  lemma {:induction false} BundleReadyExactlyWhen(
      plan: WritePlan, dryRun: bool, allowOverwrite: bool, hash: HashFn, intents: seq<Intent>, seen: seq<Seen>)
    requires IsPlan(plan, BundlePolicy(dryRun, allowOverwrite), hash, intents, seen)
    ensures plan.Ready() <==>
      && |intents| <= 1000 && TotalBytes(intents) <= 256 * 1024 * 1024
      && forall i :: 0 <= i < |intents| ==>
           && IsBundleKind(intents[i].artifact.kind)
           && (forall j :: 0 <= j < i ==> intents[j].artifact.destination != intents[i].artifact.destination)
           && (intents[i].required ==> CanBePut(allowOverwrite, hash, intents[i], seen[i]))
  {
    hide TotalBytes, IsBundleKind, CanBePut, InOrder, BundleKinds, Decide, IssuesUpTo;
    var policy := BundlePolicy(dryRun, allowOverwrite);
    ReadyExactlyWhen(plan, policy, hash, intents, seen);
    forall i | 0 <= i < |intents|
      ensures InOrder(policy, hash, intents, seen, i) <==>
        && IsBundleKind(intents[i].artifact.kind)
        && (forall j :: 0 <= j < i ==> intents[j].artifact.destination != intents[i].artifact.destination)
        && (intents[i].required ==> CanBePut(allowOverwrite, hash, intents[i], seen[i]))
    {
      BundleInOrder(dryRun, allowOverwrite, hash, intents, seen, i);
    }
  }

  predicate IsBundleKind(kind: string) {
    || kind == "topology-packet" || kind == "validation-receipt" || kind == "report-manifest" || kind == "human-report" || kind == "graph-export"
    || kind == "risk-report" || kind == "maturity-report" || kind == "diagram" || kind == "debug-artifact" || kind == "commit-receipt"
  }

  ghost predicate CanBePut(allowOverwrite: bool, hash: HashFn, intent: Intent, seen: Seen) {
    match seen
    case Absent => true
    case Other => false
    case Regular(content) =>
      hash(content) == hash(intent.artifact.content)
      || (allowOverwrite && (intent.expected == None || intent.expected == Some(hash(content))))
  }

  lemma {:induction false} BundleInOrder(dryRun: bool, allowOverwrite: bool, hash: HashFn, intents: seq<Intent>, seen: seq<Seen>, i: nat)
    requires i < |intents| == |seen|
    ensures InOrder(BundlePolicy(dryRun, allowOverwrite), hash, intents, seen, i) <==>
      && IsBundleKind(intents[i].artifact.kind)
      && (forall j :: 0 <= j < i ==> intents[j].artifact.destination != intents[i].artifact.destination)
      && (intents[i].required ==> CanBePut(allowOverwrite, hash, intents[i], seen[i]))
  {
    KindsAre(intents[i].artifact.kind);
    hide BundleKinds, IsBundleKind;
    var policy := BundlePolicy(dryRun, allowOverwrite);
    assert policy.allowedRoots[0] <= intents[i].artifact.destination;
  }

  lemma {:induction false} KindsAre(kind: string)
    ensures kind in BundleKinds() <==> IsBundleKind(kind)
  {
  }

  /** A plan made from an empty directory creates everything but the root itself. */
  lemma {:induction false} FreshPlanCreates(plan: WritePlan, policy: Policy, hash: HashFn, intents: seq<Intent>)
    requires IsPlan(plan, policy, hash, intents, FreshView(intents))
    ensures DecidedFrom(policy, hash, map[], plan.entries) && |plan.entries| == |intents|
    ensures forall i :: 0 <= i < |intents| ==>
      plan.entries[i].intent == intents[i] && plan.entries[i].action == if intents[i].artifact.destination == [] then Skip else Create
  {
    hide IssuesUpTo, Limits;
  }

  /** Committing a plan made from an empty directory leaves exactly the files of the intents below it. */
  lemma {:induction false} FreshRunHoldsExactly(policy: Policy, hash: HashFn, intents: seq<Intent>, plan: WritePlan)
    requires !policy.dryRun && policy.rejectCollisions
    requires IsPlan(plan, policy, hash, intents, FreshView(intents)) && plan.Ready()
    ensures QuietRun(policy, hash, map[], plan.entries) == MemoryRun(policy, map[], plan.entries)
    ensures HoldsExactly(MemoryRun(policy, map[], plan.entries).files, Below(intents))
  {
    hide MemoryRun, QuietRun, IsPlan, FreshView, Below, NoSharing, DecidedFrom;
    var files: Files := map[];
    FreshPlanCreates(plan, policy, hash, intents);
    ReadyMeansNoSharing(plan, policy, hash, intents, FreshView(intents));
    QuietIsMemoryExactlyWithoutSharing(policy, hash, files, plan.entries);
    OnlyOneDestination(plan, policy, hash, intents, FreshView(intents));
    var held := MemoryRun(policy, files, plan.entries).files;
    forall x | x in Below(intents) ensures SeenIn(held, x.artifact.destination) == Regular(x.artifact.content) {
      var i :| 0 <= i < |intents| && intents[i] == x;
      MemoryHolds(policy, files, plan.entries, x.artifact.destination);
      OnlyOneWriter(plan.entries, i);
    }
    forall d | d in held ensures exists x :: x in Below(intents) && x.artifact.destination == d {
      MemoryHolds(policy, files, plan.entries, d);
      var k := LastWriter(plan.entries, d).value;
      assert plan.entries[k].intent == intents[k];
      assert intents[k] in Below(intents);
    }
    HoldsByMembers(held, Below(intents));
  }

  lemma {:induction false} HoldsByMembers(files: Files, intents: seq<Intent>)
    requires forall x :: x in intents ==> SeenIn(files, x.artifact.destination) == Regular(x.artifact.content)
    requires forall d :: d in files ==> exists x :: x in intents && x.artifact.destination == d
    ensures HoldsExactly(files, intents)
  {
    forall d | d in files ensures exists i :: 0 <= i < |intents| && intents[i].artifact.destination == d {
      var x :| x in intents && x.artifact.destination == d;
      var i :| 0 <= i < |intents| && intents[i] == x;
    }
    forall i | 0 <= i < |intents| ensures SeenIn(files, intents[i].artifact.destination) == Regular(intents[i].artifact.content) {
      assert intents[i] in intents;
    }
  }

  /** Paths below different directories of the same depth differ. */
  lemma {:induction false} Apart(staging: Path, root: Path, p: Path)
    requires |staging| == |root| && staging != root && staging <= p
    ensures !(root <= p)
  {
    assert p[..|root|] == staging;
  }

  /** Writing into a staging directory beside the root leaves the root out of the way. */
  lemma {:induction false} StagingMissesRoot(ctx: Context, root: Path, p: Path)
    requires Beside(ctx.root, root) && ctx.root != root && root <= p
    requires forall i :: 0 <= i < |ctx.entries| && ctx.entries[i].Destination() == [] ==> ctx.entries[i].action == Skip
    ensures OutOfTheWay(ctx, p)
  {
    forall i | 0 <= i < |ctx.entries| ensures !(p < ctx.Target(ctx.entries[i])) {
      Apart(ctx.root, root, ctx.Target(ctx.entries[i]));
    }
    forall i | 0 <= i < |ctx.entries| && ctx.entries[i].action != Skip ensures !Beside(p, ctx.Target(ctx.entries[i])) {
      var t := ctx.Target(ctx.entries[i]);
      Apart(ctx.root, root, t[..|t| - 1]);
    }
  }

  lemma {:induction false} FreshPlanSkipsRoot(plan: WritePlan, policy: Policy, hash: HashFn, intents: seq<Intent>)
    requires IsPlan(plan, policy, hash, intents, FreshView(intents))
    ensures forall i :: 0 <= i < |plan.entries| && plan.entries[i].Destination() == [] ==> plan.entries[i].action == Skip
  {
  }

  // ---- Reuse ----

  /** Every required destination was seen to hold its content, as far as the hash tells. */
  ghost predicate RequiredHeld(hash: HashFn, intents: seq<Intent>, seen: seq<Seen>) {
    |seen| == |intents| && forall i :: 0 <= i < |intents| && intents[i].required ==> HashOf(hash, seen[i]) == Some(hash(intents[i].artifact.content))
  }

  /** A ready plan with nothing to write was made where every required destination held its content. */
  lemma {:induction false} NothingToWriteIsHeld(plan: WritePlan, policy: Policy, hash: HashFn, intents: seq<Intent>, seen: seq<Seen>)
    requires IsPlan(plan, policy, hash, intents, seen) && plan.Ready() && !AnyMutating(plan.entries)
    ensures RequiredHeld(hash, intents, seen)
  {
    forall i | 0 <= i < |intents| && intents[i].required ensures HashOf(hash, seen[i]) == Some(hash(intents[i].artifact.content)) {
      ReadyPlanServesRequired(plan, policy, hash, intents, seen, i);
    }
  }

  lemma {:induction false} SameBelowSameView(a: Store, b: Store, root: Path, intents: seq<Intent>)
    requires SameBelow(a, b, root)
    ensures SeenOn(a, root, intents) == SeenOn(b, root, intents)
  {
    var x, y := SeenOn(a, root, intents), SeenOn(b, root, intents);
    forall i | 0 <= i < |intents| ensures x[i] == y[i] {
      assert root <= root + intents[i].artifact.destination;
      assert SameAt(a, b, root + intents[i].artifact.destination);
    }
  }

  // ---- Receipts ----

  function AllSkipped(entries: seq<Entry>): (r: seq<CommitResult>)
    ensures |r| == |entries|
  {
    if entries == [] then [] else [Outcome(entries[0], Skipped, Planned(entries[0].reason))] + AllSkipped(entries[1..])
  }

  function AllFailed(entries: seq<Entry>, message: Message): (r: seq<CommitResult>)
    ensures |r| == |entries|
    ensures forall i :: 0 <= i < |r| ==> r[i].status == Failed
  {
    if entries == [] then [] else [Outcome(entries[0], Failed, message)] + AllFailed(entries[1..], message)
  }

  function AllCommitted(entries: seq<Entry>): (r: seq<CommitResult>)
    ensures |r| == |entries|
    ensures forall i :: 0 <= i < |r| ==> r[i].status == if entries[i].action != Skip then Written else Skipped
  {
    if entries == [] then []
    else
      var e := entries[0];
      [if e.action != Skip then Outcome(e, Written, BundleCommitted) else Outcome(e, Skipped, Planned(e.reason))] + AllCommitted(entries[1..])
  }

  // ---- The sink ----

  // ---- What a commit leaves besides the root ----

  /** Apart from what is at or below the root or the staging directory, nothing changed but missing ancestors of
      the root, which are directories now. */
  ghost predicate RestSame(a: Store, b: Store, root: Path, staging: Path) {
    forall p :: !(root <= p) && !(staging <= p) ==> SameAt(a, b, p) || (p < root && p !in a && IsDir(b, p))
  }

  /** Nothing changed but the root, what is below it, and missing ancestors of it, which are directories now. */
  ghost predicate OnlyRootChanged(a: Store, b: Store, root: Path) {
    forall p :: !(root <= p) ==> SameAt(a, b, p) || (p < root && p !in a && IsDir(b, p))
  }

  lemma {:induction false} RestSameItself(a: Store, root: Path, staging: Path)
    ensures RestSame(a, a, root, staging) && OnlyRootChanged(a, a, root)
  {
  }

  lemma {:induction false} RestSameOn(a: Store, b: Store, c: Store, root: Path, staging: Path)
    requires RestSame(a, b, root, staging) && RestSame(b, c, root, staging)
    ensures RestSame(a, c, root, staging)
  {
  }

  lemma {:induction false} ParentsMade(a: Store, b: Store, root: Path)
    requires ChangedOnlyFor(a, b, root)
    ensures OnlyRootChanged(a, b, root)
  {
  }

  /** Staging below a directory changes nothing else. */
  lemma {:induction false} StagedBelow(ctx: Context, a: Store, b: Store, root: Path)
    requires OnlyTargetsChanged(ctx, a, b) && Beside(ctx.root, root) && ctx.root != root
    ensures RestSame(a, b, root, ctx.root)
  {
    forall p | !(root <= p) && !(ctx.root <= p) ensures SameAt(a, b, p) || (p < root && p !in a && IsDir(b, p)) {
      if !SameAt(a, b, p) {
        var i :| 0 <= i < |ctx.entries| && MayChange(ctx, a, b, i, p);
        var target := ctx.Target(ctx.entries[i]);
        assert ctx.root <= target;
        assert p < target;
        ShorterPrefix(p, ctx.root, target);
        assert p == ctx.root[..|p|] == root[..|p|];
      }
    }
  }

  /** Of two prefixes of a path, the one that does not continue the other is continued by it. */
  lemma {:induction false} ShorterPrefix(p: Path, q: Path, target: Path)
    requires p <= target && q <= target && !(q <= p)
    ensures p < q
  {
    assert forall i :: 0 <= i < |p| && i < |q| ==> p[i] == target[i] && q[i] == target[i];
  }

  lemma {:induction false} RenamedBeside(a: Store, b: Store, staging: Path, root: Path)
    requires Apply(RenameTree(staging, root), a) == Some(b)
    ensures RestSame(a, b, root, staging)
  {
  }

  lemma {:induction false} RemovedBeside(a: Store, b: Store, staging: Path, root: Path)
    requires Apply(RemoveTree(staging), a) == Some(b)
    ensures RestSame(a, b, root, staging) && Vacant(b, staging)
  {
  }

  /** With the staging directory gone again, only the root changed. */
  lemma {:induction false} NothingLeft(first: Store, made: Store, last: Store, root: Path, staging: Path)
    requires OnlyRootChanged(first, made, root) && Vacant(made, staging) && Vacant(last, staging)
    requires RestSame(made[staging := Dir], last, root, staging)
    ensures OnlyRootChanged(first, last, root)
  {
    forall p | !(root <= p) ensures SameAt(first, last, p) || (p < root && p !in first && IsDir(last, p)) {
      if staging <= p {
        assert p !in last && p !in made;
        assert SameAt(first, made, p) || IsDir(made, p);
      } else {
        assert SameAt(made, made[staging := Dir], p);
        assert SameAt(first, made, p) || (p < root && p !in first && IsDir(made, p));
      }
    }
  }

  lemma {:induction false} SparedEverywhere(a: Store, b: Store)
    requires Spares({[]}, a, b)
    ensures a == b
  {
    forall p: Path | p in a.Keys + b.Keys ensures SameAt(a, b, p) {
      assert [] <= p;
      assert Shielded({[]}, p);
    }
    assert forall p :: (p in a ==> p in a.Keys + b.Keys) && (p in b ==> p in a.Keys + b.Keys);
    assert forall p :: p in a <==> p in b;
  }

  /** Looks on a quiet disk change nothing. */
  lemma {:induction false} QuietLooks(first: Store, run: seq<Event>, last: Store)
    requires Chained(first, run, last) && OnlyLooks({[]}, run)
    ensures first == last
    decreases |run|
  {
    if run != [] {
      var n := |run| - 1;
      var e := run[n];
      assert IsLook({[]}, e);
      if e.actor.Environment? { SparedEverywhere(e.before, e.after); }
      assert OnlyLooks({[]}, run[..n]);
      QuietLooks(first, run[..n], e.before);
    }
  }

  class PacketBundleOutputSink {
    /** The filesystem sink this sink specialises. */
    const outer: FileSystemOutputSink
    /** Whether the loader that owns the packet's type accepts the staged files. */
    const verify: Files -> bool
    /** Every step since the last commit began. */
    ghost var history: seq<Event>

    ghost predicate Valid()
      reads this, outer
    {
      outer.Valid() && outer.policy == BundlePolicy(outer.policy.dryRun, outer.policy.allowOverwrite)
    }

    constructor (disk: Disk, root: Path, dryRun: bool, allowOverwrite: bool, hash: HashFn, verify: Files -> bool)
      requires root != []
      ensures Valid() && fresh(outer) && outer.disk == disk && outer.root == root && outer.hash == hash && this.verify == verify
      ensures outer.policy == BundlePolicy(dryRun, allowOverwrite) && outer.intents == [] && outer.planned == None
    {
      outer := new FileSystemOutputSink(disk, root, BundlePolicy(dryRun, allowOverwrite), hash);
      this.verify := verify;
      history := [];
    }

    method Enqueue(intent: Intent)
      requires Valid()
      modifies outer
      ensures Valid() && outer.intents == old(outer.intents) + [intent] && outer.planned == None
    {
      outer.Enqueue(intent);
    }

    /** The steps so far lead here from the start, and a root nobody else touches was intact throughout. */
    ghost predicate Recorded(start: Store, safe: bool)
      reads this, outer, outer.disk
    {
      && Chained(start, history, outer.disk.store)
      && (safe ==> outer.Isolated() && AlwaysIntact(start, outer.root, Bundle(outer.intents, verify), history)
                   && Intact(start, outer.root, Bundle(outer.intents, verify), outer.disk.store))
    }

    /** Others act, then the effect is tried. */
    method Turn(effect: Effect) returns (ok: bool, ghost mid: Store, ghost run: seq<Event>)
      modifies outer.disk`store, outer.disk`trace, outer.disk`first
      ensures Chained(old(outer.disk.store), run, outer.disk.store)
      ensures Spares(outer.disk.shield, old(outer.disk.store), mid) && (outer.disk.quiet ==> mid == old(outer.disk.store))
      ensures outer.Isolated() ==> SameBelow(old(outer.disk.store), mid, outer.root)
      ensures if ok then Apply(effect, mid) == Some(outer.disk.store) else outer.disk.store == mid
      ensures outer.disk.quiet && Apply(effect, mid).Some? ==> ok
      ensures forall k :: 0 <= k < |run| ==> run[k].before in {old(outer.disk.store), mid} && run[k].after in {mid, outer.disk.store}
    {
      hide Apply, Spares, SameBelow, Chained;
      outer.disk.BeginRun();
      StartsChained(outer.disk.store);
      outer.Pause();
      mid := outer.disk.store;
      ok := outer.disk.Try(effect);
      run := outer.disk.trace;
    }

    /** A turn whose effect is beside the root. */
    method TurnAside(effect: Effect, ghost start: Store, ghost safe: bool) returns (ok: bool, ghost mid: Store)
      requires Recorded(start, safe) && Aside(effect, outer.root)
      modifies outer.disk`store, outer.disk`trace, outer.disk`first, `history
      ensures Recorded(start, safe)
      ensures Spares(outer.disk.shield, old(outer.disk.store), mid) && (outer.disk.quiet ==> mid == old(outer.disk.store))
      ensures if ok then Apply(effect, mid) == Some(outer.disk.store) else outer.disk.store == mid
      ensures outer.disk.quiet && Apply(effect, mid).Some? ==> ok
      ensures outer.Isolated() ==> SameBelow(old(outer.disk.store), outer.disk.store, outer.root)
    {
      hide Apply, Spares, SameBelow, Chained, Intact, Aside;
      ghost var run;
      ok, mid, run := Turn(effect);
      ghost var before, after, root := old(outer.disk.store), outer.disk.store, outer.root;
      if outer.Isolated() { AsideKeepsRoot(effect, before, mid, after, root, ok); }
      if safe {
        IntactStays(start, root, Bundle(outer.intents, verify), before, mid);
        IntactStays(start, root, Bundle(outer.intents, verify), before, after);
        RunIsIntact(start, root, Bundle(outer.intents, verify), run, {before, mid, after});
      }
      JoinHistory(start, root, Bundle(outer.intents, verify), history, before, run, after, safe);
      history := history + run;
    }

    /** A name beside the root that nothing has. */
    method PickStaging() returns (staging: Path)
      requires outer.root != []
      ensures Vacant(outer.disk.store, staging) && Beside(staging, outer.root) && staging != outer.root
      ensures ParentIsDir(outer.disk.store, staging) <==> ParentIsDir(outer.disk.store, outer.root)
    {
      var root := outer.root;
      var parent := root[..|root| - 1];
      FreeDirectoryExists(outer.disk.store, root);
      var name: string :| Vacant(outer.disk.store, parent + [name]) && parent + [name] != root;
      staging := parent + [name];
      assert staging[..|staging| - 1] == parent;
    }

    /** `mkdtemp` beside the root; nobody else touches what is in it. */
    method MakeStagingDir(ghost start: Store, ghost safe: bool) returns (staging: Path, ok: bool)
      requires Valid() && Recorded(start, safe)
      modifies outer.disk, `history
      ensures Recorded(start, safe) && Beside(staging, outer.root) && staging != outer.root
      ensures outer.disk.shield == old(outer.disk.shield) + if ok then {staging} else {}
      ensures ok ==> IsDir(outer.disk.store, staging) && forall p :: p in outer.disk.store && staging <= p ==> p == staging
      ensures outer.Isolated() ==> SameBelow(old(outer.disk.store), outer.disk.store, outer.root)
      ensures outer.disk.quiet && ParentIsDir(old(outer.disk.store), outer.root) ==> ok
      ensures outer.disk.quiet && ok ==> outer.disk.store == old(outer.disk.store)[staging := Dir] && Vacant(old(outer.disk.store), staging)
      ensures outer.disk.quiet && !ok ==> outer.disk.store == old(outer.disk.store)
    {
      hide Spares, SameBelow, Chained, Intact, Contents, AlwaysIntact;
      staging := PickStaging();
      ghost var root := outer.root;
      ghost var mid;
      ok, mid := TurnAside(MakeStaging(staging), start, safe);
      if ok {
        StillShielded(outer.disk.shield, staging, root);
        outer.disk.shield := outer.disk.shield + {staging};
        if outer.Isolated() && !outer.disk.quiet { ShieldedBefore(old(outer.disk.shield), staging, root); }
      }
    }

    /** Nothing keeps the intents of a ready plan from being staged. */
    ghost predicate StagesWell(store: Store, staging: Path)
      reads outer, outer.disk
    {
      outer.disk.quiet && NoneBelowAnother(Below(outer.intents)) && ClearPath(store, staging) && ParentIsDir(store, outer.root)
    }

    /** Commit the intents into the staging directory with a filesystem sink of its own. */
    method StageBundle(ghost plan: WritePlan, staging: Path, ghost start: Store, ghost safe: bool) returns (receipt: Receipt)
      requires outer.planned == Some(plan) && plan.Ready()
      requires Valid() && Recorded(start, safe) && Beside(staging, outer.root) && staging != outer.root && staging in outer.disk.shield
      requires IsDir(outer.disk.store, staging) && forall p :: p in outer.disk.store && staging <= p ==> p == staging
      modifies outer.disk, `history
      ensures Recorded(start, safe) && outer.disk.shield == old(outer.disk.shield)
      ensures outer.Isolated() ==> SameBelow(old(outer.disk.store), outer.disk.store, outer.root)
      ensures receipt.status == Blocked <==> RootRequired(outer.intents)
      ensures receipt.status == Blocked ==> receipt.results == []
      ensures receipt.status == CommitFailed ==> !NoFailure(receipt.results)
      ensures receipt.status == Passed ==> HoldsExactly(Contents(outer.disk.store, staging), Below(outer.intents))
      ensures StagesWell(old(outer.disk.store), staging) && !RootRequired(outer.intents) ==>
        receipt.status == Passed && IsDir(outer.disk.store, staging) && ParentIsDir(outer.disk.store, outer.root)
      ensures outer.disk.quiet ==> RestSame(old(outer.disk.store), outer.disk.store, outer.root, staging)
    {
      hide Spares, SameBelow, Chained, Lawful, Intact, Contents, AlwaysIntact, IsPlan, QuietRun, MemoryRun, HoldsExactly, RootRequired, RestSame,
        ResultsOk, Unobstructed, OnlyTargetsChanged, FreshView, SeenOn, ClearPath, ParentIsDir, NoneBelowAnother, Below;
      ghost var before, intents, root := outer.disk.store, outer.intents, outer.root;
      FreshlySeen(before, staging, intents);
      ShieldedItself(outer.disk.shield, staging);
      var sink := new FileSystemOutputSink(outer.disk, staging, StagingPolicy(outer.policy), outer.hash);
      Requeue(sink, outer.intents);
      receipt := sink.Commit();
      ghost var after, run, inner, ctx := outer.disk.store, outer.disk.trace, sink.planned.value, sink.PlanContext();
      FreshPlanSkipsRoot(inner, sink.policy, sink.hash, intents);
      RestSameItself(before, root, staging);
      if outer.disk.quiet && inner.Ready() { StagedBelow(ctx, before, after, root); }
      if outer.Isolated() {
        ShieldedByGuard(sink.Guard(), outer.disk.quiet, outer.disk.shield, root);
        forall p | root <= p ensures OutOfTheWay(ctx, p) { StagingMissesRoot(ctx, root, p); }
        RunKeepsRoot(ctx, before, run, after, root);
      }
      if safe {
        IntactStays(start, root, Bundle(intents, verify), before, after);
        UntouchedIsIntact(start, root, Bundle(intents, verify), before, run);
      }
      JoinHistory(start, root, Bundle(intents, verify), history, before, run, after, safe);
      history := history + run;
      StagingNotBlocked(plan, inner, outer.policy, outer.hash, intents, outer.plannedFrom);
      if receipt.status == Passed { FreshRunHoldsExactly(sink.policy, sink.hash, intents, inner); }
      if StagesWell(before, staging) && !RootRequired(intents) {
        StagingSucceeds(ctx, plan, inner, outer.policy, intents, outer.plannedFrom, before, after, root, receipt);
      }
    }

    /** Nothing keeps the staged bundle from being published. */
    ghost predicate Publishable(store: Store, staging: Path)
      reads outer.disk
    {
      outer.disk.quiet && verify(Contents(store, staging)) && IsDir(store, staging) && Vacant(store, outer.root) && ParentIsDir(store, outer.root)
    }

    /** Load the staged bundle back, rename it to the root, and flush the parent directory. */
    method Publish(staging: Path, ghost start: Store, ghost safe: bool) returns (ok: bool)
      requires Valid() && Recorded(start, safe) && Beside(staging, outer.root) && staging != outer.root && staging in outer.disk.shield
      requires safe ==> outer.root !in start && HoldsExactly(Contents(outer.disk.store, staging), Below(outer.intents))
      modifies outer.disk`store, outer.disk`trace, outer.disk`first, `history
      ensures Recorded(start, safe)
      ensures ok ==> verify(Contents(outer.disk.store, outer.root))
      ensures ok && safe ==> HoldsExactly(Contents(outer.disk.store, outer.root), Below(outer.intents))
      ensures Publishable(old(outer.disk.store), staging) ==> ok
      ensures outer.disk.quiet ==> RestSame(old(outer.disk.store), outer.disk.store, outer.root, staging)
    {
      hide Spares, SameBelow, Chained, Intact, Contents, AlwaysIntact, HoldsExactly, Renamed, ParentIsDir, Below, RestSame;
      ghost var first := outer.disk.store;
      RestSameItself(first, outer.root, staging);
      ShieldedItself(outer.disk.shield, staging);
      ghost var mid;
      ok, mid := TurnAside(Look(staging, Other), start, safe);
      StagedSame(outer.disk.shield, first, mid, staging);
      if !ok || !verify(Contents(outer.disk.store, staging)) { ok := false; return; }
      ok := PutInPlace(staging, start, safe);
      var flushed: bool := *;
      ok := ok && (flushed || outer.disk.quiet);
    }

    /** `os.replace(staging, root)`. */
    method PutInPlace(staging: Path, ghost start: Store, ghost safe: bool) returns (ok: bool)
      requires Valid() && Recorded(start, safe) && Beside(staging, outer.root) && staging != outer.root && staging in outer.disk.shield
      requires verify(Contents(outer.disk.store, staging))
      requires safe ==> outer.root !in start && HoldsExactly(Contents(outer.disk.store, staging), Below(outer.intents))
      modifies outer.disk`store, outer.disk`trace, outer.disk`first, `history
      ensures Recorded(start, safe)
      ensures ok ==> Contents(outer.disk.store, outer.root) == Contents(old(outer.disk.store), staging)
      ensures Publishable(old(outer.disk.store), staging) ==> ok
      ensures outer.disk.quiet ==> RestSame(old(outer.disk.store), outer.disk.store, outer.root, staging)
    {
      hide Spares, SameBelow, Chained, Intact, Contents, AlwaysIntact, HoldsExactly, Renamed, ParentIsDir, Below, Bundle.Published, Shielded, Apply,
        Vacant, RestSame;
      ghost var root, intents, before, mid, run := outer.root, outer.intents, outer.disk.store, outer.disk.store, [];
      NotAbove(staging, root);
      ShieldedItself(outer.disk.shield, staging);
      RenamePossible(before, staging, root);
      ok, mid, run := Turn(RenameTree(staging, outer.root));
      ghost var after := outer.disk.store;
      StagedSame(outer.disk.shield, before, mid, staging);
      RestSameItself(before, root, staging);
      if ok {
        RenamedBeside(mid, after, staging, root);
        RenamedIs(mid, after, staging, root);
        ContentsOfRenamed(mid, staging, root);
      }
      if safe {
        BundlePublished(Bundle(intents, verify), Contents(before, staging));
        PlacedIntact(start, root, Bundle(intents, verify), before, mid, after, run, ok);
      }
      JoinHistory(start, root, Bundle(intents, verify), history, before, run, after, safe);
      history := history + run;
    }

    /** `finally: if staging.exists(): rmtree(staging, ignore_errors=True)`. */
    method RemoveStaging(staging: Path, ghost start: Store, ghost safe: bool)
      requires Valid() && Recorded(start, safe) && Beside(staging, outer.root) && staging != outer.root
      modifies outer.disk`store, outer.disk`trace, outer.disk`first, `history
      ensures Recorded(start, safe)
      ensures outer.Isolated() ==> SameBelow(old(outer.disk.store), outer.disk.store, outer.root)
      ensures outer.disk.quiet ==>
        Vacant(outer.disk.store, staging) && RestSame(old(outer.disk.store), outer.disk.store, outer.root, staging)
    {
      hide Vacant, RestSame;
      var removed;
      ghost var mid;
      removed, mid := TurnAside(RemoveTree(staging), start, safe);
      if outer.disk.quiet { RemovedBeside(mid, outer.disk.store, staging, outer.root); }
    }

    /** The guarded section of `commit`: stage and publish. */
    method TryBundle(plan: WritePlan, staging: Path, ghost start: Store, ghost safe: bool) returns (receipt: Receipt)
      requires Valid() && Recorded(start, safe) && Beside(staging, outer.root) && staging != outer.root && staging in outer.disk.shield
      requires IsDir(outer.disk.store, staging) && forall p :: p in outer.disk.store && staging <= p ==> p == staging
      requires outer.planned == Some(plan) && plan.Ready() && AnyMutating(plan.entries)
      requires safe ==> outer.root !in start
      modifies outer.disk, `history
      ensures Recorded(start, safe) && outer.disk.shield == old(outer.disk.shield)
      ensures RootRequired(outer.intents) ==> receipt == MakeReceipt(plan, [])
      ensures RootRequired(outer.intents) && outer.Isolated() ==> SameBelow(old(outer.disk.store), outer.disk.store, outer.root)
      ensures receipt.status == Passed && safe && !RootRequired(outer.intents) ==> Bundle(outer.intents, verify).Published(Contents(outer.disk.store, outer.root))
      ensures StagesWell(old(outer.disk.store), staging) && Accepts(verify, Below(outer.intents)) && Vacant(old(outer.disk.store), outer.root)
              && !RootRequired(outer.intents) ==>
        receipt == MakeReceipt(plan, AllCommitted(plan.entries))
      ensures StagesWell(old(outer.disk.store), staging) && Refused(verify, outer.intents) && safe && !RootRequired(outer.intents) ==>
        receipt == MakeReceipt(plan, AllFailed(plan.entries, SystemError))
      ensures outer.disk.quiet ==> RestSame(old(outer.disk.store), outer.disk.store, outer.root, staging)
    {
      hide Spares, SameBelow, Chained, Intact, Contents, AlwaysIntact, HoldsExactly, ParentIsDir, RootRequired, NoneBelowAnother, ClearPath, NoFailure, Below,
        Refused, RestSame, MakeReceipt, AllCommitted, AllFailed, AnyMutating, Vacant, IsDir;
      ghost var before, root, intents := outer.disk.store, outer.root, outer.intents;
      var staged := StageBundle(plan, staging, start, safe);
      ghost var written := outer.disk.store;
      if staged.status != Passed {
        receipt := MakeReceipt(plan, staged.results);
        BlockedOrFailed(plan, staged);
      } else {
        ghost var ready := outer.disk.store;
        if StagesWell(before, staging) && Vacant(before, root) { StillVacant(before, ready, root); }
        var ok := Publish(staging, start, safe);
        if ok {
          if Refused(verify, intents) && safe { RefusedIsNotPublished(Bundle(intents, verify), Contents(outer.disk.store, root)); }
          receipt := MakeReceipt(plan, AllCommitted(plan.entries));
        } else {
          receipt := MakeReceipt(plan, AllFailed(plan.entries, SystemError));
          AllFailedFails(plan);
        }
      }
      RestSameItself(written, root, staging);
      if outer.disk.quiet { RestSameOn(before, written, outer.disk.store, root, staging); }
    }

    /** Stage and publish, and clean up whatever happened. */
    method StageAndPublish(plan: WritePlan, staging: Path, ghost start: Store, ghost safe: bool) returns (receipt: Receipt)
      requires Valid() && Recorded(start, safe) && Beside(staging, outer.root) && staging != outer.root && staging in outer.disk.shield
      requires IsDir(outer.disk.store, staging) && forall p :: p in outer.disk.store && staging <= p ==> p == staging
      requires outer.planned == Some(plan) && plan.Ready() && AnyMutating(plan.entries)
      requires safe ==> outer.root !in start
      modifies outer.disk, `history
      ensures Recorded(start, safe) && outer.disk.shield == old(outer.disk.shield)
      ensures RootRequired(outer.intents) ==> receipt == MakeReceipt(plan, [])
      ensures RootRequired(outer.intents) && outer.Isolated() ==> SameBelow(old(outer.disk.store), outer.disk.store, outer.root)
      ensures receipt.status == Passed && safe && !RootRequired(outer.intents) ==> Bundle(outer.intents, verify).Published(Contents(outer.disk.store, outer.root))
      ensures StagesWell(old(outer.disk.store), staging) && Accepts(verify, Below(outer.intents)) && Vacant(old(outer.disk.store), outer.root)
              && !RootRequired(outer.intents) ==>
        receipt == MakeReceipt(plan, AllCommitted(plan.entries))
      ensures StagesWell(old(outer.disk.store), staging) && Refused(verify, outer.intents) && safe && !RootRequired(outer.intents) ==>
        receipt == MakeReceipt(plan, AllFailed(plan.entries, SystemError))
      ensures outer.disk.quiet ==>
        Vacant(outer.disk.store, staging) && RestSame(old(outer.disk.store), outer.disk.store, outer.root, staging)
    {
      hide Spares, SameBelow, Chained, Intact, Contents, AlwaysIntact, HoldsExactly, ParentIsDir, RootRequired, NoneBelowAnother, ClearPath, Below,
        Refused, RestSame, MakeReceipt, AllCommitted, AllFailed, AnyMutating, Accepts, Vacant, Bundle.Published;
      ghost var before, root := outer.disk.store, outer.root;
      receipt := TryBundle(plan, staging, start, safe);
      ghost var published := outer.disk.store;
      RemoveStaging(staging, start, safe);
      if outer.disk.quiet { RestSameOn(before, published, outer.disk.store, root, staging); }
      if outer.Isolated() {
        SameContentsBelow(published, outer.disk.store, root);
        if RootRequired(outer.intents) { StillSameBelow(before, published, outer.disk.store, root); }
      }
    }

    /** Look whether the root is there. */
    method LookAtRoot(ghost start: Store, ghost safe: bool) returns (seen: Seen)
      requires Valid() && Recorded(start, safe)
      modifies outer.disk`store, outer.disk`trace, outer.disk`first, `history
      ensures Recorded(start, safe)
      ensures outer.Isolated() ==> SameBelow(old(outer.disk.store), outer.disk.store, outer.root)
      ensures outer.Isolated() ==> seen == SeenAt(old(outer.disk.store), outer.root)
      ensures outer.disk.quiet ==> outer.disk.store == old(outer.disk.store)
    {
      hide SameBelow, Chained, Intact, AlwaysIntact, OnlyLooks;
      outer.disk.BeginRun();
      StartsChained(outer.disk.store);
      NoLooksYet(outer.Guard());
      seen := outer.LookAt([]);
      assert outer.root + [] == outer.root;
      RecordLooks(start, safe, old(outer.disk.store));
    }

    /** Looks just made join the history. */
    ghost method RecordLooks(start: Store, safe: bool, first: Store)
      requires Valid() && Chained(start, history, first)
      requires safe ==>
        outer.Isolated() && AlwaysIntact(start, outer.root, Bundle(outer.intents, verify), history)
        && Intact(start, outer.root, Bundle(outer.intents, verify), first)
      requires OnlyLooks(outer.Guard(), outer.disk.trace) && Chained(first, outer.disk.trace, outer.disk.store)
      modifies `history
      ensures Recorded(start, safe) && history == old(history) + outer.disk.trace
    {
      hide SameBelow, Chained, Intact, AlwaysIntact, OnlyLooks, Lawful;
      ghost var root, intents, run, last := outer.root, outer.intents, outer.disk.trace, outer.disk.store;
      if safe {
        LooksKeepRoot(outer.Guard(), outer.disk.quiet, outer.disk.shield, first, run, last, root);
        UntouchedIsIntact(start, root, Bundle(intents, verify), first, run);
        IntactStays(start, root, Bundle(intents, verify), first, last);
      }
      JoinHistory(start, root, Bundle(intents, verify), history, first, run, last, safe);
      history := history + run;
    }

    /** `mkdir(parents=True)` for the root's parent. */
    method MakeRootParents(ghost start: Store, ghost safe: bool) returns (ok: bool)
      requires Valid() && Recorded(start, safe)
      modifies outer.disk`store, outer.disk`trace, outer.disk`first, `history
      ensures Recorded(start, safe)
      ensures outer.Isolated() ==> SameBelow(old(outer.disk.store), outer.disk.store, outer.root)
      ensures outer.disk.quiet && ClearPath(old(outer.disk.store), outer.root) ==>
        ok && ParentIsDir(outer.disk.store, outer.root) && ClearPath(outer.disk.store, outer.root)
      ensures outer.disk.quiet ==> OnlyRootChanged(old(outer.disk.store), outer.disk.store, outer.root)
    {
      hide SameBelow, Chained, Intact, AlwaysIntact, Lawful, ParentIsDir, ClearPath, ChangedOnlyFor, RootOnly, OnlyRootChanged;
      outer.disk.BeginRun();
      StartsChained(outer.disk.store);
      ghost var ctx := RootOnly(outer.policy, outer.hash, outer.root, outer.Guard());
      BeginsRootOnly(outer.policy, outer.hash, outer.root, outer.Guard());
      ok := outer.MakeParents(ctx, outer.root);
      ghost var first, run, last, root, intents := old(outer.disk.store), outer.disk.trace, outer.disk.store, outer.root, outer.intents;
      if outer.Isolated() {
        ShieldedByGuard(outer.Guard(), outer.disk.quiet, outer.disk.shield, root);
        RunKeepsRoot(ctx, first, run, last, root);
      }
      if safe {
        UntouchedIsIntact(start, root, Bundle(intents, verify), first, run);
        IntactStays(start, root, Bundle(intents, verify), first, last);
      }
      JoinHistory(start, root, Bundle(intents, verify), history, first, run, last, safe);
      history := history + run;
      if outer.disk.quiet && ClearPath(first, root) { StillClear(first, last, root); }
      if outer.disk.quiet { ParentsMade(first, last, root); }
    }

    /** Make the root's parent, and a staging directory beside the root. */
    method MakeRoom(ghost start: Store, ghost safe: bool) returns (staging: Path, ok: bool, ghost made: Store)
      requires Valid() && Recorded(start, safe)
      modifies outer.disk, `history
      ensures Recorded(start, safe) && outer.disk.shield == old(outer.disk.shield) + if ok then {staging} else {}
      ensures ok ==> Beside(staging, outer.root) && staging != outer.root
      ensures ok ==> IsDir(outer.disk.store, staging) && forall p :: p in outer.disk.store && staging <= p ==> p == staging
      ensures outer.Isolated() ==> SameBelow(old(outer.disk.store), outer.disk.store, outer.root)
      ensures outer.disk.quiet ==>
        OnlyRootChanged(old(outer.disk.store), made, outer.root)
        && if ok then Vacant(made, staging) && outer.disk.store == made[staging := Dir] else outer.disk.store == made
      ensures Placeable(old(outer.disk.store)) ==> ok && StagesWell(outer.disk.store, staging) && Vacant(outer.disk.store, outer.root)
    {
      hide Spares, SameBelow, Chained, Intact, AlwaysIntact, ParentIsDir, NoneBelowAnother, ClearPath, Vacant, Below, OnlyRootChanged;
      ghost var first, root := outer.disk.store, outer.root;
      staging := [];
      ok := MakeRootParents(start, safe);
      made := outer.disk.store;
      if !ok { return; }
      staging, ok := MakeStagingDir(start, safe);
      ghost var staged := outer.disk.store;
      if outer.Isolated() { StillSameBelow(first, made, staged, root); }
      if Placeable(first) {
        StillVacant(first, made, root);
        StillVacant(made, staged, root);
        StagingClear(made, staged, root, staging);
      }
    }

    /** `commit` from the point where something is to be written. None: the error leaves `commit`. */
    method CommitNew(plan: WritePlan, ghost start: Store, ghost safe: bool) returns (receipt: Option<Receipt>)
      requires Valid() && Recorded(start, safe)
      requires outer.planned == Some(plan) && plan.Ready() && AnyMutating(plan.entries)
      requires safe ==> SameBelow(start, outer.disk.store, outer.root)
      modifies outer.disk, `history
      ensures Recorded(start, safe) && outer.disk.shield == old(outer.disk.shield)
      ensures outer.Isolated() && outer.root in old(outer.disk.store) ==> receipt == Some(MakeReceipt(plan, AllFailed(plan.entries, AlreadyExists)))
      ensures receipt.Some? && receipt.value.status == Passed && safe ==>
        outer.root !in start && LeftByPass(start, outer.root, Bundle(outer.intents, verify), outer.disk.store)
      ensures Publishes(old(outer.disk.store)) ==>
        receipt == Some(MakeReceipt(plan, if RootRequired(outer.intents) then [] else AllCommitted(plan.entries)))
      ensures Placeable(old(outer.disk.store)) && Refused(verify, outer.intents) && safe && !RootRequired(outer.intents) ==>
        receipt == Some(MakeReceipt(plan, AllFailed(plan.entries, SystemError)))
      ensures outer.disk.quiet ==> OnlyRootChanged(old(outer.disk.store), outer.disk.store, outer.root)
    {
      hide Spares, SameBelow, Chained, Intact, Contents, AlwaysIntact, HoldsExactly, ParentIsDir, MakeReceipt, AllCommitted, AllFailed, AnyMutating,
        RootRequired, NoneBelowAnother, ClearPath, Accepts, Vacant, Below, Refused, Bundle.Published, RestSame, OnlyRootChanged;
      ghost var first, root := outer.disk.store, outer.root;
      RestSameItself(first, root, root);
      if safe { SameAtRoot(start, first, root); }
      var seen := LookAtRoot(start, safe);
      if outer.disk.quiet { VacantMeansAbsent(first, root); }
      if seen != Absent {
        AllFailedFails(plan);
        return Some(MakeReceipt(plan, AllFailed(plan.entries, AlreadyExists)));
      }
      ghost var looked := outer.disk.store;
      var shield := outer.disk.shield;
      var staging, ok;
      ghost var made;
      staging, ok, made := MakeRoom(start, safe);
      if !ok { return None; }
      ghost var staged := outer.disk.store;
      var done := StageAndPublish(plan, staging, start, safe);
      receipt := Some(done);
      if outer.disk.quiet { NothingLeft(first, made, outer.disk.store, root, staging); }
      if safe && RootRequired(outer.intents) {
        StillSameBelow(start, first, looked, root);
        StillSameBelow(start, looked, staged, root);
        StillSameBelow(start, staged, outer.disk.store, root);
      }
      outer.disk.shield := shield;
    }

    /** `commit`. Throughout, a root that nobody else touches is as it was, or was absent and now holds
        exactly the intents strictly below it; a passed receipt means that all of the intents are there,
        and nothing else, exactly when each destination is strictly below the root. With nothing to write,
        it means that every required destination held its content when the plan looked. */
    method Commit() returns (receipt: Option<Receipt>)
      requires Valid()
      modifies this, outer, outer.disk
      ensures Valid() && outer.planned.Some? && outer.intents == old(outer.intents) && outer.disk.shield == old(outer.disk.shield)
      ensures old(outer.planned).Some? ==> outer.planned == old(outer.planned)
      ensures Chained(old(outer.disk.store), history, outer.disk.store)
      ensures outer.Isolated() ==>
        AlwaysIntact(old(outer.disk.store), outer.root, Bundle(outer.intents, verify), history)
        && Intact(old(outer.disk.store), outer.root, Bundle(outer.intents, verify), outer.disk.store)
      ensures !outer.planned.value.Ready() ==> receipt == Some(MakeReceipt(outer.planned.value, []))
      ensures outer.planned.value.Ready() && !outer.policy.dryRun && !AnyMutating(outer.planned.value.entries) ==>
        receipt == Some(MakeReceipt(outer.planned.value, AllSkipped(outer.planned.value.entries)))
        && (old(outer.planned).Some? ==> history == [] && outer.disk.store == old(outer.disk.store))
      ensures outer.planned.value.Ready() && !outer.policy.dryRun && !AnyMutating(outer.planned.value.entries) ==>
        RequiredHeld(outer.hash, outer.intents, outer.plannedFrom)
        && (outer.plannedFrom == SeenOn(outer.disk.store, outer.root, outer.intents) ==>
              RequiredHeld(outer.hash, outer.intents, SeenOn(outer.disk.store, outer.root, outer.intents)))
        && (old(outer.planned).Some? ==> outer.plannedFrom == old(outer.plannedFrom))
        && (old(outer.planned).None? && outer.Isolated() ==> outer.plannedFrom == SeenOn(outer.disk.store, outer.root, outer.intents))
      ensures Mutates() && outer.Isolated() && receipt.Some? && receipt.value.status == Passed ==>
        outer.root !in old(outer.disk.store) && LeftByPass(old(outer.disk.store), outer.root, Bundle(outer.intents, verify), outer.disk.store)
        && (HoldsExactly(Contents(outer.disk.store, outer.root), outer.intents) <==> StrictlyBelow(outer.intents))
      ensures outer.Isolated() && Refused(verify, outer.intents) ==>
        UntouchedBelow(old(outer.disk.store), history, outer.root) && SameBelow(old(outer.disk.store), outer.disk.store, outer.root)
      ensures Mutates() && outer.Isolated() && Refused(verify, outer.intents) && !RootRequired(outer.intents) && receipt.Some? ==>
        receipt.value.status != Passed
      ensures Mutates() && outer.Isolated() && outer.root in old(outer.disk.store) ==>
        receipt == Some(MakeReceipt(outer.planned.value, AllFailed(outer.planned.value.entries, AlreadyExists)))
      ensures Mutates() && Publishes(old(outer.disk.store)) ==>
        receipt == Some(MakeReceipt(outer.planned.value, if RootRequired(outer.intents) then [] else AllCommitted(outer.planned.value.entries)))
        && receipt.value.status == Passed
      ensures Mutates() && Placeable(old(outer.disk.store)) && Refused(verify, outer.intents) && !RootRequired(outer.intents) ==>
        receipt == Some(MakeReceipt(outer.planned.value, AllFailed(outer.planned.value.entries, SystemError)))
      ensures outer.disk.quiet ==> OnlyRootChanged(old(outer.disk.store), outer.disk.store, outer.root)
    {
      hide SameBelow, Chained, Intact, Contents, AlwaysIntact, HoldsExactly, StrictlyBelow, NoneBelowAnother, ClearPath, Accepts, Vacant, LeftByPass,
        Refused, RootRequired, Below, OnlyLooks, Lawful, IsPlan, SeenOn, QuietRun, ResultsOk, Unobstructed, OnlyTargetsChanged, OnlyRootChanged;
      ghost var start, root := outer.disk.store, outer.root;
      RestSameItself(start, root, root);
      ghost var safe := outer.Isolated();
      hide IsLook, Recorded;
      var plan := PlanBundle(start, safe);
      if safe && Refused(verify, outer.intents) { RefusedSoFar(start); }
      if outer.Isolated() { SameAtRoot(start, outer.disk.store, root); }
      if !plan.Ready() { return Some(MakeReceipt(plan, [])); }
      if outer.policy.dryRun {
        var done := CommitDry(start, safe);
        if safe && Refused(verify, outer.intents) { RefusedSoFar(start); }
        return Some(done);
      }
      if !AnyMutating(plan.entries) {
        NothingToWriteIsHeld(plan, outer.policy, outer.hash, outer.intents, outer.plannedFrom);
        if safe { SameBelowSameView(start, outer.disk.store, root, outer.intents); }
        return Some(MakeReceipt(plan, AllSkipped(plan.entries)));
      }
      receipt := CommitNew(plan, start, safe);
      if safe && receipt.Some? && receipt.value.status == Passed { WholeExactlyWhenBelow(start, root, Bundle(outer.intents, verify), outer.disk.store); }
      CommittedPasses(plan);
      if safe && Refused(verify, outer.intents) {
        RefusedSoFar(start);
        NeverPasses(start, root, Bundle(outer.intents, verify), outer.disk.store);
      }
    }

    lemma {:induction false} RefusedSoFar(start: Store)
      requires Recorded(start, true) && Refused(verify, outer.intents)
      ensures UntouchedBelow(start, history, outer.root) && SameBelow(start, outer.disk.store, outer.root)
    {
      hide SameBelow, Refused, AlwaysIntact, Intact, Chained;
      RefusedIsUntouched(start, outer.root, Bundle(outer.intents, verify), history, outer.disk.store);
    }

    /** The plan, and the looks it took. */
    method PlanBundle(ghost start: Store, ghost safe: bool) returns (plan: WritePlan)
      requires Valid() && start == outer.disk.store && (safe ==> outer.Isolated())
      modifies outer, outer.disk`store, outer.disk`trace, outer.disk`first, `history
      ensures Valid() && outer.planned == Some(plan) && outer.intents == old(outer.intents) && Recorded(start, safe)
      ensures old(outer.planned).Some? ==> plan == old(outer.planned).value && history == [] && outer.disk.store == start
      ensures old(outer.planned).Some? ==> outer.plannedFrom == old(outer.plannedFrom)
      ensures old(outer.planned).None? && outer.Isolated() ==> outer.plannedFrom == SeenOn(start, outer.root, outer.intents)
      ensures outer.disk.quiet ==> outer.disk.store == start
      ensures outer.Isolated() ==> SameBelow(start, outer.disk.store, outer.root)
    {
      hide SameBelow, Chained, Intact, Contents, AlwaysIntact, OnlyLooks, Lawful, IsPlan, SeenOn;
      StartsIntact(start, outer.root, Bundle(outer.intents, verify));
      outer.disk.BeginRun();
      StartsChained(start);
      NoLooksYet(outer.Guard());
      history := [];
      plan := outer.Plan();
      RecordLooks(start, safe, start);
    }

    /** `super().commit()` in dry-run mode. */
    method CommitDry(ghost start: Store, ghost safe: bool) returns (receipt: Receipt)
      requires Valid() && Recorded(start, safe) && outer.planned.Some? && outer.policy.dryRun
      modifies outer, outer.disk, `history
      ensures Valid() && Recorded(start, safe) && outer.planned == old(outer.planned) && outer.intents == old(outer.intents)
      ensures outer.disk.shield == old(outer.disk.shield)
      ensures outer.disk.quiet ==> outer.disk.store == old(outer.disk.store)
    {
      hide SameBelow, Chained, Intact, Contents, AlwaysIntact, OnlyLooks, Lawful, IsPlan, SeenOn, QuietRun, ResultsOk, Unobstructed, OnlyTargetsChanged;
      ghost var first := outer.disk.store;
      receipt := outer.Commit();
      if outer.disk.quiet { QuietLooks(first, outer.disk.trace, outer.disk.store); }
      RecordLooks(start, safe, first);
    }

    /** A ready plan, not a dry run, with something to write. */
    ghost predicate Mutates()
      reads outer
    {
      outer.planned.Some? && outer.planned.value.Ready() && !outer.policy.dryRun && AnyMutating(outer.planned.value.entries)
    }

    /** Nothing on the disk and nothing among the intents keeps the bundle from its place. */
    ghost predicate Placeable(store: Store)
      reads outer, outer.disk
    {
      outer.disk.quiet && NoneBelowAnother(Below(outer.intents)) && Vacant(store, outer.root) && ClearPath(store, outer.root)
    }

    /** Nothing keeps the bundle from being published. */
    ghost predicate Publishes(store: Store)
      reads outer, outer.disk
    {
      Placeable(store) && Accepts(verify, Below(outer.intents))
    }
  }

  /** The root itself as a destination beside an ordinary one, on an empty disk with a loader that accepts
      everything: the receipt says the commit passed. If the root was required, nothing is published; if it
      was optional, only the other file is, though the receipt calls both written. */
  method RootDestinationPassesUnpublished(hash: HashFn, required: bool) returns (receipt: Option<Receipt>, left: Files)
    ensures receipt.Some? && receipt.value.status == Passed
    ensures required ==> receipt.value.results == [] && left == map[]
    ensures !required ==> left == map[["a"] := "y"]
    ensures !required ==> |receipt.value.results| == 2 && forall i :: 0 <= i < 2 ==> receipt.value.results[i].status == Written
  {
    hide IsPlan, Contents, SeenOn, SeenAll, Chained, AlwaysIntact, Intact, OnlyLooks, SameBelow, HoldsExactly, Below, RootRequired, Vacant, ClearPath,
      NoneBelowAnother, Accepts, LeftByPass, Permits, BundleKinds, AllCommitted, AllFailed, AllSkipped;
    var root: Path := ["bundle"];
    var disk := new Disk(true, map[], {});
    var sink := new PacketBundleOutputSink(disk, root, false, false, hash, _ => true);
    sink.Enqueue(Intent(Artifact("report", [], "human-report", "x"), None, required));
    sink.Enqueue(Intent(Artifact("other", ["a"], "human-report", "y"), None, true));
    ghost var intents := RootBeside(required);
    assert sink.outer.intents == intents;
    EmptyDisk(root, intents);
    RootBesidePermitted(required);
    var plan := sink.outer.Plan();
    EmptyDiskPlan(plan, BundlePolicy(false, false), hash, intents);
    RootBesidePublishes(sink.verify, root, required);
    assert plan.entries[0].action != Skip;
    receipt := sink.Commit();
    left := Contents(disk.store, root);
    LeftOfRootBeside(root, required, sink.verify, disk.store);
  }

  function RootBeside(required: bool): seq<Intent> {
    [Intent(Artifact("report", [], "human-report", "x"), None, required), Intent(Artifact("other", ["a"], "human-report", "y"), None, true)]
  }

  lemma {:induction false} RootBesidePermitted(required: bool)
    ensures Permits(BundlePolicy(false, false), RootBeside(required))
  {
    assert "human-report" in BundleKinds();
    hide BundleKinds;
    var intents := RootBeside(required);
    assert TotalBytes(intents[1..]) == 1 && TotalBytes(intents) == 2;
    forall d ensures Allowed(BundlePolicy(false, false), d) { assert BundlePolicy(false, false).allowedRoots[0] <= d; }
  }

  lemma {:induction false} RootBesidePublishes(verify: Files -> bool, root: Path, required: bool)
    requires root == ["bundle"] && forall files :: verify(files)
    ensures NoneBelowAnother(Below(RootBeside(required))) && Accepts(verify, Below(RootBeside(required)))
    ensures Vacant(map[], root) && ClearPath(map[], root)
  {
  }

  lemma {:induction false} LeftOfRootBeside(root: Path, required: bool, verify: Files -> bool, now: Store)
    requires LeftByPass(map[], root, Bundle(RootBeside(required), verify), now)
    ensures RootRequired(RootBeside(required)) <==> required
    ensures Contents(now, root) == if required then map[] else map[["a"] := "y"]
  {
    var intents := RootBeside(required);
    if required {
      assert intents[0].required && intents[0].artifact.destination == [];
      SameContents(map[], now, root);
      ContentsPointwise(map[], root, map[]);
    } else {
      assert intents[1..] == [intents[1]] && intents[1..][1..] == [];
      assert Below([]) == [] && Below([intents[1]]) == [intents[1]];
      assert Below(intents) == [intents[1]];
    }
  }

  /** A bundle in place is planned for reuse, and another process empties the root before the commit: the
      receipt still says the commit passed, for the reuse path looks no further than the plan. */
  method EmptiedBundlePasses(hash: HashFn) returns (receipt: Option<Receipt>, left: Files)
    ensures receipt.Some? && receipt.value.status == Passed && left == map[]
    ensures |receipt.value.results| == 1 && receipt.value.results[0].message == Planned(Unchanged)
  {
    hide IsPlan, Contents, SeenOn, Chained, AlwaysIntact, Intact, OnlyLooks, SameBelow, HoldsExactly, Below, RootRequired, Vacant, ClearPath,
      NoneBelowAnother, Accepts, LeftByPass, BundleKinds, AllFailed, AllCommitted, RequiredHeld;
    var root: Path := ["bundle"];
    var disk := new Disk(true, map[root := Dir, root + ["a"] := File("x")], {});
    var sink := new PacketBundleOutputSink(disk, root, false, false, hash, _ => true);
    sink.Enqueue(Intent(Artifact("report", ["a"], "human-report", "x"), None, true));
    ghost var intents := OneFile();
    assert sink.outer.intents == intents;
    var plan := sink.outer.Plan();
    OneFileReused(plan, hash, root, disk.store);
    disk.store := map[];
    receipt := sink.Commit();
    left := Contents(disk.store, root);
    NothingBelow(root);
  }

  function OneFile(): seq<Intent> { [Intent(Artifact("report", ["a"], "human-report", "x"), None, true)] }

  lemma {:induction false} OneFileReused(plan: WritePlan, hash: HashFn, root: Path, store: Store)
    requires store == map[root := Dir, root + ["a"] := File("x")]
    requires IsPlan(plan, BundlePolicy(false, false), hash, OneFile(), SeenOn(store, root, OneFile()))
    ensures plan.Ready() && !AnyMutating(plan.entries) && |plan.entries| == 1 && plan.entries[0].reason == Unchanged
    ensures AllSkipped(plan.entries) == [Outcome(plan.entries[0], Skipped, Planned(Unchanged))]
  {
    assert "human-report" in BundleKinds();
    hide BundleKinds, AllSkipped;
    var policy, intents, seen := BundlePolicy(false, false), OneFile(), SeenOn(store, root, OneFile());
    assert seen[0] == Regular("x");
    assert Allowed(policy, ["a"]) by { assert policy.allowedRoots[0] <= ["a"]; }
    assert TotalBytes(intents) == 1 && Limits(policy, intents) == {};
    assert IssuesAt(policy, hash, intents, seen, 0) == {};
    assert IssuesUpTo(policy, hash, intents, seen, 0) == {};
    OneSkipped(plan.entries);
  }

  lemma {:induction false} OneSkipped(entries: seq<Entry>)
    requires |entries| == 1
    ensures AllSkipped(entries) == [Outcome(entries[0], Skipped, Planned(entries[0].reason))]
  {
    assert AllSkipped(entries[1..]) == [];
  }

  lemma {:induction false} NothingBelow(root: Path)
    ensures Contents(map[], root) == map[]
  {
    ContentsPointwise(map[], root, map[]);
  }

  lemma {:induction false} StartsIntact(start: Store, root: Path, bundle: Bundle)
    ensures Intact(start, root, bundle, start) && AlwaysIntact(start, root, bundle, [])
  {
  }

  lemma {:induction false} LooksKeepRoot(guard: set<Path>, quiet: bool, shield: set<Path>, first: Store, run: seq<Event>, last: Store, root: Path)
    requires OnlyLooks(guard, run) && Chained(first, run, last) && root != []
    requires guard == (if quiet then {[]} else shield) && (quiet || Shielded(shield, root))
    ensures UntouchedBelow(first, run, root) && SameBelow(first, last, root)
  {
    hide Lawful, Chained, RootOnly, OutOfTheWay, SameBelow, OnlyLooks;
    var hash: HashFn := s => s;
    var policy := BundlePolicy(false, false);
    var ctx := RootOnly(policy, hash, root, guard);
    BeginsRootOnly(policy, hash, root, guard);
    LooksAreLawful(ctx, run);
    ShieldedByGuard(guard, quiet, shield, root);
    RunKeepsRoot(ctx, first, run, last, root);
  }

  lemma {:induction false} BeginsRootOnly(policy: Policy, hash: HashFn, root: Path, guard: set<Path>)
    ensures var ctx := RootOnly(policy, hash, root, guard);
      Lawful(ctx, []) && ctx.guard == guard && ctx.root == root && ctx.Above(root) && forall p :: root <= p ==> OutOfTheWay(ctx, p)
  {
    RootOnlyKeepsRoot(RootOnly(policy, hash, root, guard), root);
  }

  lemma {:induction false} StillClear(a: Store, b: Store, root: Path)
    requires ClearPath(a, root) && ChangedOnlyFor(a, b, root)
    ensures ClearPath(b, root)
  {
    forall n | 0 < n < |root| && root[..n] in b ensures b[root[..n]] == Dir {
      assert root[..n] < root;
      assert SameAt(a, b, root[..n]) || IsDir(b, root[..n]);
    }
  }

  lemma {:induction false} SameAtRoot(a: Store, b: Store, root: Path)
    requires SameBelow(a, b, root)
    ensures SameAt(a, b, root)
  {
    assert root <= root;
  }

  lemma {:induction false} VacantMeansAbsent(store: Store, root: Path)
    ensures Vacant(store, root) ==> root !in store
  {
    assert root <= root;
  }

  lemma {:induction false} StagingClear(made: Store, staged: Store, root: Path, staging: Path)
    requires ClearPath(made, root) && ParentIsDir(made, root) && Beside(staging, root) && staging != root && staged == made[staging := Dir]
    ensures ClearPath(staged, staging) && ParentIsDir(staged, root)
  {
    forall n | 0 < n < |staging| && staging[..n] in staged ensures staged[staging[..n]] == Dir {
      assert staging[..n] == root[..n];
    }
  }

  /** The owning loader accepts every bundle holding exactly the intents' files. */
  ghost predicate Accepts(verify: Files -> bool, intents: seq<Intent>) {
    forall files :: HoldsExactly(files, intents) ==> verify(files)
  }

  /** The owning loader refuses every bundle holding exactly the files of the intents below the root. */
  ghost predicate Refused(verify: Files -> bool, intents: seq<Intent>) {
    forall files :: HoldsExactly(files, Below(intents)) ==> !verify(files)
  }

  lemma {:induction false} BundlePublished(bundle: Bundle, files: Files)
    ensures bundle.Published(files) <==> HoldsExactly(files, Below(bundle.intents)) && bundle.verify(files)
  {
  }

  /** One step that leaves the root alone or puts the accepted bundle there. */
  lemma {:induction false} PlacedIntact(
      start: Store, root: Path, bundle: Bundle, before: Store, mid: Store, after: Store, run: seq<Event>, ok: bool)
    requires Intact(start, root, bundle, before) && SameBelow(before, mid, root)
    requires if ok then root !in start && bundle.Published(Contents(after, root)) else after == mid
    requires forall k :: 0 <= k < |run| ==> run[k].before in {before, mid} && run[k].after in {mid, after}
    ensures Intact(start, root, bundle, after) && AlwaysIntact(start, root, bundle, run)
  {
    hide SameBelow, Intact, AlwaysIntact, Contents, Bundle.Published;
    IntactStays(start, root, bundle, before, mid);
    if ok { AppearsIntact(start, root, bundle, after); }
    RunIsIntact(start, root, bundle, run, {before, mid, after});
  }

  lemma {:induction false} RenamePossible(store: Store, staging: Path, root: Path)
    requires !(staging <= root)
    ensures IsDir(store, staging) && Vacant(store, root) && ParentIsDir(store, root) ==> Apply(RenameTree(staging, root), store).Some?
  {
    hide Renamed, ParentIsDir;
  }

  lemma {:induction false} RenamedIs(before: Store, after: Store, staging: Path, root: Path)
    requires Apply(RenameTree(staging, root), before) == Some(after)
    ensures after == Renamed(before, staging, root)
  {
    hide Renamed, ParentIsDir, Replaceable;
  }

  lemma {:induction false} RefusedIsNotPublished(bundle: Bundle, files: Files)
    requires Refused(bundle.verify, bundle.intents)
    ensures !bundle.Published(files)
  {
  }

  /** What the loader refuses never appears. */
  lemma {:induction false} RefusedIsUntouched(start: Store, root: Path, bundle: Bundle, run: seq<Event>, now: Store)
    requires AlwaysIntact(start, root, bundle, run) && Intact(start, root, bundle, now) && Refused(bundle.verify, bundle.intents)
    ensures UntouchedBelow(start, run, root) && SameBelow(start, now, root)
  {
    hide SameBelow, Refused, Bundle.Published;
    forall files ensures !bundle.Published(files) { RefusedIsNotPublished(bundle, files); }
  }

  lemma {:induction false} NeverPasses(start: Store, root: Path, bundle: Bundle, now: Store)
    requires Refused(bundle.verify, bundle.intents)
    ensures LeftByPass(start, root, bundle, now) ==> RootRequired(bundle.intents)
  {
    hide SameBelow, RootRequired, Contents;
  }

  lemma {:induction false} StagedSame(shield: set<Path>, a: Store, b: Store, staging: Path)
    requires Spares(shield, a, b) && Shielded(shield, staging)
    ensures Contents(a, staging) == Contents(b, staging) && SameAt(a, b, staging)
  {
    forall p | staging <= p ensures SameAt(a, b, p) {
      ShieldCovers(shield, staging, p);
      SparedAt(shield, a, b, p);
    }
    assert staging <= staging;
    SameContents(a, b, staging);
  }

  lemma {:induction false} AppearsIntact(start: Store, root: Path, bundle: Bundle, now: Store)
    requires root !in start && bundle.Published(Contents(now, root))
    ensures Intact(start, root, bundle, now)
  {
  }

  lemma {:induction false} StillVacant(a: Store, b: Store, root: Path)
    requires SameBelow(a, b, root) && Vacant(a, root)
    ensures Vacant(b, root)
  {
    forall p | root <= p ensures p !in b { assert SameAt(a, b, p); }
  }

  /** What a staging receipt that did not pass is reported as: a failed one as failed, but a blocked one,
      which has no results, as passed. */
  lemma {:induction false} BlockedOrFailed(plan: WritePlan, staged: Receipt)
    requires staged.status != Passed
    requires staged.status == Blocked ==> staged.results == []
    requires staged.status == CommitFailed ==> !NoFailure(staged.results)
    requires plan.Ready()
    ensures MakeReceipt(plan, staged.results).status == if staged.status == Blocked then Passed else CommitFailed
  {
  }

  lemma {:induction false} CommittedPasses(plan: WritePlan)
    requires plan.Ready()
    ensures MakeReceipt(plan, AllCommitted(plan.entries)).status == Passed && MakeReceipt(plan, []).status == Passed
  {
  }

  lemma {:induction false} StillSameBelow(a: Store, b: Store, c: Store, root: Path)
    requires SameBelow(a, b, root) && SameBelow(b, c, root)
    ensures SameBelow(a, c, root)
  {
    SameBelowTransitive(a, b, c, root, []);
  }

  lemma {:induction false} AllFailedFails(plan: WritePlan)
    requires plan.Ready() && AnyMutating(plan.entries)
    ensures MakeReceipt(plan, AllFailed(plan.entries, SystemError)).status == CommitFailed
    ensures MakeReceipt(plan, AllFailed(plan.entries, AlreadyExists)).status == CommitFailed
  {
    assert AllFailed(plan.entries, SystemError)[0].status == Failed;
    assert AllFailed(plan.entries, AlreadyExists)[0].status == Failed;
  }

  /** No intent's destination lies below another's. */
  ghost predicate NoneBelowAnother(intents: seq<Intent>) {
    forall x, y :: x in intents && y in intents ==> !(x.artifact.destination < y.artifact.destination)
  }

  lemma {:induction false} ShieldedByGuard(guard: set<Path>, quiet: bool, shield: set<Path>, p: Path)
    requires guard == if quiet then {[]} else shield
    requires quiet || Shielded(shield, p)
    ensures Shielded(guard, p)
  {
    if quiet { assert [] in guard && [] <= p; }
  }

  lemma {:induction false} StagingSucceeds(
      ctx: Context, plan: WritePlan, inner: WritePlan, bundle: Policy, intents: seq<Intent>, seen: seq<Seen>, before: Store, after: Store,
      root: Path, receipt: Receipt)
    requires bundle == BundlePolicy(bundle.dryRun, bundle.allowOverwrite) && ctx.policy == StagingPolicy(bundle)
    requires IsPlan(plan, bundle, ctx.hash, intents, seen) && plan.Ready() && !RootRequired(intents) && NoneBelowAnother(Below(intents))
    requires IsPlan(inner, ctx.policy, ctx.hash, intents, FreshView(intents)) && ctx.entries == inner.entries
    requires ClearPath(before, ctx.root) && IsDir(before, ctx.root) && Contents(before, ctx.root) == map[]
    requires forall p :: p in before && ctx.root <= p ==> p == ctx.root
    requires Beside(ctx.root, root) && ParentIsDir(before, root)
    requires inner.Ready() && Unobstructed(ctx, before) ==>
      OnlyTargetsChanged(ctx, before, after) && receipt == MakeReceipt(inner, receipt.results)
      && receipt.results == QuietRun(ctx.policy, ctx.hash, Contents(before, ctx.root), inner.entries).results
    ensures receipt.status == Passed && IsDir(after, ctx.root) && ParentIsDir(after, root)
  {
    hide IsPlan, QuietRun, MemoryRun, Contents, HoldsExactly, FreshView, Unobstructed, OnlyTargetsChanged, RootRequired, ClearPath, NoneBelowAnother,
      Below, DecidedFrom;
    StagingNotBlocked(plan, inner, bundle, ctx.hash, intents, seen);
    FreshPlanCreates(inner, ctx.policy, ctx.hash, intents);
    StagingUnobstructed(ctx, intents, before);
    FreshRunHoldsExactly(ctx.policy, ctx.hash, intents, inner);
    MemoryNeverFails(ctx.policy, map[], inner.entries);
    StagingRemains(ctx, intents, before, after, root);
  }

  lemma {:induction false} StagingNotBlocked(
      plan: WritePlan, inner: WritePlan, bundle: Policy, hash: HashFn, intents: seq<Intent>, seen: seq<Seen>)
    requires bundle == BundlePolicy(bundle.dryRun, bundle.allowOverwrite)
    requires IsPlan(plan, bundle, hash, intents, seen) && plan.Ready()
    requires IsPlan(inner, StagingPolicy(bundle), hash, intents, FreshView(intents))
    ensures inner.Ready() <==> !RootRequired(intents)
  {
    hide IsPlan, FreshView;
    StagingReadyExactlyWhen(plan, inner, bundle.dryRun, bundle.allowOverwrite, hash, intents, seen);
  }

  lemma {:induction false} StagingUnobstructed(ctx: Context, intents: seq<Intent>, store: Store)
    requires NoneBelowAnother(Below(intents)) && |ctx.entries| == |intents|
    requires forall i :: 0 <= i < |intents| ==>
      ctx.entries[i].intent == intents[i] && ctx.entries[i].action == if intents[i].artifact.destination == [] then Skip else Create
    requires ClearPath(store, ctx.root) && IsDir(store, ctx.root)
    requires forall p :: p in store && ctx.root <= p ==> p == ctx.root
    ensures Unobstructed(ctx, store)
  {
    forall i | 0 <= i < |ctx.entries| && ctx.entries[i].action != Skip
      ensures Open(store, ctx.Target(ctx.entries[i])) && ctx.entries[i].intent in Below(intents)
    {
      var t := ctx.Target(ctx.entries[i]);
      assert |t| > |ctx.root|;
      assert intents[i] in intents;
      forall n | 0 < n < |t| && t[..n] in store ensures store[t[..n]] == Dir {
        if n < |ctx.root| { assert t[..n] == ctx.root[..n]; } else { assert ctx.root <= t[..n]; }
      }
      assert ctx.root <= t;
    }
  }

  lemma {:induction false} StagingRemains(ctx: Context, intents: seq<Intent>, before: Store, after: Store, root: Path)
    requires OnlyTargetsChanged(ctx, before, after) && |ctx.entries| == |intents|
    requires forall i :: 0 <= i < |intents| ==>
      ctx.entries[i].intent == intents[i] && ctx.entries[i].action == if intents[i].artifact.destination == [] then Skip else Create
    requires IsDir(before, ctx.root) && Beside(ctx.root, root) && ParentIsDir(before, root)
    ensures IsDir(after, ctx.root) && ParentIsDir(after, root)
  {
    forall i, p | 0 <= i < |ctx.entries| && p in before && p <= ctx.root ensures !MayChange(ctx, before, after, i, p) {
      assert ctx.entries[i].action != Skip ==> |ctx.Target(ctx.entries[i])| > |ctx.root|;
    }
    assert SameAt(before, after, ctx.root);
    if |root| > 1 {
      var parent := root[..|root| - 1];
      assert parent <= ctx.root;
      assert SameAt(before, after, parent);
    }
  }

  /** An effect that touches nothing at or below the root. */
  ghost predicate Aside(effect: Effect, root: Path) {
    effect.Look? || ((effect.MakeStaging? || effect.RemoveTree?) && Beside(effect.at, root) && effect.at != root)
  }

  lemma {:induction false} AsideKeepsRoot(effect: Effect, before: Store, mid: Store, after: Store, root: Path, ok: bool)
    requires Aside(effect, root) && SameBelow(before, mid, root)
    requires if ok then Apply(effect, mid) == Some(after) else after == mid
    ensures SameBelow(before, after, root)
  {
    forall p | root <= p ensures SameAt(before, after, p) {
      assert SameAt(before, mid, p);
      if !effect.Look? && effect.at <= p { Apart(effect.at, root, p); }
    }
  }

  lemma {:induction false} RunIsIntact(start: Store, root: Path, bundle: Bundle, run: seq<Event>, stores: set<Store>)
    requires forall s :: s in stores ==> Intact(start, root, bundle, s)
    requires forall k :: 0 <= k < |run| ==> run[k].before in stores && run[k].after in stores
    ensures AlwaysIntact(start, root, bundle, run)
  {
    hide Intact;
  }

  lemma {:induction false} JoinHistory(
      start: Store, root: Path, bundle: Bundle, history: seq<Event>, mid: Store, run: seq<Event>, last: Store, safe: bool)
    requires Chained(start, history, mid) && Chained(mid, run, last)
    requires safe ==> AlwaysIntact(start, root, bundle, history) && AlwaysIntact(start, root, bundle, run)
    ensures Chained(start, history + run, last)
    ensures safe ==> AlwaysIntact(start, root, bundle, history + run)
  {
    hide Chained, AlwaysIntact;
    ChainedJoins(start, history, mid, run, last);
    if safe { AlwaysIntactJoins(start, root, bundle, history, run); }
  }

  lemma {:induction false} ShieldedBefore(shield: set<Path>, staging: Path, root: Path)
    requires Shielded(shield + {staging}, root) && Beside(staging, root) && staging != root
    ensures Shielded(shield, root)
  {
    NotAbove(staging, root);
    var s :| s in shield + {staging} && s <= root;
    assert s in shield;
  }

  lemma {:induction false} NotAbove(p: Path, q: Path)
    requires |p| == |q| && p != q
    ensures !(p <= q)
  {
  }

  lemma {:induction false} FreeDirectoryExists(store: Store, root: Path)
    requires root != []
    ensures exists name: string :: Vacant(store, root[..|root| - 1] + [name]) && root[..|root| - 1] + [name] != root
  {
    var n := |root|;
    var taken := {root} + set p | p in store && |p| >= n :: p[..n];
    FreeNameExists(taken, root[..n - 1]);
    var name: string :| root[..n - 1] + [name] !in taken;
    var free := root[..n - 1] + [name];
    assert forall p :: p in store && |p| >= n ==> p[..n] in taken;
    forall p | p in store ensures !(free <= p) {
      PrefixIs(free, p);
    }
  }

  lemma {:induction false} PrefixIs(q: Path, p: Path)
    ensures q <= p <==> |p| >= |q| && p[..|q|] == q
  {
  }
}
