/** When the filesystem sink and the memory sink agree, on a disk where nothing interferes and nothing
    fails of itself; and that committing the same intents again finds nothing to do. */
module SinkRefinement {
  import opened Wrappers
  import opened WritePlans
  import opened Disks
  import opened MemorySink
  import opened FileSystemSink

  /** Every destination is below the root, none is a directory, no directory is missing but can be
      made, and none lies below another. */
  ghost predicate Reachable(store: Store, root: Path, intents: seq<Intent>) {
    && (forall i :: 0 <= i < |intents| ==> Open(store, root + intents[i].artifact.destination))
    && (forall i, j :: 0 <= i < |intents| && 0 <= j < |intents| ==> !(intents[i].artifact.destination < intents[j].artifact.destination))
  }

  lemma {:induction false} PlanIsUnique(a: WritePlan, b: WritePlan, policy: Policy, hash: HashFn, intents: seq<Intent>, seen: seq<Seen>)
    requires IsPlan(a, policy, hash, intents, seen) && IsPlan(b, policy, hash, intents, seen)
    ensures a == b
  {
    assert a.entries == b.entries;
  }

  /** Where no destination is a directory, the disk shows what memory holding the same files shows. */
  lemma {:induction false} SameView(store: Store, root: Path, intents: seq<Intent>)
    requires forall i :: 0 <= i < |intents| ==> !IsDir(store, root + intents[i].artifact.destination)
    ensures SeenOn(store, root, intents) == SeenAll(Contents(store, root), intents)
  {
    hide Contents;
    var on, all := SeenOn(store, root, intents), SeenAll(Contents(store, root), intents);
    forall i | 0 <= i < |intents| ensures on[i] == all[i] {
      SeenBelow(store, root, intents[i].artifact.destination);
    }
  }

  lemma {:induction false} PlannedFromFiles(plan: WritePlan, policy: Policy, hash: HashFn, intents: seq<Intent>, files: Files)
    requires IsPlan(plan, policy, hash, intents, SeenAll(files, intents))
    ensures DecidedFrom(policy, hash, files, plan.entries)
    ensures forall i :: 0 <= i < |intents| ==> plan.entries[i].intent == intents[i]
  {
    hide Decide, SeenAll, SeenIn, TotalBytes, IssuesUpTo;
    forall i | 0 <= i < |intents| ensures plan.entries[i].intent == intents[i] {
      DecidedIntent(policy, hash, intents[i], SeenAll(files, intents)[i]);
    }
  }

  lemma {:induction false} DecidedIntent(policy: Policy, hash: HashFn, intent: Intent, seen: Seen)
    ensures Decide(policy, hash, intent, seen).intent == intent
  {
  }

  lemma {:induction false} ReadyMeansNoSharing(plan: WritePlan, policy: Policy, hash: HashFn, intents: seq<Intent>, seen: seq<Seen>)
    requires IsPlan(plan, policy, hash, intents, seen) && plan.Ready() && policy.rejectCollisions
    ensures NoSharing(plan.entries)
  {
    OnlyOneDestination(plan, policy, hash, intents, seen);
  }

  lemma {:induction false} DryRunsAgree(policy: Policy, hash: HashFn, files: Files, entries: seq<Entry>)
    requires policy.dryRun
    ensures QuietRun(policy, hash, files, entries) == MemoryRun(policy, files, entries) && MemoryRun(policy, files, entries).files == files
    decreases |entries|
  {
    if entries != [] { DryRunsAgree(policy, hash, files, entries[..|entries| - 1]); }
  }

  /** A ready plan made from these files: revalidating or not makes no difference. */
  lemma {:induction false} RunsAgree(plan: WritePlan, policy: Policy, hash: HashFn, intents: seq<Intent>, files: Files)
    requires IsPlan(plan, policy, hash, intents, SeenAll(files, intents)) && plan.Ready() && policy.rejectCollisions
    ensures QuietRun(policy, hash, files, plan.entries) == MemoryRun(policy, files, plan.entries)
  {
    if policy.dryRun {
      DryRunsAgree(policy, hash, files, plan.entries);
    } else {
      PlannedFromFiles(plan, policy, hash, intents, files);
      ReadyMeansNoSharing(plan, policy, hash, intents, SeenAll(files, intents));
      QuietIsMemoryExactlyWithoutSharing(policy, hash, files, plan.entries);
    }
  }

  lemma {:induction false} ReachableIsUnobstructed(store: Store, ctx: Context, intents: seq<Intent>)
    requires Reachable(store, ctx.root, intents) && |ctx.entries| == |intents|
    requires forall i :: 0 <= i < |intents| ==> ctx.entries[i].intent == intents[i]
    ensures Unobstructed(ctx, store)
  {
    hide Open;
    forall i | 0 <= i < |ctx.entries| ensures Open(store, ctx.Target(ctx.entries[i])) {
      assert ctx.Target(ctx.entries[i]) == ctx.root + intents[i].artifact.destination;
    }
  }

  /** What a plan writes was decided from the regular files below the root. */
  lemma {:induction false} PlannedFromDisk(plan: WritePlan, policy: Policy, hash: HashFn, intents: seq<Intent>, store: Store, root: Path)
    requires IsPlan(plan, policy, hash, intents, SeenOn(store, root, intents))
    ensures DecidedFrom(policy, hash, Contents(store, root), plan.entries)
    ensures forall i :: 0 <= i < |intents| ==> plan.entries[i].intent == intents[i]
  {
    hide TotalBytes, IssuesUpTo, Contents, SeenIn, HashOf;
    var seen := SeenOn(store, root, intents);
    forall i | 0 <= i < |intents|
      ensures plan.entries[i].intent == intents[i]
      ensures plan.entries[i].action != Skip ==>
        plan.entries[i] == Decide(policy, hash, intents[i], SeenIn(Contents(store, root), intents[i].artifact.destination))
    {
      SeenBelow(store, root, intents[i].artifact.destination);
    }
  }

  lemma {:induction false} MemoryNeverFails(policy: Policy, files: Files, entries: seq<Entry>)
    ensures NoFailure(MemoryRun(policy, files, entries).results)
    decreases |entries|
  {
    if entries != [] { MemoryNeverFails(policy, files, entries[..|entries| - 1]); }
  }

  lemma {:induction false} DryMeansSkipped(ctx: Context, run: seq<Event>, results: seq<CommitResult>, certain: bool)
    requires ctx.policy.dryRun && ResultsOk(ctx, run, results, certain)
    ensures NoFailure(results)
  {
    hide Delivered;
    forall k | 0 <= k < |results| ensures results[k].status != Failed {
      assert ResultOk(ctx, run, ctx.entries[k], results[k], certain);
    }
  }

  lemma {:induction false} NoFailurePasses(plan: WritePlan, results: seq<CommitResult>)
    ensures plan.Ready() && NoFailure(results) <==> MakeReceipt(plan, results).status == Passed
  {
  }

  /** What is reported as skipped is what the plan skips, or everything in a dry run. */
  ghost predicate SkipsReported(policy: Policy, entries: seq<Entry>, results: seq<CommitResult>) {
    |results| == |entries| && forall k :: 0 <= k < |results| ==> (results[k].status == Skipped <==> policy.dryRun || entries[k].action == Skip)
  }

  lemma {:induction false} ResultsReportSkips(ctx: Context, run: seq<Event>, results: seq<CommitResult>, certain: bool)
    requires ResultsOk(ctx, run, results, certain) && |results| == |ctx.entries|
    ensures SkipsReported(ctx.policy, ctx.entries, results)
  {
    hide Delivered;
    forall k | 0 <= k < |results| ensures results[k].status == Skipped <==> ctx.policy.dryRun || ctx.entries[k].action == Skip {
      assert ResultOk(ctx, run, ctx.entries[k], results[k], certain);
    }
  }

  /** Commit on a quiet disk. The results and the files left are those of a memory run of the plan exactly
      when no two entries write one destination and nothing is in the way: no file stands where a directory
      is needed, and no destination to be written lies below another. */
  method CommitQuietly(sink: FileSystemOutputSink) returns (receipt: Receipt)
    requires sink.Valid() && sink.planned == None && sink.disk.quiet
    modifies sink, sink.disk
    ensures sink.Valid() && sink.planned.Some? && sink.intents == old(sink.intents)
    ensures sink.plannedFrom == SeenOn(old(sink.disk.store), sink.root, sink.intents)
    ensures !sink.planned.value.Ready() ==> receipt == MakeReceipt(sink.planned.value, []) && sink.disk.store == old(sink.disk.store)
    ensures sink.planned.value.Ready() ==>
      receipt == MakeReceipt(sink.planned.value, receipt.results) && OnlyTargetsChanged(sink.PlanContext(), old(sink.disk.store), sink.disk.store)
    ensures sink.planned.value.Ready() ==> SkipsReported(sink.policy, sink.planned.value.entries, receipt.results)
    ensures sink.planned.value.Ready() && sink.policy.dryRun ==>
      Run(Contents(sink.disk.store, sink.root), receipt.results)
        == MemoryRun(sink.policy, Contents(old(sink.disk.store), sink.root), sink.planned.value.entries)
    ensures sink.planned.value.Ready() && !sink.policy.dryRun ==>
      (Run(Contents(sink.disk.store, sink.root), receipt.results)
         == MemoryRun(sink.policy, Contents(old(sink.disk.store), sink.root), sink.planned.value.entries)
       <==> NoSharing(sink.planned.value.entries) && Unobstructed(sink.PlanContext(), old(sink.disk.store)))
    ensures sink.planned.value.Ready() && !sink.policy.dryRun && receipt.status == Passed ==>
      Unobstructed(sink.PlanContext(), old(sink.disk.store))
  {
    hide Contents, IsPlan, MemoryRun, QuietRun, Unobstructed, OnlyTargetsChanged, ResultsOk, Lawful, Chained, NoSharing, SeenOn, OnlyLooks, NoFailure,
      DecidedFrom, MakeReceipt, SkipsReported;
    ghost var store := sink.disk.store;
    receipt := sink.Commit();
    ghost var plan, files, certain := sink.planned.value, Contents(store, sink.root), sink.policy.atomicWrites || sink.Isolated();
    NoFailurePasses(plan, receipt.results);
    PlanLength(plan, sink.policy, sink.hash, sink.intents, sink.plannedFrom);
    if plan.Ready() {
      ResultsReportSkips(sink.PlanContext(), sink.disk.trace, receipt.results, certain);
      PlannedFromDisk(plan, sink.policy, sink.hash, sink.intents, store, sink.root);
      if sink.policy.dryRun {
        DryMeansSkipped(sink.PlanContext(), sink.disk.trace, receipt.results, certain);
        DryRunsAgree(sink.policy, sink.hash, files, plan.entries);
      } else {
        MemoryNeverFails(sink.policy, files, plan.entries);
        QuietIsMemoryExactlyWithoutSharing(sink.policy, sink.hash, files, plan.entries);
      }
    }
  }

  ghost predicate NoDirectoryAt(store: Store, root: Path, intents: seq<Intent>) {
    forall i :: 0 <= i < |intents| ==> !IsDir(store, root + intents[i].artifact.destination)
  }

  /** Memory, which has no directories, plans no fewer writes and reports no more issues than the disk
      that holds the same files; where a destination is a directory the plans differ. */
  lemma {:induction false} MemoryOverlooksDirectories(
      m: WritePlan, f: WritePlan, policy: Policy, hash: HashFn, intents: seq<Intent>, store: Store, root: Path)
    requires IsPlan(m, policy, hash, intents, SeenAll(Contents(store, root), intents))
    requires IsPlan(f, policy, hash, intents, SeenOn(store, root, intents))
    ensures f.Ready() ==> m.Ready()
    ensures forall i :: 0 <= i < |intents| && IsDir(store, root + intents[i].artifact.destination) ==>
      m.entries[i].action == Create && f.entries[i].action == Skip
  {
    hide TotalBytes, IssuesUpTo, Contents, SeenIn, Limits;
    var on, all := SeenOn(store, root, intents), SeenAll(Contents(store, root), intents);
    forall i | 0 <= i < |intents|
      ensures IssuesAt(policy, hash, intents, all, i) <= IssuesAt(policy, hash, intents, on, i)
      ensures IsDir(store, root + intents[i].artifact.destination) ==> m.entries[i].action == Create && f.entries[i].action == Skip
    {
      var d := intents[i].artifact.destination;
      SeenBelow(store, root, d);
      if IsDir(store, root + d) { DirectoryUnseen(store, root, d); }
    }
    IssuesShrink(policy, hash, intents, on, all, |intents|);
  }

  lemma {:induction false} DirectoryUnseen(store: Store, root: Path, d: Path)
    requires IsDir(store, root + d)
    ensures SeenIn(Contents(store, root), d) == Absent
  {
  }

  /** What memory reports of an entry. */
  lemma {:induction false} MemoryResultAt(policy: Policy, files: Files, entries: seq<Entry>, i: nat)
    requires i < |entries|
    ensures MemoryRun(policy, files, entries).results[i] ==
      if policy.dryRun then Outcome(entries[i], Skipped, DryRun(entries[i].action))
      else if entries[i].action == Skip then Outcome(entries[i], Skipped, Planned(entries[i].reason))
      else Outcome(entries[i], Written, Performed(entries[i].action))
    decreases |entries|
  {
    if i < |entries| - 1 { MemoryResultAt(policy, files, entries[..|entries| - 1], i); }
  }

  /** Nothing on the disk and nothing among the entries themselves keeps the sinks from agreeing. */
  ghost predicate Agreeable(ctx: Context, store: Store, intents: seq<Intent>) {
    NoDirectoryAt(store, ctx.root, intents) && (ctx.policy.dryRun || (NoSharing(ctx.entries) && Unobstructed(ctx, store)))
  }

  lemma {:induction false} ViewWithoutDirectories(store: Store, root: Path, intents: seq<Intent>)
    requires NoDirectoryAt(store, root, intents)
    ensures SeenOn(store, root, intents) == SeenAll(Contents(store, root), intents)
  {
    SameView(store, root, intents);
  }

  lemma {:induction false} DirectoryAmong(store: Store, root: Path, intents: seq<Intent>) returns (i: nat)
    requires !NoDirectoryAt(store, root, intents)
    ensures i < |intents| && IsDir(store, root + intents[i].artifact.destination)
  {
    i :| 0 <= i < |intents| && IsDir(store, root + intents[i].artifact.destination);
  }

  /** An entry that memory writes and the disk skips is reported differently, even by a dry run. */
  lemma {:induction false} DirectoryTellsApart(
      m: WritePlan, f: WritePlan, policy: Policy, files: Files, inMemory: seq<CommitResult>, onDisk: seq<CommitResult>, i: nat)
    requires i < |m.entries| == |f.entries| && m.entries[i].action == Create && f.entries[i].action == Skip
    requires inMemory == MemoryRun(policy, files, m.entries).results && SkipsReported(policy, f.entries, onDisk)
    requires policy.dryRun ==> onDisk == MemoryRun(policy, files, f.entries).results
    ensures inMemory != onDisk
  {
    hide MemoryRun;
    MemoryResultAt(policy, files, m.entries, i);
    MemoryResultAt(policy, files, f.entries, i);
  }

  lemma {:induction false} BlockedReceipts(m: WritePlan, f: WritePlan)
    ensures !m.Ready() && !f.Ready() ==> MakeReceipt(m, []) == MakeReceipt(f, [])
    ensures m.Ready() ==> forall results :: MakeReceipt(m, results) != MakeReceipt(f, []) || f.Ready()
    ensures forall results :: MakeReceipt(m, results).results == results && MakeReceipt(f, results).results == results
  {
  }

  /** Both sinks given the same intents over the same files of a quiet disk: they report the same and leave
      the same files exactly when the plan in memory is blocked or the plan on disk is agreeable. The rest
      of the disk is as it was either way. */
  method CommitBoth(memory: MemoryOutputSink, files: FileSystemOutputSink) returns (inMemory: Receipt, onDisk: Receipt)
    requires memory.Valid() && files.Valid() && memory.planned == None && files.planned == None
    requires memory.policy == files.policy && memory.hash == files.hash && memory.intents == files.intents
    requires files.disk.quiet && memory.storage == Contents(files.disk.store, files.root)
    modifies memory, files, files.disk
    ensures memory.planned.Some? && files.planned.Some?
    ensures onDisk == inMemory && Contents(files.disk.store, files.root) == memory.storage <==>
      !memory.planned.value.Ready() || Agreeable(files.PlanContext(), old(files.disk.store), files.intents)
    ensures memory.planned.value.Ready() && Agreeable(files.PlanContext(), old(files.disk.store), files.intents) ==> memory.planned == files.planned
    ensures OnlyTargetsChanged(files.PlanContext(), old(files.disk.store), files.disk.store)
  {
    hide Contents, IsPlan, MemoryRun, Unobstructed, OnlyTargetsChanged, NoSharing, NoDirectoryAt, SeenOn, SeenAll, MakeReceipt, SkipsReported, Agreeable;
    ghost var store, intents, root := files.disk.store, files.intents, files.root;
    inMemory := memory.Commit();
    onDisk := CommitQuietly(files);
    NothingYet(files.PlanContext(), [], store, true);
    SinksAgreeExactlyWhen(
      memory.planned.value, files.planned.value, files.PlanContext(), intents, store, memory.storage, Contents(files.disk.store, root), inMemory, onDisk);
  }

  lemma {:induction false} SinksAgreeExactlyWhen(
      m: WritePlan, f: WritePlan, ctx: Context, intents: seq<Intent>, store: Store, held: Files, left: Files, inMemory: Receipt, onDisk: Receipt)
    requires IsPlan(m, ctx.policy, ctx.hash, intents, SeenAll(Contents(store, ctx.root), intents))
    requires IsPlan(f, ctx.policy, ctx.hash, intents, SeenOn(store, ctx.root, intents)) && ctx.entries == f.entries
    requires !m.Ready() ==> held == Contents(store, ctx.root) && inMemory == MakeReceipt(m, [])
    requires m.Ready() ==>
      var run := MemoryRun(ctx.policy, Contents(store, ctx.root), m.entries); held == run.files && inMemory == MakeReceipt(m, run.results)
    requires !f.Ready() ==> left == Contents(store, ctx.root) && onDisk == MakeReceipt(f, [])
    requires f.Ready() ==> onDisk == MakeReceipt(f, onDisk.results) && SkipsReported(ctx.policy, f.entries, onDisk.results)
    requires f.Ready() && ctx.policy.dryRun ==> Run(left, onDisk.results) == MemoryRun(ctx.policy, Contents(store, ctx.root), f.entries)
    requires f.Ready() && !ctx.policy.dryRun ==>
      (Run(left, onDisk.results) == MemoryRun(ctx.policy, Contents(store, ctx.root), f.entries) <==> NoSharing(f.entries) && Unobstructed(ctx, store))
    ensures onDisk == inMemory && left == held <==> !m.Ready() || Agreeable(ctx, store, intents)
    ensures m.Ready() && Agreeable(ctx, store, intents) ==> m == f
  {
    hide Contents, IsPlan, MemoryRun, Unobstructed, NoSharing, NoDirectoryAt, SeenOn, SeenAll, MakeReceipt, SkipsReported;
    var before := Contents(store, ctx.root);
    MemoryOverlooksDirectories(m, f, ctx.policy, ctx.hash, intents, store, ctx.root);
    PlanLength(m, ctx.policy, ctx.hash, intents, SeenAll(before, intents));
    PlanLength(f, ctx.policy, ctx.hash, intents, SeenOn(store, ctx.root, intents));
    BlockedReceipts(m, f);
    if NoDirectoryAt(store, ctx.root, intents) {
      ViewWithoutDirectories(store, ctx.root, intents);
      PlanIsUnique(m, f, ctx.policy, ctx.hash, intents, SeenAll(before, intents));
    } else if m.Ready() && f.Ready() {
      var i := DirectoryAmong(store, ctx.root, intents);
      DirectoryTellsApart(m, f, ctx.policy, before, inMemory.results, onDisk.results, i);
    }
  }

  /** Destinations none of which is a directory, lies below another, or has a file where one of its own
      directories is needed are agreeable in a ready plan that rejects collisions. */
  lemma {:induction false} ReachableIsAgreeable(ctx: Context, store: Store, intents: seq<Intent>, plan: WritePlan)
    requires Reachable(store, ctx.root, intents) && ctx.policy.rejectCollisions && ctx.entries == plan.entries && plan.Ready()
    requires IsPlan(plan, ctx.policy, ctx.hash, intents, SeenOn(store, ctx.root, intents))
    ensures Agreeable(ctx, store, intents)
  {
    hide IsPlan, NoSharing, Unobstructed, SeenOn;
    PlannedFromDisk(plan, ctx.policy, ctx.hash, intents, store, ctx.root);
    PlanLength(plan, ctx.policy, ctx.hash, intents, SeenOn(store, ctx.root, intents));
    ReadyMeansNoSharing(plan, ctx.policy, ctx.hash, intents, SeenOn(store, ctx.root, intents));
    ReachableIsUnobstructed(store, ctx, intents);
    assert NoDirectoryAt(store, ctx.root, intents);
  }

  /** Destinations one below the other, and no directory needed elsewhere: memory writes both, and the disk
      fails, although no two entries share a destination. */
  method NestedDestinationsDiffer(memory: MemoryOutputSink, files: FileSystemOutputSink) returns (inMemory: Receipt, onDisk: Receipt)
    requires memory.Valid() && files.Valid() && memory.planned == None && files.planned == None
    requires memory.policy == files.policy && memory.hash == files.hash && memory.intents == files.intents
    requires files.disk.quiet && files.disk.store == map[] && memory.storage == map[]
    requires !files.policy.dryRun && Permits(files.policy, files.intents)
    requires |files.intents| == 2
    requires files.intents[0].artifact.destination == ["a"] && files.intents[1].artifact.destination == ["a", "b"]
    modifies memory, files, files.disk
    ensures files.planned == memory.planned && files.planned.Some? && NoSharing(files.planned.value.entries)
    ensures inMemory.status == Passed && onDisk.status == CommitFailed
  {
    hide IsPlan, MemoryRun, Unobstructed, OnlyTargetsChanged, SeenOn, SeenAll, Permits, Contents, Limits;
    ghost var intents := files.intents;
    EmptyDisk(files.root, intents);
    inMemory := memory.Commit();
    onDisk := CommitQuietly(files);
    ghost var plan := files.planned.value;
    PlanIsUnique(plan, memory.planned.value, files.policy, files.hash, intents, SeenAll(map[], intents));
    EmptyDiskPlan(plan, files.policy, files.hash, intents);
    MemoryNeverFails(files.policy, map[], plan.entries);
    NoFailurePasses(plan, inMemory.results);
    NestedObstructs(files.PlanContext(), map[]);
  }

  /** The policy raises nothing against the intents themselves. */
  ghost predicate Permits(policy: Policy, intents: seq<Intent>) {
    Limits(policy, intents) == {} && forall i :: 0 <= i < |intents| ==>
      intents[i].artifact.kind in policy.allowedKinds && Allowed(policy, intents[i].artifact.destination)
  }

  lemma {:induction false} EmptyDisk(root: Path, intents: seq<Intent>)
    ensures Contents(map[], root) == map[] && SeenOn(map[], root, intents) == SeenAll(map[], intents)
    ensures forall i :: 0 <= i < |intents| ==> SeenAll(map[], intents)[i] == Absent
  {
    ContentsPointwise(map[], root, map[]);
    ViewWithoutDirectories(map[], root, intents);
  }

  lemma {:induction false} EmptyDiskPlan(plan: WritePlan, policy: Policy, hash: HashFn, intents: seq<Intent>)
    requires IsPlan(plan, policy, hash, intents, SeenAll(map[], intents)) && Permits(policy, intents)
    requires |intents| == 2 && intents[0].artifact.destination != intents[1].artifact.destination
    ensures plan.Ready() && |plan.entries| == 2
    ensures forall i :: 0 <= i < 2 ==> plan.entries[i].action == Create && plan.entries[i].intent == intents[i]
  {
    hide *;
    var seen := SeenAll(map[], intents);
    EmptyDisk([], intents);
    TwoDestinations(intents);
    AbsentRaisesNothing(policy, hash, intents, seen, 0);
    AbsentRaisesNothing(policy, hash, intents, seen, 1);
    TwoIssues(plan, policy, hash, intents, seen);
    AbsentCreates(policy, hash, intents[0], seen[0]);
    AbsentCreates(policy, hash, intents[1], seen[1]);
  }

  lemma {:induction false} TwoDestinations(intents: seq<Intent>)
    requires |intents| == 2
    ensures DestinationsBefore(intents, 0) == {} && DestinationsBefore(intents, 1) == {intents[0].artifact.destination}
  {
  }

  lemma {:induction false} TwoIssues(plan: WritePlan, policy: Policy, hash: HashFn, intents: seq<Intent>, seen: seq<Seen>)
    requires IsPlan(plan, policy, hash, intents, seen) && |intents| == 2 && Permits(policy, intents)
    requires IssuesAt(policy, hash, intents, seen, 0) == {} && IssuesAt(policy, hash, intents, seen, 1) == {}
    ensures plan.Ready() && |plan.entries| == 2
    ensures plan.entries[0] == Decide(policy, hash, intents[0], seen[0]) && plan.entries[1] == Decide(policy, hash, intents[1], seen[1])
  {
    hide Limits, Allowed, IssuesAt, Decide;
    assert IssuesUpTo(policy, hash, intents, seen, 1) == {};
  }

  lemma {:induction false} AbsentCreates(policy: Policy, hash: HashFn, intent: Intent, seen: Seen)
    requires seen == Absent
    ensures Decide(policy, hash, intent, seen).action == Create && Decide(policy, hash, intent, seen).intent == intent
  {
  }

  lemma {:induction false} AbsentRaisesNothing(policy: Policy, hash: HashFn, intents: seq<Intent>, seen: seq<Seen>, i: nat)
    requires |seen| == |intents| && i < |intents| && seen[i] == Absent && Permits(policy, intents)
    requires intents[i].artifact.destination !in DestinationsBefore(intents, i)
    ensures IssuesAt(policy, hash, intents, seen, i) == {}
  {
    hide Limits, Allowed, DestinationsBefore;
  }

  lemma {:induction false} NestedObstructs(ctx: Context, store: Store)
    requires |ctx.entries| == 2 && ctx.entries[0].action == ctx.entries[1].action == Create
    requires ctx.entries[0].Destination() == ["a"] && ctx.entries[1].Destination() == ["a", "b"]
    ensures NoSharing(ctx.entries) && !Unobstructed(ctx, store)
  {
    assert ["a"] < ["a", "b"];
    assert ctx.entries[0].Destination() < ctx.entries[1].Destination();
  }

  /** A required intent whose destination is a directory blocks the plan. */
  lemma {:induction false} ReadyRequiredView(plan: WritePlan, policy: Policy, hash: HashFn, intents: seq<Intent>, store: Store, root: Path)
    requires IsPlan(plan, policy, hash, intents, SeenOn(store, root, intents)) && plan.Ready()
    requires forall i :: 0 <= i < |intents| ==> intents[i].required
    ensures SeenOn(store, root, intents) == SeenAll(Contents(store, root), intents)
  {
    hide Contents;
    var seen := SeenOn(store, root, intents);
    forall i | 0 <= i < |intents| ensures !IsDir(store, root + intents[i].artifact.destination) {
      ReadyPlanServesRequired(plan, policy, hash, intents, seen, i);
    }
    SameView(store, root, intents);
  }

  /** After a run that wrote them all, every destination is a regular file. */
  lemma {:induction false} CommittedView(first: WritePlan, policy: Policy, hash: HashFn, intents: seq<Intent>, files: Files, after: Store, root: Path)
    requires !policy.dryRun && policy.rejectCollisions && forall i :: 0 <= i < |intents| ==> intents[i].required
    requires IsPlan(first, policy, hash, intents, SeenAll(files, intents)) && first.Ready()
    requires Contents(after, root) == MemoryRun(policy, files, first.entries).files
    ensures SeenOn(after, root, intents) == SeenAll(Contents(after, root), intents)
  {
    hide MemoryRun, IsPlan;
    forall i | 0 <= i < |intents| ensures !IsDir(after, root + intents[i].artifact.destination) {
      CommittedIsThere(policy, hash, files, intents, first, i);
    }
    SameView(after, root, intents);
  }

  /** Commit required intents, then enqueue, plan and commit the same ones again: nothing is left to do, and
      every step of the second commit is a look. */
  method CommitTwice(sink: FileSystemOutputSink) returns (receipt: Receipt, again: WritePlan, second: Receipt)
    requires sink.Valid() && sink.planned == None && sink.Isolated()
    requires sink.policy.rejectCollisions && !sink.policy.dryRun
    requires forall i :: 0 <= i < |sink.intents| ==> sink.intents[i].required
    modifies sink, sink.disk
    ensures sink.intents == old(sink.intents)
    ensures receipt.status == Passed ==> again.Ready() && |again.entries| == |sink.intents|
    ensures receipt.status == Passed ==>
      forall i :: 0 <= i < |sink.intents| ==> again.entries[i].action == Skip && again.entries[i].reason == Unchanged
    ensures receipt.status == Passed ==> OnlyLooks(sink.Guard(), sink.disk.trace)
    ensures receipt.status == Passed ==>
      second.status == Passed && |second.results| == |sink.intents| && forall i :: 0 <= i < |second.results| ==> second.results[i].status == Skipped
  {
    hide Contents, IsPlan, MemoryRun, QuietRun, Unobstructed, OnlyTargetsChanged, ResultsOk, Lawful, Chained, SeenOn, SeenAll, OnlyLooks, SameBelow,
      SkipsReported;
    ghost var store := sink.disk.store;
    var intents := sink.intents;
    receipt := sink.Commit();
    ghost var first, after := sink.planned.value, sink.disk.store;
    Requeue(sink, intents);
    again := sink.Plan();
    if receipt.status == Passed {
      ghost var files := Contents(store, sink.root);
      ReadyRequiredView(first, sink.policy, sink.hash, intents, store, sink.root);
      RunsAgree(first, sink.policy, sink.hash, intents, files);
      CommittedView(first, sink.policy, sink.hash, intents, files, after, sink.root);
      RecommitSkipsEverything(sink.policy, sink.hash, files, intents, first, again);
      PlanLength(again, sink.policy, sink.hash, intents, sink.plannedFrom);
    }
    second := sink.Commit();
    if receipt.status == Passed {
      ResultsReportSkips(sink.PlanContext(), sink.disk.trace, second.results, sink.policy.atomicWrites || sink.Isolated());
      AllSkippedPasses(again, sink.policy, second.results);
    }
  }

  lemma {:induction false} AllSkippedPasses(plan: WritePlan, policy: Policy, results: seq<CommitResult>)
    requires plan.Ready() && WritesNothing(plan.entries) && SkipsReported(policy, plan.entries, results)
    ensures MakeReceipt(plan, results).status == Passed && forall i :: 0 <= i < |results| ==> results[i].status == Skipped
  {
  }

  method Requeue(sink: FileSystemOutputSink, intents: seq<Intent>)
    requires sink.Valid()
    modifies sink
    ensures sink.Valid() && sink.intents == intents && sink.planned == None
  {
    sink.Clear();
    for i := 0 to |intents|
      invariant sink.Valid() && sink.intents == intents[..i] && sink.planned == None
    {
      sink.Enqueue(intents[i]);
    }
  }
}
