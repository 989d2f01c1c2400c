/** The filesystem sink (io/filesystem_output_sink.py): plan, revalidate, write atomically, under
    interference from other processes. */
module FileSystemSink {
  import opened Wrappers
  import opened WritePlans
  import opened Disks

  /** What a run may do depends on: the paths in `guard`, with everything below them, are left alone by
      every other process. */
  datatype Context = Context(policy: Policy, hash: HashFn, root: Path, guard: set<Path>, entries: seq<Entry>) {
    function Target(entry: Entry): Path { root + entry.Destination() }

    predicate IsTarget(p: Path) {
      exists i :: 0 <= i < |entries| && Target(entries[i]) == p
    }

    /** Some planned target is at or below the path. */
    ghost predicate Above(p: Path) {
      exists i :: 0 <= i < |entries| && p <= Target(entries[i])
    }

    /** The path is in the same directory as a target to be written. */
    ghost predicate BesideTarget(p: Path) {
      exists i :: 0 <= i < |entries| && entries[i].action != Skip && Beside(p, Target(entries[i]))
    }

    /** The entry is planned, for this target, with this action. */
    ghost predicate Plans(entry: Entry, target: Path, action: Action) {
      entry in entries && target == Target(entry) && entry.action == action
    }
  }

  predicate Beside(p: Path, target: Path) {
    |p| == |target| > 0 && p[..|p| - 1] == target[..|target| - 1]
  }

  // ---- What a lawful run may do ----

  ghost predicate Did(history: seq<Event>, effect: Effect) {
    exists k :: 0 <= k < |history| && history[k].actor == Sink(effect)
  }

  /** The effect may alter what is at the path. */
  predicate Touches(effect: Effect, p: Path) {
    match effect
    case Look(_, _) => false
    case Revalidate(_, _, _) => false
    case MakeDir(at) => at == p
    case Stage(temp) => temp == p
    case Fill(temp, _) => temp == p
    case Unlink(temp) => temp == p
    case Link(_, target, _) => target == p
    case Swap(temp, target, _) => temp == p || target == p
    case OpenNew(target, _) => target == p
    case Truncate(target, _) => target == p
    case Write(target, _, _) => target == p
    case _ => true
  }

  /** No step of the sink from `j` on touches the path. */
  ghost predicate AloneFrom(run: seq<Event>, j: nat, p: Path) {
    forall k :: j <= k < |run| && run[k].actor.Sink? ==> !Touches(run[k].actor.effect, p)
  }

  /** The run was continued without the sink touching the path. */
  ghost predicate Leaves(run: seq<Event>, longer: seq<Event>, p: Path) {
    run <= longer && AloneFrom(longer, |run|, p)
  }

  ghost predicate RevalidatedAt(ctx: Context, history: seq<Event>, j: nat, seen: Seen, target: Path, entry: Entry) {
    j < |history| && history[j].actor == Sink(Revalidate(target, entry, seen)) && StaleReasonOf(ctx.hash, entry, seen) == None
    && AloneFrom(history, j + 1, target)
  }

  /** The target was looked at, the planned action was still right for what was seen, and the sink has
      not touched the target since. */
  ghost predicate Revalidated(ctx: Context, history: seq<Event>, target: Path, entry: Entry) {
    exists j: nat, seen :: RevalidatedAt(ctx, history, j, seen, target, entry)
  }

  ghost predicate OwnTemp(ctx: Context, history: seq<Event>, temp: Path) {
    ctx.policy.atomicWrites && !ctx.IsTarget(temp) && Did(history, Stage(temp))
  }

  ghost predicate EffectOk(ctx: Context, history: seq<Event>, before: Store, effect: Effect) {
    match effect
    case Look(_, _) => true
    case Revalidate(_, _, _) => true
    case MakeDir(at) => exists i :: 0 <= i < |ctx.entries| && at < ctx.Target(ctx.entries[i])
    case Stage(temp) => ctx.policy.atomicWrites && !ctx.IsTarget(temp) && ctx.BesideTarget(temp)
    case Fill(temp, _) => OwnTemp(ctx, history, temp)
    case Unlink(temp) => OwnTemp(ctx, history, temp)
    case Link(temp, target, entry) =>
      OwnTemp(ctx, history, temp) && temp in before && before[temp] == File(entry.Content())
      && ctx.Plans(entry, target, Create) && Revalidated(ctx, history, target, entry)
    case Swap(temp, target, entry) =>
      OwnTemp(ctx, history, temp) && temp in before && before[temp] == File(entry.Content())
      && ctx.Plans(entry, target, Replace) && Revalidated(ctx, history, target, entry)
    case OpenNew(target, entry) =>
      !ctx.policy.atomicWrites && ctx.Plans(entry, target, Create) && Revalidated(ctx, history, target, entry)
    case Truncate(target, entry) =>
      !ctx.policy.atomicWrites && ctx.Plans(entry, target, Replace) && Revalidated(ctx, history, target, entry)
    case Write(target, bytes, entry) =>
      !ctx.policy.atomicWrites && bytes <= entry.Content()
      && (Did(history, OpenNew(target, entry)) || Did(history, Truncate(target, entry)))
    case _ => false
  }

  ghost predicate EventOk(ctx: Context, history: seq<Event>, e: Event) {
    match e.actor
    case Environment => Spares(ctx.guard, e.before, e.after)
    case Sink(effect) => Apply(effect, e.before) == Some(e.after) && EffectOk(ctx, history, e.before, effect)
  }

  /** Every step of the sink is one it may take after the steps before it. */
  ghost predicate Lawful(ctx: Context, run: seq<Event>) {
    run == [] || (Lawful(ctx, run[..|run| - 1]) && EventOk(ctx, run[..|run| - 1], run[|run| - 1]))
  }

  lemma {:induction false} LawfulSnoc(ctx: Context, run: seq<Event>, e: Event)
    requires Lawful(ctx, run) && EventOk(ctx, run, e)
    ensures Lawful(ctx, run + [e])
  {
    assert (run + [e])[..|run|] == run;
  }

  lemma {:induction false} LawfulAt(ctx: Context, run: seq<Event>, k: nat)
    requires Lawful(ctx, run) && k < |run|
    ensures Lawful(ctx, run[..k]) && EventOk(ctx, run[..k], run[k])
    decreases |run|
  {
    if k < |run| - 1 {
      LawfulAt(ctx, run[..|run| - 1], k);
      assert run[..|run| - 1][..k] == run[..k];
    }
  }

  lemma {:induction false} DidExtends(run: seq<Event>, more: seq<Event>, effect: Effect)
    requires Did(run, effect)
    ensures Did(run + more, effect)
  {
    var k :| 0 <= k < |run| && run[k].actor == Sink(effect);
    assert (run + more)[k] == run[k];
  }

  lemma {:induction false} DidLast(run: seq<Event>, e: Event)
    requires e.actor.Sink?
    ensures Did(run + [e], e.actor.effect)
  {
    assert (run + [e])[|run|] == e;
  }

  lemma {:induction false} LeavesOn(run: seq<Event>, longer: seq<Event>, last: seq<Event>, p: Path)
    requires Leaves(run, longer, p) && Leaves(longer, last, p)
    ensures Leaves(run, last, p)
  {
    forall k | |run| <= k < |last| && last[k].actor.Sink? ensures !Touches(last[k].actor.effect, p) {
      if k < |longer| { assert last[k] == longer[k]; }
    }
  }

  lemma {:induction false} LeavesItself(run: seq<Event>, p: Path)
    ensures Leaves(run, run, p)
  {
  }

  lemma {:induction false} JustRevalidated(ctx: Context, history: seq<Event>, e: Event, seen: Seen, target: Path, entry: Entry)
    requires e.actor == Sink(Revalidate(target, entry, seen)) && StaleReasonOf(ctx.hash, entry, seen) == None
    ensures Revalidated(ctx, history + [e], target, entry)
  {
    assert RevalidatedAt(ctx, history + [e], |history|, seen, target, entry);
  }

  lemma {:induction false} StillRevalidated(ctx: Context, run: seq<Event>, longer: seq<Event>, target: Path, entry: Entry)
    requires Revalidated(ctx, run, target, entry) && Leaves(run, longer, target)
    ensures Revalidated(ctx, longer, target, entry)
  {
    hide StaleReasonOf, Touches;
    var j: nat, seen :| RevalidatedAt(ctx, run, j, seen, target, entry);
    forall k | j + 1 <= k < |longer| && longer[k].actor.Sink? ensures !Touches(longer[k].actor.effect, target) {
      if k < |run| { assert longer[k] == run[k]; }
    }
    assert RevalidatedAt(ctx, longer, j, seen, target, entry);
  }

  // ---- Theorems about whole runs ----

  /** The step at `k` of a lawful run that puts bytes at a target was preceded by a look at that target
      which found it as planned, and between the two the sink did not touch it. */
  lemma {:induction false} MutationsAreRevalidated(ctx: Context, run: seq<Event>, k: nat, target: Path, entry: Entry)
    requires Lawful(ctx, run) && k < |run| && run[k].actor.Sink?
    requires run[k].actor.effect == OpenNew(target, entry) || run[k].actor.effect == Truncate(target, entry)
      || exists temp :: run[k].actor.effect == Link(temp, target, entry) || run[k].actor.effect == Swap(temp, target, entry)
    ensures entry in ctx.entries && target == ctx.Target(entry)
    ensures exists j: nat, seen :: j < k && FoundAsPlanned(ctx, run[j], target, entry, seen) && AloneFrom(run[..k], j + 1, target)
  {
    LawfulAt(ctx, run, k);
    var j: nat, seen :| RevalidatedAt(ctx, run[..k], j, seen, target, entry);
    LawfulAt(ctx, run, j);
    assert FoundAsPlanned(ctx, run[j], target, entry, seen);
  }

  ghost predicate FoundAsPlanned(ctx: Context, e: Event, target: Path, entry: Entry, seen: Seen) {
    && e.actor == Sink(Revalidate(target, entry, seen)) && seen == SeenAt(e.before, target)
    && HashOf(ctx.hash, seen) == entry.existing
  }

  /** Creating a destination never alters anything that exists, whatever appeared since planning. */
  lemma {:induction false} CreateAltersNothing(ctx: Context, run: seq<Event>, k: nat, p: Path)
    requires Lawful(ctx, run) && k < |run| && run[k].actor.Sink?
    requires run[k].actor.effect.Link? || run[k].actor.effect.OpenNew?
    ensures p in run[k].before ==> p in run[k].after && run[k].after[p] == run[k].before[p]
  {
    LawfulAt(ctx, run, k);
  }

  ghost predicate Untouched(run: seq<Event>, p: Path) {
    forall k :: 0 <= k < |run| && run[k].actor.Environment? ==> SameAt(run[k].before, run[k].after, p)
  }

  ghost predicate AlwaysHolds(run: seq<Event>, p: Path, node: Node) {
    forall k :: 0 <= k < |run| ==> p in run[k].before && run[k].before[p] == node
  }

  ghost predicate ReplacesNothing(ctx: Context) {
    forall i :: 0 <= i < |ctx.entries| ==> ctx.entries[i].action != Replace
  }

  /** A plan made under a policy that prohibits overwriting replaces nothing. */
  lemma {:induction false} NoOverwriteReplacesNothing(plan: WritePlan, policy: Policy, hash: HashFn, root: Path, guard: set<Path>, intents: seq<Intent>, seen: seq<Seen>)
    requires IsPlan(plan, policy, hash, intents, seen) && !policy.allowOverwrite
    ensures ReplacesNothing(Context(policy, hash, root, guard, plan.entries))
  {
  }

  /** A run of a plan that replaces nothing changes no existing path that other processes leave alone. */
  lemma {:induction false} ReplacingNothingSparesExisting(ctx: Context, first: Store, run: seq<Event>, last: Store, p: Path)
    requires Lawful(ctx, run) && Chained(first, run, last) && ReplacesNothing(ctx)
    requires p in first && Untouched(run, p)
    ensures AlwaysHolds(run, p, first[p]) && p in last && last[p] == first[p]
    decreases |run|
  {
    if run != [] {
      var n := |run| - 1;
      var earlier, e := run[..n], run[n];
      assert Untouched(earlier, p) by { assert forall k :: 0 <= k < n ==> earlier[k] == run[k]; }
      ReplacingNothingSparesExisting(ctx, first, earlier, e.before, p);
      assert forall k :: 0 <= k < n ==> run[k] == earlier[k];
      if e.actor.Sink? {
        SinkSparesExisting(ctx, earlier, e, p);
      }
    }
  }

  /** When overwriting is prohibited the sink changes no existing path: one that other processes leave
      alone is, at every step and at the end of any run of the plan, what it was at the start. */
  lemma {:induction false} ExistingPathsSurvive(
      plan: WritePlan, policy: Policy, hash: HashFn, root: Path, guard: set<Path>, intents: seq<Intent>, seen: seq<Seen>,
      first: Store, run: seq<Event>, last: Store, p: Path)
    requires IsPlan(plan, policy, hash, intents, seen) && !policy.allowOverwrite
    requires Lawful(Context(policy, hash, root, guard, plan.entries), run) && Chained(first, run, last) && p in first && Untouched(run, p)
    ensures AlwaysHolds(run, p, first[p]) && p in last && last[p] == first[p]
  {
    hide *;
    NoOverwriteReplacesNothing(plan, policy, hash, root, guard, intents, seen);
    ReplacingNothingSparesExisting(Context(policy, hash, root, guard, plan.entries), first, run, last, p);
  }

  lemma {:induction false} SinkSparesExisting(ctx: Context, history: seq<Event>, e: Event, p: Path)
    requires Lawful(ctx, history) && EventOk(ctx, history, e) && e.actor.Sink? && ReplacesNothing(ctx)
    requires p in e.before && AlwaysHolds(history, p, e.before[p])
    ensures p in e.after && e.after[p] == e.before[p]
  {
    match e.actor.effect
    case Fill(temp, _) => NeverStaged(ctx, history, p, temp, Stage(temp));
    case Unlink(temp) => NeverStaged(ctx, history, p, temp, Stage(temp));
    case Write(target, bytes, entry) =>
      if Did(history, OpenNew(target, entry)) {
        NeverStaged(ctx, history, p, target, OpenNew(target, entry));
      } else {
        NoTruncation(ctx, history, target, entry);
      }
    case _ =>
  }

  /** What exists throughout was never created by the run. */
  lemma {:induction false} NeverStaged(ctx: Context, history: seq<Event>, p: Path, at: Path, effect: Effect)
    requires Lawful(ctx, history) && Did(history, effect)
    requires effect == Stage(at) || (effect.OpenNew? && effect.target == at)
    requires forall k :: 0 <= k < |history| ==> p in history[k].before
    ensures at != p
  {
    var k :| 0 <= k < |history| && history[k].actor == Sink(effect);
    LawfulAt(ctx, history, k);
  }

  lemma {:induction false} NoTruncation(ctx: Context, history: seq<Event>, target: Path, entry: Entry)
    requires Lawful(ctx, history) && ReplacesNothing(ctx)
    ensures !Did(history, Truncate(target, entry))
  {
    if Did(history, Truncate(target, entry)) {
      var k :| 0 <= k < |history| && history[k].actor == Sink(Truncate(target, entry));
      LawfulAt(ctx, history, k);
    }
  }

  /** The path holds the whole content of an entry planned for it. */
  ghost predicate HoldsPlanned(ctx: Context, now: Store, p: Path) {
    exists entry :: entry in ctx.entries && ctx.Target(entry) == p && p in now && now[p] == File(entry.Content())
  }

  /** What may be found at a destination: what was there at the start, the whole content of an entry
      planned for it, or, where nothing was, a directory. */
  ghost predicate Whole(ctx: Context, first: Store, now: Store, p: Path) {
    SameAt(first, now, p) || HoldsPlanned(ctx, now, p) || (p !in first && IsDir(now, p))
  }

  /** Under atomic writes no destination ever holds partial bytes, at any step of any run, and one that was
      there at the start never vanishes. */
  lemma {:induction false} NeverPartial(ctx: Context, first: Store, run: seq<Event>, last: Store, p: Path)
    requires Lawful(ctx, run) && Chained(first, run, last) && ctx.policy.atomicWrites
    requires ctx.IsTarget(p) && Untouched(run, p)
    ensures Whole(ctx, first, last, p) && forall k :: 0 <= k < |run| ==> Whole(ctx, first, run[k].before, p)
    decreases |run|
  {
    if run != [] {
      var n := |run| - 1;
      var earlier, e := run[..n], run[n];
      assert Untouched(earlier, p) by { assert forall k :: 0 <= k < n ==> earlier[k] == run[k]; }
      NeverPartial(ctx, first, earlier, e.before, p);
      assert forall k :: 0 <= k < n ==> run[k] == earlier[k];
      assert Whole(ctx, first, e.after, p) by { StepStaysWhole(ctx, first, earlier, e, p); }
    }
  }

  lemma {:induction false} StepStaysWhole(ctx: Context, first: Store, history: seq<Event>, e: Event, p: Path)
    requires EventOk(ctx, history, e) && ctx.policy.atomicWrites && ctx.IsTarget(p) && Whole(ctx, first, e.before, p)
    requires e.actor.Environment? ==> SameAt(e.before, e.after, p)
    ensures Whole(ctx, first, e.after, p)
  {
  }

  /** Other processes leave a guarded path alone. */
  lemma {:induction false} GuardedUntouched(ctx: Context, run: seq<Event>, p: Path)
    requires Lawful(ctx, run) && Shielded(ctx.guard, p)
    ensures Untouched(run, p)
  {
    forall k | 0 <= k < |run| && run[k].actor.Environment? ensures SameAt(run[k].before, run[k].after, p) {
      LawfulAt(ctx, run, k);
      SparedAt(ctx.guard, run[k].before, run[k].after, p);
    }
  }

  /** The path is neither above a planned target nor beside one to be written. */
  ghost predicate OutOfTheWay(ctx: Context, p: Path) {
    !ctx.BesideTarget(p) && forall i :: 0 <= i < |ctx.entries| ==> !(p < ctx.Target(ctx.entries[i]))
  }

  ghost predicate SameThroughout(first: Store, run: seq<Event>, p: Path) {
    forall k :: 0 <= k < |run| ==> SameAt(first, run[k].before, p) && SameAt(first, run[k].after, p)
  }

  /** A run changes nothing that is out of its way. */
  lemma {:induction false} StaysAsItWas(ctx: Context, first: Store, run: seq<Event>, last: Store, p: Path)
    requires Lawful(ctx, run) && Chained(first, run, last) && Untouched(run, p) && OutOfTheWay(ctx, p) && ctx.root != []
    ensures SameThroughout(first, run, p) && SameAt(first, last, p)
    decreases |run|
  {
    if run != [] {
      var n := |run| - 1;
      var earlier, e := run[..n], run[n];
      assert Untouched(earlier, p) by { assert forall k :: 0 <= k < n ==> earlier[k] == run[k]; }
      StaysAsItWas(ctx, first, earlier, e.before, p);
      assert forall k :: 0 <= k < n ==> run[k] == earlier[k];
      if e.actor.Sink? { SinkStaysOutOfTheWay(ctx, earlier, e, p); }
    }
  }

  lemma {:induction false} SinkStaysOutOfTheWay(ctx: Context, history: seq<Event>, e: Event, p: Path)
    requires Lawful(ctx, history) && EventOk(ctx, history, e) && e.actor.Sink? && OutOfTheWay(ctx, p) && ctx.root != []
    ensures SameAt(e.before, e.after, p)
  {
    hide Lawful, OutOfTheWay, Spares, Revalidated, Did;
    NotBeside(ctx, p);
    match e.actor.effect
    case Fill(temp, _) => StagedBeside(ctx, history, temp);
    case Unlink(temp) => StagedBeside(ctx, history, temp);
    case Link(temp, target, entry) => TargetBeside(ctx, target, entry);
    case Swap(temp, target, entry) =>
      StagedBeside(ctx, history, temp);
      TargetBeside(ctx, target, entry);
    case OpenNew(target, entry) => TargetBeside(ctx, target, entry);
    case Truncate(target, entry) => TargetBeside(ctx, target, entry);
    case Write(target, _, entry) => OpenedBeside(ctx, history, target, entry);
    case _ =>
  }

  lemma {:induction false} NotBeside(ctx: Context, p: Path)
    requires OutOfTheWay(ctx, p)
    ensures !ctx.BesideTarget(p) && forall i :: 0 <= i < |ctx.entries| ==> !(p < ctx.Target(ctx.entries[i]))
  {
  }

  lemma {:induction false} StagedBeside(ctx: Context, history: seq<Event>, temp: Path)
    requires Lawful(ctx, history) && Did(history, Stage(temp))
    ensures ctx.BesideTarget(temp)
  {
    var k :| 0 <= k < |history| && history[k].actor == Sink(Stage(temp));
    LawfulAt(ctx, history, k);
  }

  lemma {:induction false} TargetBeside(ctx: Context, target: Path, entry: Entry)
    requires ctx.root != [] && ctx.Plans(entry, target, entry.action) && entry.action != Skip
    ensures ctx.BesideTarget(target)
  {
    PlannedTarget(ctx, target, entry);
  }

  lemma {:induction false} OpenedBeside(ctx: Context, history: seq<Event>, target: Path, entry: Entry)
    requires Lawful(ctx, history) && ctx.root != []
    requires Did(history, OpenNew(target, entry)) || Did(history, Truncate(target, entry))
    ensures ctx.BesideTarget(target)
  {
    var k :| 0 <= k < |history| && (history[k].actor == Sink(OpenNew(target, entry)) || history[k].actor == Sink(Truncate(target, entry)));
    LawfulAt(ctx, history, k);
    TargetBeside(ctx, target, entry);
  }

  lemma {:induction false} DidPrefix(run: seq<Event>, longer: seq<Event>, effect: Effect)
    requires run <= longer && Did(run, effect)
    ensures Did(longer, effect)
  {
    assert longer == run + longer[|run|..];
    DidExtends(run, longer[|run|..], effect);
  }

  /** The run put the entry's whole content at its target. */
  ghost predicate Delivered(run: seq<Event>, target: Path, entry: Entry) {
    || (exists temp :: Did(run, Link(temp, target, entry)) || Did(run, Swap(temp, target, entry)))
    || Did(run, Write(target, entry.Content(), entry))
  }

  lemma {:induction false} DeliveredPrefix(run: seq<Event>, longer: seq<Event>, target: Path, entry: Entry)
    requires run <= longer && Delivered(run, target, entry)
    ensures Delivered(longer, target, entry)
  {
    if temp :| Did(run, Link(temp, target, entry)) {
      DidPrefix(run, longer, Link(temp, target, entry));
    } else if temp :| Did(run, Swap(temp, target, entry)) {
      DidPrefix(run, longer, Swap(temp, target, entry));
    } else {
      DidPrefix(run, longer, Write(target, entry.Content(), entry));
    }
  }

  // ---- Planning and committing ----

  function SeenOn(store: Store, root: Path, intents: seq<Intent>): (r: seq<Seen>)
    ensures |r| == |intents|
    ensures forall i :: 0 <= i < |r| ==> r[i] == SeenAt(store, root + intents[i].artifact.destination)
  {
    if intents == [] then []
    else [SeenAt(store, root + intents[0].artifact.destination)] + SeenOn(store, root, intents[1..])
  }

  ghost predicate OnlyLooks(guard: set<Path>, run: seq<Event>) {
    forall k :: 0 <= k < |run| ==> IsLook(guard, run[k])
  }

  ghost predicate IsLook(guard: set<Path>, e: Event) {
    match e.actor
    case Environment => Spares(guard, e.before, e.after)
    case Sink(effect) => effect.Look? && Apply(effect, e.before) == Some(e.after)
  }

  lemma {:induction false} LooksAreLawful(ctx: Context, run: seq<Event>)
    requires OnlyLooks(ctx.guard, run)
    ensures Lawful(ctx, run)
    decreases |run|
  {
    if run != [] {
      var n := |run| - 1;
      assert forall k :: 0 <= k < n ==> run[..n][k] == run[k];
      assert IsLook(ctx.guard, run[n]);
      LooksAreLawful(ctx, run[..n]);
    }
  }

  ghost predicate SameBelow(a: Store, b: Store, root: Path) {
    forall p :: root <= p ==> SameAt(a, b, p)
  }

  lemma {:induction false} AllSameBelow(store: Store, root: Path)
    ensures SameBelow(store, store, root)
  {
  }

  lemma {:induction false} SameBelowTransitive(a: Store, b: Store, c: Store, root: Path, d: Path)
    requires SameBelow(a, b, root) && SameBelow(b, c, root)
    ensures SameBelow(a, c, root) && SeenAt(b, root + d) == SeenAt(a, root + d)
  {
    forall p | root <= p ensures SameAt(a, c, p) {
      assert SameAt(a, b, p) && SameAt(b, c, p);
    }
    assert root <= root + d;
    assert SameAt(a, b, root + d);
  }

  /** Every proper ancestor of a path is a directory or absent. */
  ghost predicate ClearPath(store: Store, p: Path) {
    forall i :: 0 < i < |p| && p[..i] in store ==> store[p[..i]] == Dir
  }

  /** Only the target, now a file, and missing ancestors of it, now directories, differ. */
  ghost predicate ChangedOnlyFor(a: Store, b: Store, target: Path) {
    forall p :: SameAt(a, b, p) || (p == target && IsFile(b, p)) || (p < target && p !in a && IsDir(b, p))
  }

  /** No name is long enough to exhaust the names of temporary files. */
  lemma {:induction false} NameBound(paths: set<Path>) returns (n: nat)
    ensures forall p :: p in paths && p != [] ==> |p[|p| - 1]| < n
    decreases |paths|
  {
    if paths == {} {
      n := 0;
    } else {
      var q :| q in paths;
      var m := NameBound(paths - {q});
      n := if q != [] && |q[|q| - 1]| >= m then |q[|q| - 1]| + 1 else m;
      assert forall p :: p in paths ==> p == q || p in paths - {q};
    }
  }

  lemma {:induction false} FreeNameExists(taken: set<Path>, parent: Path)
    ensures exists name: string :: parent + [name] !in taken
  {
    var n := NameBound(taken);
    var name := seq(n, _ => 'x');
    var p := parent + [name];
    assert p[|p| - 1] == name;
    assert p !in taken;
  }

  class FileSystemOutputSink {
    const disk: Disk
    const root: Path
    const policy: Policy
    const hash: HashFn
    var intents: seq<Intent>
    var planned: Option<WritePlan>
    /** What was seen at each destination when the cached plan was made. */
    ghost var plannedFrom: seq<Seen>

    ghost predicate Valid()
      reads this
    {
      root != [] && (planned.Some? ==> IsPlan(planned.value, policy, hash, intents, plannedFrom))
    }

    /** Nobody else touches anything at or below the output root. */
    ghost predicate Isolated()
      reads disk
    {
      disk.quiet || Shielded(disk.shield, root)
    }

    /** What no other process touches: everything, on a quiet disk. */
    function Guard(): set<Path>
      reads disk
    {
      if disk.quiet then {[]} else disk.shield
    }

    constructor (disk: Disk, root: Path, policy: Policy, hash: HashFn)
      requires root != []
      ensures Valid() && this.disk == disk && this.root == root && this.policy == policy && this.hash == hash
      ensures intents == [] && planned == None
    {
      this.disk := disk;
      this.root := root;
      this.policy := policy;
      this.hash := hash;
      intents := [];
      planned := None;
      plannedFrom := [];
    }

    method Enqueue(intent: Intent)
      requires Valid()
      modifies this
      ensures Valid() && intents == old(intents) + [intent] && planned == None
    {
      intents := intents + [intent];
      planned := None;
    }

    method Clear()
      requires Valid()
      modifies this
      ensures Valid() && intents == [] && planned == None
    {
      intents := [];
      planned := None;
    }

    /** Let the environment act; an isolated output root stays as it is. */
    method Pause()
      modifies disk`store, disk`trace
      ensures disk.trace == old(disk.trace) + [Event(Environment, old(disk.store), disk.store)]
      ensures Spares(disk.shield, old(disk.store), disk.store) && Spares(Guard(), old(disk.store), disk.store)
      ensures disk.quiet ==> disk.store == old(disk.store)
      ensures Isolated() ==> SameBelow(old(disk.store), disk.store, root)
      ensures Chained(disk.first, old(disk.trace), old(disk.store)) ==> Chained(disk.first, disk.trace, disk.store)
    {
      disk.Interfere();
      if Isolated() {
        forall p | root <= p ensures SameAt(old(disk.store), disk.store, p) {
          if !disk.quiet { ShieldCovers(disk.shield, root, p); }
        }
      }
    }

    /** The loop of `plan`. */
    method PlanIntents() returns (entries: seq<Entry>, issues: set<Issue>, ghost seen: seq<Seen>)
      modifies disk`store, disk`trace
      ensures IsPlan(WritePlan(entries, TotalBytes(intents), issues), policy, hash, intents, seen)
      ensures OnlyLooks(Guard(), old(disk.trace)) ==> OnlyLooks(Guard(), disk.trace)
      ensures Chained(disk.first, old(disk.trace), old(disk.store)) ==> Chained(disk.first, disk.trace, disk.store)
      ensures disk.quiet ==> disk.store == old(disk.store)
      ensures Isolated() ==> SameBelow(old(disk.store), disk.store, root) && seen == SeenOn(old(disk.store), root, intents)
    {
      entries, issues, seen := [], Limits(policy, intents), [];
      var destinations: set<Path> := {};
      var todo := intents;
      hide Decide, IssuesOf, Limits, TotalBytes, RefusalIssues, Apply, OnlyLooks, Chained, SameBelow, Spares, SeenAt;
      AllSameBelow(disk.store, root);
      for i := 0 to |todo|
        invariant |entries| == |seen| == i
        invariant forall k :: 0 <= k < i ==> entries[k] == Decide(policy, hash, todo[k], seen[k])
        invariant destinations == DestinationsBefore(todo, i)
        invariant issues == IssuesSoFar(policy, hash, todo, seen, i)
        invariant OnlyLooks(Guard(), old(disk.trace)) ==> OnlyLooks(Guard(), disk.trace)
        invariant Chained(disk.first, old(disk.trace), old(disk.store)) ==> Chained(disk.first, disk.trace, disk.store)
        invariant disk.quiet ==> disk.store == old(disk.store)
        invariant Isolated() ==> SameBelow(old(disk.store), disk.store, root)
        invariant Isolated() ==> forall k :: 0 <= k < i ==> seen[k] == SeenAt(old(disk.store), root + todo[k].artifact.destination)
      {
        ghost var mid := disk.store;
        var look := LookAt(todo[i].artifact.destination);
        if Isolated() { SameBelowTransitive(old(disk.store), mid, disk.store, root, todo[i].artifact.destination); }
        var entry := Decide(policy, hash, todo[i], look);
        issues := issues + IssuesOf(policy, destinations, entry);
        destinations := destinations + {todo[i].artifact.destination};
        entries := entries + [entry];
        IssuesSoFarExtends(policy, hash, todo, seen, look, i);
        seen := seen + [look];
      }
      IssuesSoFarIsAll(policy, hash, todo, seen, |todo|);
    }

    /** One look at a destination, after the environment has had its turn. */
    method LookAt(destination: Path) returns (seen: Seen)
      modifies disk`store, disk`trace
      ensures OnlyLooks(Guard(), old(disk.trace)) ==> OnlyLooks(Guard(), disk.trace)
      ensures Chained(disk.first, old(disk.trace), old(disk.store)) ==> Chained(disk.first, disk.trace, disk.store)
      ensures disk.quiet ==> disk.store == old(disk.store)
      ensures Isolated() ==> SameBelow(old(disk.store), disk.store, root) && seen == SeenAt(old(disk.store), root + destination)
    {
      Pause();
      seen := disk.Observe(root + destination);
      if Isolated() {
        assert root <= root + destination;
        assert SameAt(old(disk.store), disk.store, root + destination);
      }
    }

    /** The advisory plan, made once and then cached until an intent is added. */
    method Plan() returns (plan: WritePlan)
      requires Valid()
      modifies this, disk`store, disk`trace
      ensures Valid() && planned == Some(plan) && intents == old(intents)
      ensures OnlyLooks(Guard(), old(disk.trace)) ==> OnlyLooks(Guard(), disk.trace)
      ensures Chained(disk.first, old(disk.trace), old(disk.store)) ==> Chained(disk.first, disk.trace, disk.store)
      ensures disk.quiet ==> disk.store == old(disk.store)
      ensures Isolated() ==> SameBelow(old(disk.store), disk.store, root)
      ensures old(planned).Some? ==>
        plan == old(planned).value && plannedFrom == old(plannedFrom) && disk.store == old(disk.store) && disk.trace == old(disk.trace)
      ensures old(planned).None? && Isolated() ==> plannedFrom == SeenOn(old(disk.store), root, intents)
    {
      if planned.Some? { return planned.value; }
      var entries, issues, seen := PlanIntents();
      plan := WritePlan(entries, TotalBytes(intents), issues);
      planned := Some(plan);
      plannedFrom := seen;
    }

    /** The run so far, recorded from its start and lawful. */
    ghost predicate OnCourse(ctx: Context)
      reads disk
    {
      (disk.quiet || ctx.guard <= disk.shield) && Lawful(ctx, disk.trace) && Chained(disk.first, disk.trace, disk.store)
    }

    method PauseIn(ghost ctx: Context)
      requires OnCourse(ctx)
      modifies disk`store, disk`trace
      ensures OnCourse(ctx) && old(disk.trace) <= disk.trace && forall p: Path :: Leaves(old(disk.trace), disk.trace, p)
      ensures Spares(disk.shield, old(disk.store), disk.store)
      ensures disk.quiet ==> disk.store == old(disk.store)
      ensures Isolated() ==> SameBelow(old(disk.store), disk.store, root) && Contents(disk.store, root) == Contents(old(disk.store), root)
    {
      Pause();
      SparesLess(ctx.guard, disk.shield, old(disk.store), disk.store);
      LawfulSnoc(ctx, old(disk.trace), Event(Environment, old(disk.store), disk.store));
      if Isolated() { SameContents(old(disk.store), disk.store, root); }
    }

    /** Perform an effect the run may perform now. */
    method Act(ghost ctx: Context, effect: Effect) returns (ok: bool)
      requires OnCourse(ctx) && EffectOk(ctx, disk.trace, disk.store, effect)
      modifies disk`store, disk`trace
      ensures OnCourse(ctx) && old(disk.trace) <= disk.trace
      ensures ok ==> Apply(effect, old(disk.store)) == Some(disk.store) && Did(disk.trace, effect)
      ensures !ok ==> disk.store == old(disk.store)
      ensures disk.quiet && Apply(effect, old(disk.store)).Some? ==> ok
      ensures forall p: Path :: !Touches(effect, p) ==> Leaves(old(disk.trace), disk.trace, p)
    {
      hide Apply, EffectOk, Touches;
      ok := disk.Try(effect);
      if ok {
        LawfulSnoc(ctx, old(disk.trace), Event(Sink(effect), old(disk.store), disk.store));
        DidLast(old(disk.trace), Event(Sink(effect), old(disk.store), disk.store));
      }
    }

    /** `mkdir(parents=True, exist_ok=True)` on the target's parent. */
    method MakeParents(ghost ctx: Context, target: Path) returns (ok: bool)
      requires OnCourse(ctx) && target != [] && ctx.Above(target)
      modifies disk`store, disk`trace
      ensures OnCourse(ctx) && old(disk.trace) <= disk.trace && Leaves(old(disk.trace), disk.trace, target)
      ensures Isolated() ==> Contents(disk.store, root) == Contents(old(disk.store), root)
      ensures disk.quiet ==> ChangedOnlyFor(old(disk.store), disk.store, target) && SameAt(old(disk.store), disk.store, target)
      ensures disk.quiet && ClearPath(old(disk.store), target) ==> ok && ParentIsDir(disk.store, target)
      ensures disk.quiet && ok ==> DirsTo(disk.store, target, |target|)
    {
      hide Lawful, Chained, Contents, Spares, SameBelow, Apply, EffectOk, ClearPath, WithAncestors, ParentIsDir, ChangedOnlyFor, DirsTo, WithDir,
        Leaves;
      var i := 1;
      ok := true;
      WithoutAncestors(disk.store, target);
      LeavesItself(disk.trace, target);
      while i < |target| && ok
        invariant 1 <= i <= |target|
        invariant OnCourse(ctx) && old(disk.trace) <= disk.trace && Leaves(old(disk.trace), disk.trace, target)
        invariant Isolated() ==> Contents(disk.store, root) == Contents(old(disk.store), root)
        invariant disk.quiet ==> disk.store == WithAncestors(old(disk.store), target, i - 1) && DirsTo(disk.store, target, i)
        invariant disk.quiet && ClearPath(old(disk.store), target) ==> ok
        decreases |target| - i, ok
      {
        NextAncestor(old(disk.store), target, i);
        if ClearPath(old(disk.store), target) { AncestorReady(old(disk.store), target, i); }
        if disk.quiet { MoreDirs(disk.store, target, i); }
        ghost var history := disk.trace;
        ok := MakeOne(ctx, target, i);
        LeavesOn(old(disk.trace), history, disk.trace, target);
        if ok { i := i + 1; }
      }
      AncestorsOnly(old(disk.store), target, i - 1);
    }

    /** One ancestor of the target. */
    method MakeOne(ghost ctx: Context, target: Path, i: nat) returns (ok: bool)
      requires OnCourse(ctx) && 0 < i < |target| && ctx.Above(target)
      modifies disk`store, disk`trace
      ensures OnCourse(ctx) && old(disk.trace) <= disk.trace && Leaves(old(disk.trace), disk.trace, target)
      ensures Isolated() ==> Contents(disk.store, root) == Contents(old(disk.store), root)
      ensures disk.quiet ==> disk.store == if ok then WithDir(old(disk.store), target[..i]) else old(disk.store)
      ensures disk.quiet && DirPossible(old(disk.store), target[..i]) ==> ok
      ensures disk.quiet && ok ==> IsDir(disk.store, target[..i])
    {
      hide Lawful, Chained, Contents, Spares, SameBelow, Leaves;
      PauseIn(ctx);
      ghost var history := disk.trace;
      var p := target[..i];
      if p in disk.store {
        ok := disk.store[p] == Dir;
      } else {
        ghost var before := disk.store;
        assert target[..i] < target;
        ok := Act(ctx, MakeDir(p));
        if ok { ContentsOfDir(before, root, p); }
        LeavesOn(old(disk.trace), history, disk.trace, target);
      }
    }

    /** A private file beside the target: `mkstemp` in the target's directory. */
    method StageTemp(ctx: Context, target: Path) returns (temp: Path, ok: bool)
      requires OnCourse(ctx) && target != [] && ctx.policy.atomicWrites && ctx.BesideTarget(target) && ctx.IsTarget(target)
      modifies disk`store, disk`trace
      ensures OnCourse(ctx) && old(disk.trace) <= disk.trace && Leaves(old(disk.trace), disk.trace, target)
      ensures ok ==> OwnTemp(ctx, disk.trace, temp) && temp in disk.store && disk.store[temp] == File("")
      ensures ok && Isolated() ==> FilesWithout(Contents(disk.store, root), root, temp) == Contents(old(disk.store), root)
      ensures disk.quiet && ok ==> temp !in old(disk.store) && disk.store == old(disk.store)[temp := File("")]
      ensures disk.quiet && !ok ==> disk.store == old(disk.store)
      ensures disk.quiet && ParentIsDir(old(disk.store), target) ==> ok
    {
      hide Lawful, Chained, Spares, SameBelow, Contents, Revalidated, Leaves;
      PauseIn(ctx);
      ghost var history := disk.trace;
      var parent := target[..|target| - 1];
      ghost var taken := disk.store.Keys + set i | 0 <= i < |ctx.entries| :: ctx.Target(ctx.entries[i]);
      FreeNameExists(taken, parent);
      var name: string :| parent + [name] !in disk.store && !ctx.IsTarget(parent + [name]);
      temp := parent + [name];
      SiblingParent(ctx, disk.store, target, name);
      ghost var before := disk.store;
      ok := Act(ctx, Stage(temp));
      LeavesOn(old(disk.trace), history, disk.trace, target);
      if ok { StagedAside(before, root, temp, ""); }
    }

    /** Write the bytes to the staged file and move it into place. */
    method PlaceStaged(ctx: Context, target: Path, entry: Entry, temp: Path) returns (ok: bool)
      requires OnCourse(ctx) && OwnTemp(ctx, disk.trace, temp) && temp in disk.shield && IsFile(disk.store, temp)
      requires ctx.Plans(entry, target, entry.action) && entry.action != Skip && Revalidated(ctx, disk.trace, target, entry)
      requires ctx.root == root
      modifies disk`store, disk`trace
      ensures OnCourse(ctx) && old(disk.trace) <= disk.trace && OwnTemp(ctx, disk.trace, temp)
      ensures temp in disk.store ==> IsFile(disk.store, temp)
      ensures ok ==> Delivered(disk.trace, target, entry)
      ensures ok && Isolated() ==>
        FilesWithout(Contents(disk.store, root), root, temp)
          == FilesWithout(Contents(old(disk.store), root), root, temp)[entry.Destination() := entry.Content()]
      ensures disk.quiet ==>
        disk.store - {temp} == if ok then (old(disk.store) - {temp})[target := File(entry.Content())] else old(disk.store) - {temp}
      ensures disk.quiet && CanPlace(old(disk.store), target, entry.action) ==> ok
    {
      hide Lawful, Chained, Contents, Revalidated, CanPlace, FilesWithout, Leaves, Touches;
      OwnTempIsNoTarget(ctx, disk.trace, temp, target, entry);
      ok := FillStaged(ctx, temp, entry.Content(), target);
      if !ok { return; }
      StillRevalidated(ctx, old(disk.trace), disk.trace, target, entry);
      ghost var before, history := disk.store, disk.trace;
      var move := if entry.action == Create then Link(temp, target, entry) else Swap(temp, target, entry);
      if disk.quiet && CanPlace(old(disk.store), target, entry.action) { CanPlaceAllows(old(disk.store), before, target, temp, entry); }
      ok := Act(ctx, move);
      DidPrefix(history, disk.trace, Stage(temp));
      if ok { PlacedAside(before, disk.store, root, temp, target, entry); }
    }

    /** `handle.write`: all of the bytes, or some of them and a failure. */
    method FillStaged(ctx: Context, temp: Path, bytes: string, ghost target: Path) returns (ok: bool)
      requires temp != target
      requires OnCourse(ctx) && OwnTemp(ctx, disk.trace, temp) && temp in disk.shield && IsFile(disk.store, temp)
      modifies disk`store, disk`trace
      ensures OnCourse(ctx) && old(disk.trace) <= disk.trace && OwnTemp(ctx, disk.trace, temp) && IsFile(disk.store, temp)
      ensures Leaves(old(disk.trace), disk.trace, target)
      ensures ok ==> disk.store[temp] == File(bytes)
      ensures Isolated() ==> FilesWithout(Contents(disk.store, root), root, temp) == FilesWithout(Contents(old(disk.store), root), root, temp)
      ensures disk.quiet ==> ok && disk.store == old(disk.store)[temp := File(bytes)]
    {
      hide Lawful, Chained, Contents, Revalidated, FilesWithout, SameBelow, Leaves;
      KeepTemp(ctx, temp);
      var written: int := *;
      var fails: bool := *;
      ghost var before, history := disk.store, disk.trace;
      if !disk.quiet && fails && 0 <= written <= |bytes| {
        var some := Act(ctx, Fill(temp, bytes[..written]));
        if some { RefilledAside(before, root, temp, bytes[..written]); }
        ok := false;
      } else {
        ok := Act(ctx, Fill(temp, bytes));
        if ok { RefilledAside(before, root, temp, bytes); }
      }
      DidPrefix(history, disk.trace, Stage(temp));
      LeavesOn(old(disk.trace), history, disk.trace, target);
      ghost var filled := disk.trace;
      if ok {
        KeepTemp(ctx, temp);
        LeavesOn(old(disk.trace), filled, disk.trace, target);
      }
    }

    /** Others act; the shielded temporary file stays as it is. */
    method KeepTemp(ghost ctx: Context, temp: Path)
      requires OnCourse(ctx) && OwnTemp(ctx, disk.trace, temp) && temp in disk.shield
      modifies disk`store, disk`trace
      ensures OnCourse(ctx) && old(disk.trace) <= disk.trace && OwnTemp(ctx, disk.trace, temp)
      ensures forall p: Path :: Leaves(old(disk.trace), disk.trace, p)
      ensures SameAt(old(disk.store), disk.store, temp)
      ensures disk.quiet ==> disk.store == old(disk.store)
      ensures Isolated() ==> Contents(disk.store, root) == Contents(old(disk.store), root)
    {
      hide Lawful, Chained, Contents, SameBelow;
      PauseIn(ctx);
      DidPrefix(old(disk.trace), disk.trace, Stage(temp));
      ShieldedItself(disk.shield, temp);
      SparedAt(disk.shield, old(disk.store), disk.store, temp);
    }

    /** `finally: if temporary.exists(): temporary.unlink()`. */
    method RemoveTemp(ghost ctx: Context, temp: Path) returns (ok: bool)
      requires OnCourse(ctx) && OwnTemp(ctx, disk.trace, temp) && temp in disk.shield && (temp in disk.store ==> IsFile(disk.store, temp))
      modifies disk`store, disk`trace
      ensures OnCourse(ctx) && old(disk.trace) <= disk.trace
      ensures ok && Isolated() ==> Contents(disk.store, root) == FilesWithout(Contents(old(disk.store), root), root, temp)
      ensures disk.quiet ==> ok && disk.store == old(disk.store) - {temp}
    {
      hide Lawful, Chained, Contents, SameBelow;
      KeepTemp(ctx, temp);
      ok := true;
      ghost var before := disk.store;
      RemovedAside(before, root, temp);
      if temp in disk.store {
        ok := Act(ctx, Unlink(temp));
      } else {
        assert disk.store - {temp} == disk.store;
      }
    }

    /** `_atomic_write` under atomic writes: stage beside the target, then link or replace. */
    method AtomicWrite(ctx: Context, target: Path, entry: Entry) returns (ok: bool)
      requires OnCourse(ctx) && ctx.policy.atomicWrites && ctx.root == root && target != []
      requires ctx.Plans(entry, target, entry.action) && entry.action != Skip && Revalidated(ctx, disk.trace, target, entry)
      modifies disk`store, disk`trace, disk`shield
      ensures OnCourse(ctx) && old(disk.trace) <= disk.trace && disk.shield == old(disk.shield)
      ensures ok ==> Delivered(disk.trace, target, entry)
      ensures ok && Isolated() ==> Contents(disk.store, root) == Contents(old(disk.store), root)[entry.Destination() := entry.Content()]
      ensures disk.quiet ==> ChangedOnlyFor(old(disk.store), disk.store, target)
      ensures disk.quiet && Writable(old(disk.store), target, entry.action) ==> ok
      ensures disk.quiet && ok ==> Settled(disk.store, target)
    {
      hide Lawful, Chained, Contents, Revalidated, FilesWithout, SameBelow, ChangedOnlyFor, CanPlace, ClearPath, ParentIsDir, OwnTemp, EffectOk, Delivered,
        DirsTo, Settled, Leaves;
      PlannedTarget(ctx, target, entry);
      ok := MakeParents(ctx, target);
      ghost var made, parents := disk.store, disk.trace;
      if !ok { return; }
      if disk.quiet && Writable(old(disk.store), target, entry.action) { WritableNow(old(disk.store), made, target, entry.action); }
      var temp: Path;
      temp, ok := StageTemp(ctx, target);
      if !ok { return; }
      LeavesOn(old(disk.trace), parents, disk.trace, target);
      StillRevalidated(ctx, old(disk.trace), disk.trace, target, entry);
      var shield := disk.shield;
      disk.shield := shield + {temp};
      StillShielded(shield, temp, root);
      ghost var staged := disk.store;
      OwnTempIsNoTarget(ctx, disk.trace, temp, target, entry);
      if disk.quiet { StagingKeepsPlace(made, temp, target, entry.action); }
      ok := PlaceStaged(ctx, target, entry, temp);
      ghost var placed, history := disk.store, disk.trace;
      var removed := RemoveTemp(ctx, temp);
      disk.shield := shield;
      if ok { DeliveredPrefix(history, disk.trace, target, entry); }
      if disk.quiet { OnlyTheTarget(old(disk.store), made, staged, placed, disk.store, temp, target, entry, ok); }
      if disk.quiet && ok { SettledBy(made, disk.store, target, entry.Content()); }
      ok := ok && removed;
    }

    /** `_atomic_write` without atomic writes: open the target itself, then write through the handle. */
    method PlainWrite(ctx: Context, target: Path, entry: Entry) returns (ok: bool)
      requires OnCourse(ctx) && !ctx.policy.atomicWrites && ctx.root == root && target != []
      requires ctx.Plans(entry, target, entry.action) && entry.action != Skip && Revalidated(ctx, disk.trace, target, entry)
      modifies disk`store, disk`trace
      ensures OnCourse(ctx) && old(disk.trace) <= disk.trace
      ensures ok && Isolated() ==> Delivered(disk.trace, target, entry)
      ensures ok && Isolated() ==> Contents(disk.store, root) == Contents(old(disk.store), root)[entry.Destination() := entry.Content()]
      ensures disk.quiet ==> ChangedOnlyFor(old(disk.store), disk.store, target)
      ensures disk.quiet && Writable(old(disk.store), target, entry.action) ==> ok
      ensures disk.quiet && ok ==> Settled(disk.store, target)
    {
      hide Lawful, Chained, Contents, Revalidated, SameBelow, ChangedOnlyFor, CanPlace, ClearPath, ParentIsDir, EffectOk, Delivered, Did, DirsTo, Settled, Leaves;
      PlannedTarget(ctx, target, entry);
      ok := MakeParents(ctx, target);
      if !ok { return; }
      ghost var made := disk.store;
      if disk.quiet && Writable(old(disk.store), target, entry.action) { WritableNow(old(disk.store), made, target, entry.action); }
      StillRevalidated(ctx, old(disk.trace), disk.trace, target, entry);
      ok := OpenTarget(ctx, target, entry);
      if ok { ok := WriteThrough(ctx, target, entry); }
      if disk.quiet { OnlyTheTargetPlain(old(disk.store), made, disk.store, target, entry); }
      if disk.quiet && ok { SettledBy(made, disk.store, target, entry.Content()); }
    }

    /** `os.open` with exclusive creation, or `open(target, "wb")`. */
    method OpenTarget(ctx: Context, target: Path, entry: Entry) returns (ok: bool)
      requires OnCourse(ctx) && !ctx.policy.atomicWrites && ctx.root == root
      requires ctx.Plans(entry, target, entry.action) && entry.action != Skip && Revalidated(ctx, disk.trace, target, entry)
      modifies disk`store, disk`trace
      ensures OnCourse(ctx) && old(disk.trace) <= disk.trace
      ensures ok ==> IsFile(disk.store, target) && (Did(disk.trace, OpenNew(target, entry)) || Did(disk.trace, Truncate(target, entry)))
      ensures ok && Isolated() ==> Contents(disk.store, root) == Contents(old(disk.store), root)[entry.Destination() := ""]
      ensures disk.quiet ==> disk.store == if ok then old(disk.store)[target := File("")] else old(disk.store)
      ensures disk.quiet && CanPlace(old(disk.store), target, entry.action) ==> ok
    {
      hide Lawful, Chained, Contents, Revalidated, SameBelow, Did, Leaves;
      PauseIn(ctx);
      StillRevalidated(ctx, old(disk.trace), disk.trace, target, entry);
      ghost var before := disk.store;
      ContentsOfFile(before, root, entry.Destination(), "");
      if entry.action == Create {
        ok := Act(ctx, OpenNew(target, entry));
      } else {
        ok := Act(ctx, Truncate(target, entry));
      }
    }

    /** Write through the open handle. Others may have put something else at the path meanwhile, and
        then the bytes are not seen there. */
    method WriteThrough(ctx: Context, target: Path, entry: Entry) returns (ok: bool)
      requires OnCourse(ctx) && !ctx.policy.atomicWrites && target == root + entry.Destination()
      requires Did(disk.trace, OpenNew(target, entry)) || Did(disk.trace, Truncate(target, entry))
      requires IsFile(disk.store, target)
      modifies disk`store, disk`trace
      ensures OnCourse(ctx) && old(disk.trace) <= disk.trace
      ensures ok && Isolated() ==> Delivered(disk.trace, target, entry)
      ensures ok && Isolated() ==> Contents(disk.store, root) == Contents(old(disk.store), root)[entry.Destination() := entry.Content()]
      ensures disk.quiet ==> ok && disk.store == old(disk.store)[target := File(entry.Content())]
    {
      hide Lawful, Chained, Contents, Revalidated;
      PauseIn(ctx);
      if Did(old(disk.trace), OpenNew(target, entry)) {
        DidPrefix(old(disk.trace), disk.trace, OpenNew(target, entry));
      } else {
        DidPrefix(old(disk.trace), disk.trace, Truncate(target, entry));
      }
      if Isolated() && !disk.quiet { ShieldCovers(disk.shield, root, target); }
      var detached: bool := *;
      var fails: bool := *;
      var written: int := *;
      if !disk.quiet && !Shielded(disk.shield, target) && (detached || !IsFile(disk.store, target)) {
        ok := !fails;
        return;
      }
      ghost var before := disk.store;
      if !disk.quiet && fails && 0 <= written <= |entry.Content()| {
        var some := Act(ctx, Write(target, entry.Content()[..written], entry));
        ok := false;
      } else {
        ok := Act(ctx, Write(target, entry.Content(), entry));
        ContentsOfFile(before, root, entry.Destination(), entry.Content());
      }
    }

    /** `_revalidate_entry`: re-read the target now. */
    method RevalidateEntry(ctx: Context, target: Path, entry: Entry) returns (stale: Option<StaleReason>)
      requires OnCourse(ctx) && ctx.hash == hash && target == root + entry.Destination()
      modifies disk`store, disk`trace
      ensures OnCourse(ctx) && old(disk.trace) <= disk.trace
      ensures stale == None ==> Revalidated(ctx, disk.trace, target, entry)
      ensures Isolated() ==> stale == StaleReasonOf(hash, entry, SeenAt(old(disk.store), target))
      ensures Isolated() ==> Contents(disk.store, root) == Contents(old(disk.store), root)
      ensures disk.quiet ==> disk.store == old(disk.store)
    {
      hide Lawful, Chained, Contents, StaleReasonOf, Revalidated, Leaves;
      PauseIn(ctx);
      if Isolated() {
        assert root <= target;
        assert SameAt(old(disk.store), disk.store, target);
      }
      ghost var history := disk.trace;
      var seen := disk.Recheck(target, entry);
      var e := Event(Sink(Revalidate(target, entry, seen)), disk.store, disk.store);
      LawfulSnoc(ctx, history, e);
      stale := StaleReasonOf(hash, entry, seen);
      if stale == None { JustRevalidated(ctx, history, e, seen, target, entry); }
    }

    /** One turn of the loop of `commit`. */
    method CommitEntry(ctx: Context, entry: Entry) returns (result: CommitResult)
      requires Valid() && OnCourse(ctx) && ctx.root == root && ctx.policy == policy && ctx.hash == hash && entry in ctx.entries
      modifies disk`store, disk`trace, disk`shield
      ensures OnCourse(ctx) && old(disk.trace) <= disk.trace && disk.shield == old(disk.shield)
      ensures ResultOk(ctx, disk.trace, entry, result, policy.atomicWrites || Isolated())
      ensures policy.dryRun || entry.action == Skip ==> disk.trace == old(disk.trace)
      ensures Isolated() && result.status != Failed ==> Step(Contents(disk.store, root), result) == QuietStep(policy, hash, Contents(old(disk.store), root), entry)
      ensures disk.quiet && (entry.action == Skip || Open(old(disk.store), ctx.Target(entry))) ==>
        Step(Contents(disk.store, root), result) == QuietStep(policy, hash, Contents(old(disk.store), root), entry)
      ensures disk.quiet ==> if policy.dryRun || entry.action == Skip then disk.store == old(disk.store) else ChangedOnlyFor(old(disk.store), disk.store, ctx.Target(entry))
      ensures disk.quiet ==> Grown(old(disk.store), disk.store) && (result.status == Written ==> Settled(disk.store, ctx.Target(entry)))
    {
      hide Lawful, Chained, Contents, Revalidated, ChangedOnlyFor, ClearPath, StaleReasonOf, Delivered, Settled;
      if policy.dryRun { return Outcome(entry, Skipped, DryRun(entry.action)); }
      if entry.action == Skip { return Outcome(entry, Skipped, Planned(entry.reason)); }
      var target := root + entry.Destination();
      var stale := RevalidateEntry(ctx, target, entry);
      ghost var looked := disk.store;
      if disk.quiet { NothingChanged(disk.store, target); }
      SeenBelow(old(disk.store), root, entry.Destination());
      if stale.Some? { return Outcome(entry, Failed, Stale(stale.value)); }
      NotStaleMeans(hash, entry, SeenAt(old(disk.store), target));
      var ok;
      if policy.atomicWrites { ok := AtomicWrite(ctx, target, entry); } else { ok := PlainWrite(ctx, target, entry); }
      if disk.quiet { GrownBy(old(disk.store), disk.store, target); }
      result := if ok then Outcome(entry, Written, Performed(entry.action)) else Outcome(entry, Failed, SystemError);
    }

    /** The loop of `commit`. */
    method CommitEntries(ctx: Context) returns (results: seq<CommitResult>)
      requires Valid() && OnCourse(ctx) && ctx.root == root && ctx.policy == policy && ctx.hash == hash
      modifies disk`store, disk`trace, disk`shield
      ensures OnCourse(ctx) && disk.shield == old(disk.shield) && |results| == |ctx.entries|
      ensures ResultsOk(ctx, disk.trace, results, policy.atomicWrites || Isolated())
      ensures policy.dryRun || WritesNothing(ctx.entries) ==> disk.trace == old(disk.trace)
      ensures Isolated() && NoFailure(results) ==>
        Run(Contents(disk.store, root), results) == QuietRun(policy, hash, Contents(old(disk.store), root), ctx.entries)
      ensures disk.quiet && Unobstructed(ctx, old(disk.store)) ==>
        Run(Contents(disk.store, root), results) == QuietRun(policy, hash, Contents(old(disk.store), root), ctx.entries)
      ensures disk.quiet ==> OnlyTargetsChanged(ctx, old(disk.store), disk.store)
      ensures disk.quiet && !policy.dryRun && NoFailure(results) ==> Unobstructed(ctx, old(disk.store))
    {
      hide Lawful, Chained, Contents, QuietRun, QuietStep, Unobstructed, OnlyTargetsChanged, ResultsOk, ResultOk, NoFailure, ChangedOnlyFor, Open,
        Grown, AllSettled;
      results := [];
      ghost var files := Contents(disk.store, root);
      NothingYet(ctx, disk.trace, disk.store, policy.atomicWrites || Isolated());
      NothingSettled(ctx, disk.store);
      QuietRunEmpty(policy, hash, files);
      for i := 0 to |ctx.entries|
        invariant OnCourse(ctx) && disk.shield == old(disk.shield) && |results| == i
        invariant ResultsOk(ctx, disk.trace, results, policy.atomicWrites || Isolated())
        invariant policy.dryRun || WritesNothing(ctx.entries) ==> disk.trace == old(disk.trace)
        invariant Isolated() && NoFailure(results) ==> Run(Contents(disk.store, root), results) == QuietRun(policy, hash, files, ctx.entries[..i])
        invariant disk.quiet && Unobstructed(ctx, old(disk.store)) ==>
          Run(Contents(disk.store, root), results) == QuietRun(policy, hash, files, ctx.entries[..i]) && Unobstructed(ctx, disk.store)
        invariant disk.quiet ==>
          OnlyTargetsChanged(ctx, old(disk.store), disk.store) && Grown(old(disk.store), disk.store) && AllSettled(ctx, disk.store, results)
      {
        ghost var before, history, earlier := disk.store, disk.trace, results;
        var result := CommitEntry(ctx, ctx.entries[i]);
        results := results + [result];
        OneMore(ctx, history, disk.trace, earlier, result, policy.atomicWrites || Isolated());
        QuietRunSnoc(policy, hash, files, ctx.entries, i);
        if disk.quiet {
          ChangesAccounted(ctx, old(disk.store), before, disk.store, i);
          GrownOn(old(disk.store), before, disk.store);
          OneMoreSettled(ctx, before, disk.store, earlier, result);
        }
        if disk.quiet && Unobstructed(ctx, old(disk.store)) {
          UnobstructedEntry(ctx, before, i);
          StaysUnobstructed(ctx, before, disk.store, i);
        }
      }
      assert ctx.entries[..|ctx.entries|] == ctx.entries;
      if disk.quiet && !policy.dryRun && NoFailure(results) {
        SettledMeansUnobstructed(ctx, old(disk.store), disk.store, disk.trace, results, policy.atomicWrites || Isolated());
      }
    }

    /** Commit the plan. Whatever other processes do meanwhile, every step is a lawful one. */
    method Commit() returns (receipt: Receipt)
      requires Valid()
      modifies this, disk
      ensures Valid() && planned.Some? && intents == old(intents) && disk.shield == old(disk.shield)
      ensures old(planned).Some? ==> planned == old(planned)
      ensures old(planned).None? && Isolated() ==> plannedFrom == SeenOn(old(disk.store), root, intents)
      ensures Lawful(PlanContext(), disk.trace) && Chained(old(disk.store), disk.trace, disk.store)
      ensures !planned.value.Ready() || policy.dryRun || WritesNothing(planned.value.entries) ==> OnlyLooks(Guard(), disk.trace)
      ensures !planned.value.Ready() ==> receipt == MakeReceipt(planned.value, []) && (disk.quiet ==> disk.store == old(disk.store))
      ensures planned.value.Ready() ==>
        receipt == MakeReceipt(planned.value, receipt.results)
        && |receipt.results| == |intents| && ResultsOk(PlanContext(), disk.trace, receipt.results, policy.atomicWrites || Isolated())
      ensures Isolated() && receipt.status == Passed ==>
        Run(Contents(disk.store, root), receipt.results) == QuietRun(policy, hash, Contents(old(disk.store), root), planned.value.entries)
      ensures disk.quiet && planned.value.Ready() && Unobstructed(PlanContext(), old(disk.store)) ==>
        Run(Contents(disk.store, root), receipt.results) == QuietRun(policy, hash, Contents(old(disk.store), root), planned.value.entries)
      ensures disk.quiet && planned.value.Ready() ==> OnlyTargetsChanged(PlanContext(), old(disk.store), disk.store)
      ensures disk.quiet && planned.value.Ready() && !policy.dryRun && NoFailure(receipt.results) ==> Unobstructed(PlanContext(), old(disk.store))
    {
      hide Lawful, Chained, Contents, QuietRun, Unobstructed, OnlyTargetsChanged, ResultsOk, OnlyLooks, IsPlan, SameBelow, SeenOn, NoFailure;
      disk.BeginRun();
      NoLooksYet(Guard());
      StartsChained(disk.store);
      var plan := Plan();
      if Isolated() { SameContentsBelow(old(disk.store), disk.store, root); }
      var ctx := Context(policy, hash, root, Guard(), plan.entries);
      LooksAreLawful(ctx, disk.trace);
      PlanLength(plan, policy, hash, intents, plannedFrom);
      if !plan.Ready() { return MakeReceipt(plan, []); }
      var results := CommitEntries(ctx);
      receipt := MakeReceipt(plan, results);
      PassedMeansNoFailure(plan, results);
    }

    /** The plan this sink commits, as its steps refer to it. */
    ghost function PlanContext(): Context
      requires planned.Some?
      reads this, disk
    {
      Context(policy, hash, root, Guard(), planned.value.entries)
    }
  }

  /** What one committed entry reports. */
  ghost predicate ResultOk(ctx: Context, run: seq<Event>, entry: Entry, result: CommitResult, certain: bool) {
    && result.logicalId == entry.intent.artifact.logicalId && result.destination == entry.Destination()
    && (result.status == Skipped <==> ctx.policy.dryRun || entry.action == Skip)
    && (result.status == Written && certain ==> Delivered(run, ctx.Target(entry), entry))
  }

  lemma {:induction false} ResultOkPrefix(ctx: Context, run: seq<Event>, longer: seq<Event>, entry: Entry, result: CommitResult, certain: bool)
    requires run <= longer && ResultOk(ctx, run, entry, result, certain)
    ensures ResultOk(ctx, longer, entry, result, certain)
  {
    if result.status == Written && certain { DeliveredPrefix(run, longer, ctx.Target(entry), entry); }
  }

  ghost predicate ResultsOk(ctx: Context, run: seq<Event>, results: seq<CommitResult>, certain: bool) {
    |results| <= |ctx.entries| && forall k :: 0 <= k < |results| ==> ResultOk(ctx, run, ctx.entries[k], results[k], certain)
  }

  predicate WritesNothing(entries: seq<Entry>) {
    forall i :: 0 <= i < |entries| ==> entries[i].action == Skip
  }

  predicate NoFailure(results: seq<CommitResult>) {
    forall k :: 0 <= k < |results| ==> results[k].status != Failed
  }

  lemma {:induction false} OneMore(ctx: Context, run: seq<Event>, longer: seq<Event>, results: seq<CommitResult>, result: CommitResult, certain: bool)
    requires run <= longer && |results| < |ctx.entries| && ResultsOk(ctx, run, results, certain)
    requires ResultOk(ctx, longer, ctx.entries[|results|], result, certain)
    ensures ResultsOk(ctx, longer, results + [result], certain)
    ensures NoFailure(results + [result]) <==> NoFailure(results) && result.status != Failed
  {
    hide ResultOk;
    var all := results + [result];
    forall k | 0 <= k < |all| ensures ResultOk(ctx, longer, ctx.entries[k], all[k], certain) {
      if k < |results| { ResultOkPrefix(ctx, run, longer, ctx.entries[k], results[k], certain); }
    }
    assert forall k :: 0 <= k < |results| ==> all[k] == results[k];
    assert all[|results|] == result;
  }

  lemma {:induction false} PassedMeansNoFailure(plan: WritePlan, results: seq<CommitResult>)
    ensures MakeReceipt(plan, results).status == Passed ==> NoFailure(results)
  {
  }

  lemma {:induction false} NoLooksYet(guard: set<Path>)
    ensures OnlyLooks(guard, [])
  {
  }

  lemma {:induction false} StartsChained(store: Store)
    ensures Chained(store, [], store)
  {
  }

  lemma {:induction false} SameContentsBelow(a: Store, b: Store, root: Path)
    requires SameBelow(a, b, root)
    ensures Contents(a, root) == Contents(b, root)
  {
    SameContents(a, b, root);
  }

  lemma {:induction false} PlanLength(plan: WritePlan, policy: Policy, hash: HashFn, intents: seq<Intent>, seen: seq<Seen>)
    requires IsPlan(plan, policy, hash, intents, seen)
    ensures |plan.entries| == |intents|
  {
  }

  lemma {:induction false} QuietRunEmpty(policy: Policy, hash: HashFn, files: Files)
    ensures QuietRun(policy, hash, files, []) == Run(files, [])
  {
  }

  lemma {:induction false} QuietRunSnoc(policy: Policy, hash: HashFn, files: Files, entries: seq<Entry>, i: nat)
    requires i < |entries|
    ensures var before := QuietRun(policy, hash, files, entries[..i]);
      var step := QuietStep(policy, hash, before.files, entries[i]);
      QuietRun(policy, hash, files, entries[..i + 1]) == Run(step.files, before.results + [step.result])
  {
    hide QuietStep;
    assert entries[..i + 1][..i] == entries[..i];
  }

  // ---- Nothing in the way ----

  /** No destination to be written lies below another. */
  ghost predicate PrefixFree(entries: seq<Entry>) {
    forall i, j :: 0 <= i < |entries| && 0 <= j < |entries| && entries[i].action != Skip && entries[j].action != Skip ==>
      !(entries[i].Destination() < entries[j].Destination())
  }

  /** Every target to be written can be: no directory is there, and nothing else where a parent must be. */
  ghost predicate Unobstructed(ctx: Context, store: Store) {
    PrefixFree(ctx.entries) && forall i :: 0 <= i < |ctx.entries| && ctx.entries[i].action != Skip ==> Open(store, ctx.Target(ctx.entries[i]))
  }

  /** Only targets to be written, and missing directories above them, differ. */
  ghost predicate OnlyTargetsChanged(ctx: Context, a: Store, b: Store) {
    forall p :: SameAt(a, b, p) || exists i :: 0 <= i < |ctx.entries| && MayChange(ctx, a, b, i, p)
  }

  ghost predicate MayChange(ctx: Context, a: Store, b: Store, i: nat, p: Path)
    requires i < |ctx.entries|
  {
    ctx.entries[i].action != Skip
    && (p == ctx.Target(ctx.entries[i]) || (p < ctx.Target(ctx.entries[i]) && p !in a && IsDir(b, p)))
  }

  lemma {:induction false} NothingYet(ctx: Context, run: seq<Event>, store: Store, certain: bool)
    ensures ResultsOk(ctx, run, [], certain) && OnlyTargetsChanged(ctx, store, store)
  {
  }

  lemma {:induction false} UnobstructedEntry(ctx: Context, store: Store, i: nat)
    requires Unobstructed(ctx, store) && i < |ctx.entries|
    ensures ctx.entries[i].action == Skip || Open(store, ctx.Target(ctx.entries[i]))
  {
  }

  /** Writing one target keeps the others writable. */
  lemma {:induction false} StaysUnobstructed(ctx: Context, before: Store, after: Store, i: nat)
    requires i < |ctx.entries| && Unobstructed(ctx, before)
    requires before == after || (ctx.entries[i].action != Skip && ChangedOnlyFor(before, after, ctx.Target(ctx.entries[i])))
    ensures Unobstructed(ctx, after)
  {
    if before != after {
      hide Open;
      forall j | 0 <= j < |ctx.entries| && ctx.entries[j].action != Skip ensures Open(after, ctx.Target(ctx.entries[j])) {
        OpenStays(ctx, before, after, i, j);
      }
    }
  }

  lemma {:induction false} ChangesAccounted(ctx: Context, first: Store, before: Store, after: Store, i: nat)
    requires i < |ctx.entries| && OnlyTargetsChanged(ctx, first, before)
    requires before == after || (ctx.entries[i].action != Skip && ChangedOnlyFor(before, after, ctx.Target(ctx.entries[i])))
    ensures OnlyTargetsChanged(ctx, first, after)
  {
    if before != after {
      forall p | !SameAt(first, after, p) ensures exists k :: 0 <= k < |ctx.entries| && MayChange(ctx, first, after, k, p) {
        ChangeAccounted(ctx, first, before, after, i, p);
      }
    }
  }

  /** What was written is there, with directories all the way to it. */
  ghost predicate AllSettled(ctx: Context, store: Store, results: seq<CommitResult>) {
    |results| <= |ctx.entries| && forall k :: 0 <= k < |results| && results[k].status == Written ==> Settled(store, ctx.Target(ctx.entries[k]))
  }

  lemma {:induction false} NothingSettled(ctx: Context, store: Store)
    ensures AllSettled(ctx, store, []) && Grown(store, store)
  {
  }

  lemma {:induction false} OneMoreSettled(ctx: Context, before: Store, after: Store, results: seq<CommitResult>, result: CommitResult)
    requires |results| < |ctx.entries| && AllSettled(ctx, before, results) && Grown(before, after)
    requires result.status == Written ==> Settled(after, ctx.Target(ctx.entries[|results|]))
    ensures AllSettled(ctx, after, results + [result])
  {
    hide Settled, Grown;
    var all := results + [result];
    forall k | 0 <= k < |all| && all[k].status == Written ensures Settled(after, ctx.Target(ctx.entries[k])) {
      if k < |results| { StaysSettled(before, after, ctx.Target(ctx.entries[k])); }
    }
  }

  /** When everything that was to be written was, nothing was in the way from the start. */
  lemma {:induction false} SettledMeansUnobstructed(
      ctx: Context, first: Store, last: Store, run: seq<Event>, results: seq<CommitResult>, certain: bool)
    requires !ctx.policy.dryRun && ctx.root != [] && ResultsOk(ctx, run, results, certain) && NoFailure(results) && |results| == |ctx.entries|
    requires Grown(first, last) && AllSettled(ctx, last, results)
    ensures Unobstructed(ctx, first)
  {
    hide Settled, Grown, Open, Delivered;
    forall i | 0 <= i < |ctx.entries| && ctx.entries[i].action != Skip
      ensures Settled(last, ctx.Target(ctx.entries[i])) && Open(first, ctx.Target(ctx.entries[i]))
    {
      assert ResultOk(ctx, run, ctx.entries[i], results[i], certain);
      assert results[i].status == Written;
      SettledWasOpen(first, last, ctx.Target(ctx.entries[i]));
    }
    forall i, j | 0 <= i < |ctx.entries| && 0 <= j < |ctx.entries| && ctx.entries[i].action != Skip && ctx.entries[j].action != Skip
      ensures !(ctx.entries[i].Destination() < ctx.entries[j].Destination())
    {
      PrefixBelow(ctx.root, ctx.entries[i].Destination(), ctx.entries[j].Destination());
      assert Settled(last, ctx.Target(ctx.entries[i])) && Settled(last, ctx.Target(ctx.entries[j]));
      if ctx.Target(ctx.entries[i]) < ctx.Target(ctx.entries[j]) { DirAbove(last, ctx.Target(ctx.entries[i]), ctx.Target(ctx.entries[j])); }
      FileThere(last, ctx.Target(ctx.entries[i]));
    }
  }

  lemma {:induction false} SettledWasOpen(first: Store, last: Store, target: Path)
    requires Grown(first, last) && Settled(last, target)
    ensures Open(first, target)
  {
    forall n | 0 < n < |target| && target[..n] in first ensures first[target[..n]] == Dir {
      assert IsDir(last, target[..n]);
    }
  }

  lemma {:induction false} DirAbove(store: Store, s: Path, t: Path)
    requires Settled(store, t) && s < t && s != []
    ensures IsDir(store, s)
  {
    assert t[..|s|] == s;
  }

  lemma {:induction false} FileThere(store: Store, t: Path)
    requires Settled(store, t)
    ensures IsFile(store, t)
  {
  }

  lemma {:induction false} OpenStays(ctx: Context, before: Store, after: Store, i: nat, j: nat)
    requires i < |ctx.entries| && j < |ctx.entries| && ctx.entries[i].action != Skip && ctx.entries[j].action != Skip
    requires PrefixFree(ctx.entries) && ChangedOnlyFor(before, after, ctx.Target(ctx.entries[i]))
    requires Open(before, ctx.Target(ctx.entries[j]))
    ensures Open(after, ctx.Target(ctx.entries[j]))
  {
    var s, t := ctx.Target(ctx.entries[i]), ctx.Target(ctx.entries[j]);
    PrefixBelow(ctx.root, ctx.entries[i].Destination(), ctx.entries[j].Destination());
    PrefixBelow(ctx.root, ctx.entries[j].Destination(), ctx.entries[i].Destination());
    forall n | 0 < n < |t| && t[..n] in after ensures after[t[..n]] == Dir {
      assert t[..n] < t;
      assert SameAt(before, after, t[..n]) || IsDir(after, t[..n]);
    }
    assert SameAt(before, after, t) || (t == s && IsFile(after, t));
  }

  lemma {:induction false} PrefixBelow(root: Path, d: Path, e: Path)
    ensures root + d < root + e <==> d < e
  {
    if root + d < root + e {
      assert (root + e)[|root|..] == e && (root + d)[|root|..] == d;
      assert forall k :: 0 <= k < |d| ==> d[k] == (root + d)[|root| + k] == (root + e)[|root| + k] == e[k];
    }
  }

  lemma {:induction false} ChangeAccounted(ctx: Context, first: Store, before: Store, after: Store, i: nat, p: Path)
    requires i < |ctx.entries| && ctx.entries[i].action != Skip && OnlyTargetsChanged(ctx, first, before)
    requires ChangedOnlyFor(before, after, ctx.Target(ctx.entries[i])) && !SameAt(first, after, p)
    ensures exists k :: 0 <= k < |ctx.entries| && MayChange(ctx, first, after, k, p)
  {
    if SameAt(before, after, p) {
      assert !SameAt(first, before, p);
      var k :| 0 <= k < |ctx.entries| && MayChange(ctx, first, before, k, p);
      assert MayChange(ctx, first, after, k, p);
    } else if p == ctx.Target(ctx.entries[i]) {
      assert MayChange(ctx, first, after, i, p);
    } else if p !in first {
      assert MayChange(ctx, first, after, i, p);
    } else {
      assert p !in before;
      assert !SameAt(first, before, p);
      var k :| 0 <= k < |ctx.entries| && MayChange(ctx, first, before, k, p);
      assert MayChange(ctx, first, after, k, p);
    }
  }

  /** Nothing but interference or the device keeps a file from being put at the path. */
  ghost predicate Open(store: Store, target: Path) {
    ClearPath(store, target) && !IsDir(store, target)
  }

  lemma {:induction false} NothingChanged(store: Store, target: Path)
    ensures ChangedOnlyFor(store, store, target)
  {
  }

  lemma {:induction false} SeenBelow(store: Store, root: Path, d: Path)
    ensures SeenAt(store, root + d) != Other ==> SeenAt(store, root + d) == SeenIn(Contents(store, root), d)
    ensures SeenAt(store, root + d) == Other <==> IsDir(store, root + d)
  {
  }

  lemma {:induction false} NotStaleMeans(hash: HashFn, entry: Entry, seen: Seen)
    requires entry.action != Skip
    ensures StaleReasonOf(hash, entry, seen) == None ==> seen != Other && (entry.action == Create ==> seen == Absent)
  {
  }

  lemma {:induction false} OnlyTheTargetPlain(first: Store, made: Store, last: Store, target: Path, entry: Entry)
    requires ChangedOnlyFor(first, made, target) && SameAt(first, made, target)
    requires last == made || last == made[target := File("")][target := File(entry.Content())]
    ensures ChangedOnlyFor(first, last, target)
    ensures last != made ==> last == made[target := File(entry.Content())]
  {
  }

  /** The files without the one at `p`, if `p` is below the root. */
  function FilesWithout(files: Files, root: Path, p: Path): Files {
    if root <= p then files - {p[|root|..]} else files
  }

  lemma {:induction false} FileBelow(store: Store, root: Path, p: Path, bytes: string)
    ensures Contents(store[p := File(bytes)], root) == if root <= p then Contents(store, root)[p[|root|..] := bytes] else Contents(store, root)
  {
    if root <= p {
      assert root + p[|root|..] == p;
      ContentsOfFile(store, root, p[|root|..], bytes);
    } else {
      var more := store[p := File(bytes)];
      assert forall q :: root <= q ==> SameAt(store, more, q);
      SameContents(store, more, root);
    }
  }

  lemma {:induction false} RemovedAside(store: Store, root: Path, p: Path)
    ensures Contents(store - {p}, root) == FilesWithout(Contents(store, root), root, p)
    ensures p !in store ==> Contents(store, root) == FilesWithout(Contents(store, root), root, p)
  {
    if root <= p {
      assert root + p[|root|..] == p;
      ContentsOfRemoval(store, root, p[|root|..]);
    } else {
      var less := store - {p};
      assert forall q :: root <= q ==> SameAt(store, less, q);
      SameContents(store, less, root);
    }
    if p !in store { assert store - {p} == store; }
  }

  lemma {:induction false} RefilledAside(store: Store, root: Path, temp: Path, bytes: string)
    ensures FilesWithout(Contents(store[temp := File(bytes)], root), root, temp) == FilesWithout(Contents(store, root), root, temp)
  {
    hide Contents;
    FileBelow(store, root, temp, bytes);
  }

  lemma {:induction false} StagedAside(store: Store, root: Path, temp: Path, bytes: string)
    requires temp !in store
    ensures FilesWithout(Contents(store[temp := File(bytes)], root), root, temp) == Contents(store, root)
  {
    RefilledAside(store, root, temp, bytes);
    RemovedAside(store, root, temp);
  }

  /** Linking or swapping a staged file into place, the staged file left aside. */
  lemma {:induction false} PlacedAside(before: Store, after: Store, root: Path, temp: Path, target: Path, entry: Entry)
    requires temp in before && before[temp] == File(entry.Content()) && temp != target && target == root + entry.Destination()
    requires after == before[target := File(entry.Content())] || after == (before - {temp})[target := File(entry.Content())]
    ensures FilesWithout(Contents(after, root), root, temp) == FilesWithout(Contents(before, root), root, temp)[entry.Destination() := entry.Content()]
    ensures after - {temp} == (before - {temp})[target := File(entry.Content())]
  {
    hide Contents, FilesWithout;
    assert after - {temp} == (before - {temp})[target := File(entry.Content())];
    RemovedAside(before, root, temp);
    ContentsOfFile(before - {temp}, root, entry.Destination(), entry.Content());
    RemovedAside(after, root, temp);
  }

  lemma {:induction false} SiblingParent(ctx: Context, store: Store, target: Path, name: string)
    requires target != [] && ctx.BesideTarget(target)
    ensures ParentIsDir(store, target[..|target| - 1] + [name]) <==> ParentIsDir(store, target)
    ensures ctx.BesideTarget(target[..|target| - 1] + [name])
  {
    var sibling := target[..|target| - 1] + [name];
    assert sibling[..|sibling| - 1] == target[..|target| - 1];
    var i :| 0 <= i < |ctx.entries| && ctx.entries[i].action != Skip && Beside(target, ctx.Target(ctx.entries[i]));
    assert Beside(sibling, ctx.Target(ctx.entries[i]));
  }

  /** A planned target is above and beside itself. */
  lemma {:induction false} PlannedTarget(ctx: Context, target: Path, entry: Entry)
    requires ctx.Plans(entry, target, entry.action) && entry.action != Skip && target != []
    ensures ctx.Above(target) && ctx.BesideTarget(target) && ctx.IsTarget(target)
  {
    var i :| 0 <= i < |ctx.entries| && ctx.entries[i] == entry;
    assert target <= ctx.Target(ctx.entries[i]);
    assert Beside(target, ctx.Target(ctx.entries[i]));
  }

  lemma {:induction false} SparesLess(less: set<Path>, more: set<Path>, a: Store, b: Store)
    requires (less <= more && Spares(more, a, b)) || a == b
    ensures Spares(less, a, b)
  {
    forall p | p in a.Keys + b.Keys && Shielded(less, p) ensures SameAt(a, b, p) {
      if less <= more {
        var s :| s in less && s <= p;
        assert s in more;
      }
    }
  }

  lemma {:induction false} ShieldedItself(shield: set<Path>, p: Path)
    requires p in shield
    ensures Shielded(shield, p)
  {
    assert p <= p;
  }

  lemma {:induction false} SparedAt(shield: set<Path>, a: Store, b: Store, p: Path)
    requires Spares(shield, a, b) && Shielded(shield, p)
    ensures SameAt(a, b, p)
  {
  }

  lemma {:induction false} StillShielded(shield: set<Path>, more: Path, p: Path)
    ensures Shielded(shield, p) ==> Shielded(shield + {more}, p)
  {
    if Shielded(shield, p) {
      var s :| s in shield && s <= p;
      assert s in shield + {more};
    }
  }

  lemma {:induction false} OwnTempIsNoTarget(ctx: Context, history: seq<Event>, temp: Path, target: Path, entry: Entry)
    requires OwnTemp(ctx, history, temp) && ctx.Plans(entry, target, entry.action)
    ensures temp != target
  {
  }

  /** The staged file can be moved into place now. */
  ghost predicate CanPlace(store: Store, target: Path, action: Action) {
    ParentIsDir(store, target) && !IsDir(store, target) && (action == Create ==> target !in store)
  }

  /** A write to the target cannot fail for a reason other than interference or the device. */
  ghost predicate Writable(store: Store, target: Path, action: Action) {
    ClearPath(store, target) && !IsDir(store, target) && (action == Create ==> target !in store)
  }

  lemma {:induction false} WritableNow(before: Store, made: Store, target: Path, action: Action)
    requires Writable(before, target, action) && SameAt(before, made, target) && ParentIsDir(made, target)
    ensures CanPlace(made, target, action)
  {
  }

  lemma {:induction false} CanPlaceAllows(staged: Store, filled: Store, target: Path, temp: Path, entry: Entry)
    requires CanPlace(staged, target, entry.action) && entry.action != Skip && IsFile(staged, temp) && temp != target
    requires filled == staged[temp := File(entry.Content())]
    ensures Apply(if entry.action == Create then Link(temp, target, entry) else Swap(temp, target, entry), filled).Some?
  {
  }

  lemma {:induction false} StagingKeepsPlace(made: Store, temp: Path, target: Path, action: Action)
    requires temp !in made
    requires temp != target
    ensures CanPlace(made, target, action) ==> CanPlace(made[temp := File("")], target, action)
  {
  }

  lemma {:induction false} OnlyTheTarget(
      first: Store, made: Store, staged: Store, placed: Store, last: Store, temp: Path, target: Path, entry: Entry, ok: bool)
    requires ChangedOnlyFor(first, made, target) && SameAt(first, made, target)
    requires temp !in made && staged == made[temp := File("")] && temp != target
    requires placed - {temp} == if ok then (staged - {temp})[target := File(entry.Content())] else staged - {temp}
    requires last == placed - {temp}
    ensures ChangedOnlyFor(first, last, target)
    ensures ok ==> last == made[target := File(entry.Content())]
  {
    assert staged - {temp} == made;
  }

  /** The store with a directory at `p`, unless something is there. */
  ghost function WithDir(store: Store, p: Path): Store {
    if p in store then store else store[p := Dir]
  }

  ghost predicate DirPossible(store: Store, p: Path) {
    if p in store then store[p] == Dir else ParentIsDir(store, p)
  }

  /** The store with the target's first `n` ancestors made. */
  ghost function WithAncestors(store: Store, target: Path, n: nat): Store
    requires n < |target|
  {
    if n == 0 then store else WithDir(WithAncestors(store, target, n - 1), target[..n])
  }

  /** The target's ancestors shorter than `n` are directories. */
  ghost predicate DirsTo(store: Store, target: Path, n: nat)
    requires n <= |target|
  {
    forall k :: 0 < k < n ==> IsDir(store, target[..k])
  }

  lemma {:induction false} MoreDirs(store: Store, target: Path, i: nat)
    requires 0 < i < |target| && DirsTo(store, target, i)
    ensures var after := WithDir(store, target[..i]); IsDir(after, target[..i]) ==> DirsTo(after, target, i + 1)
  {
  }

  /** A file is at the target, with directories all the way to it. */
  ghost predicate Settled(store: Store, target: Path) {
    IsFile(store, target) && DirsTo(store, target, |target|)
  }

  lemma {:induction false} SettledBy(made: Store, last: Store, target: Path, bytes: string)
    requires DirsTo(made, target, |target|) && last == made[target := File(bytes)]
    ensures Settled(last, target)
  {
  }

  /** Nothing vanished, and files and directories stayed what they are. */
  ghost predicate Grown(a: Store, b: Store) {
    forall p :: p in a ==> p in b && (a[p].File? <==> b[p].File?)
  }

  lemma {:induction false} GrownBy(a: Store, b: Store, target: Path)
    requires ChangedOnlyFor(a, b, target) && !IsDir(a, target)
    ensures Grown(a, b)
  {
    forall p | p in a ensures p in b && (a[p].File? <==> b[p].File?) {
      assert SameAt(a, b, p) || (p == target && IsFile(b, p));
    }
  }

  lemma {:induction false} GrownOn(a: Store, b: Store, c: Store)
    requires Grown(a, b) && Grown(b, c)
    ensures Grown(a, c)
  {
  }

  lemma {:induction false} StaysSettled(a: Store, b: Store, target: Path)
    requires Grown(a, b) && Settled(a, target)
    ensures Settled(b, target)
  {
  }

  lemma {:induction false} WithoutAncestors(store: Store, target: Path)
    requires target != []
    ensures WithAncestors(store, target, 0) == store && DirsTo(store, target, 1)
  {
  }

  lemma {:induction false} NextAncestor(store: Store, target: Path, i: nat)
    requires 0 < i < |target|
    ensures WithAncestors(store, target, i) == WithDir(WithAncestors(store, target, i - 1), target[..i])
  {
  }

  /** While the path is clear, the next ancestor is there as a directory or can be made. */
  lemma {:induction false} AncestorReady(store: Store, target: Path, i: nat)
    requires ClearPath(store, target) && 0 < i < |target|
    ensures DirPossible(WithAncestors(store, target, i - 1), target[..i])
    ensures IsDir(WithAncestors(store, target, i), target[..i])
  {
    AncestorsOnly(store, target, i - 1);
    if i > 1 {
      AncestorReady(store, target, i - 1);
      assert target[..i][..i - 1] == target[..i - 1];
    }
  }

  /** Making ancestors changes nothing else, and leaves a clear path with a parent directory. */
  lemma {:induction false} AncestorsOnly(store: Store, target: Path, n: nat)
    requires n < |target|
    ensures ChangedOnlyFor(store, WithAncestors(store, target, n), target) && SameAt(store, WithAncestors(store, target, n), target)
    ensures forall j :: n < j <= |target| ==> SameAt(store, WithAncestors(store, target, n), target[..j])
    ensures ClearPath(store, target) && n == |target| - 1 ==> ParentIsDir(WithAncestors(store, target, n), target)
    decreases n, 0
  {
    assert target[..|target|] == target;
    if n > 0 {
      AncestorsOnly(store, target, n - 1);
      assert target[..n] < target;
      assert forall j :: n < j <= |target| ==> target[..j] != target[..n] by {
        assert forall j :: n < j <= |target| ==> |target[..j]| != n;
      }
      if ClearPath(store, target) && target[..n] in WithAncestors(store, target, n - 1) {
        assert SameAt(store, WithAncestors(store, target, n - 1), target[..n]);
      }
    }
  }

  lemma {:induction false} ShieldCovers(shield: set<Path>, root: Path, p: Path)
    requires Shielded(shield, root) && root <= p
    ensures Shielded(shield, p)
  {
    var s :| s in shield && s <= root;
    assert s <= p;
  }

  /** The issues of the first `n` intents, from what was seen so far. */
  ghost function IssuesSoFar(policy: Policy, hash: HashFn, intents: seq<Intent>, seen: seq<Seen>, n: nat): set<Issue>
    requires n <= |seen| && n <= |intents|
  {
    if n == 0 then Limits(policy, intents)
    else
      IssuesSoFar(policy, hash, intents, seen, n - 1)
      + IssuesOf(policy, DestinationsBefore(intents, n - 1), Decide(policy, hash, intents[n - 1], seen[n - 1]))
  }

  lemma {:induction false} IssuesSoFarExtends(policy: Policy, hash: HashFn, intents: seq<Intent>, seen: seq<Seen>, look: Seen, n: nat)
    requires n <= |seen| && n <= |intents|
    ensures IssuesSoFar(policy, hash, intents, seen + [look], n) == IssuesSoFar(policy, hash, intents, seen, n)
  {
    hide Decide, IssuesOf, Limits;
    if n > 0 { IssuesSoFarExtends(policy, hash, intents, seen, look, n - 1); }
  }

  lemma {:induction false} IssuesSoFarIsAll(policy: Policy, hash: HashFn, intents: seq<Intent>, seen: seq<Seen>, n: nat)
    requires n <= |seen| == |intents|
    ensures IssuesSoFar(policy, hash, intents, seen, n) == IssuesUpTo(policy, hash, intents, seen, n)
  {
    hide Decide, IssuesOf, Limits;
    if n > 0 { IssuesSoFarIsAll(policy, hash, intents, seen, n - 1); }
  }
}
