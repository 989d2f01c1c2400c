/** The in-memory sink (io/memory_output_sink.py): the simple form of the write boundary. */
module MemorySink {
  import opened Wrappers
  import opened WritePlans

  class MemoryOutputSink {
    const policy: Policy
    const hash: HashFn
    var storage: Files
    var intents: seq<Intent>
    var planned: Option<WritePlan>
    /** The storage the cached plan was made from. */
    ghost var plannedFrom: Files

    ghost predicate Valid()
      reads this
    {
      planned.Some? ==> IsPlan(planned.value, policy, hash, intents, SeenAll(plannedFrom, intents))
    }

    constructor (policy: Policy, hash: HashFn, existing: Files)
      ensures Valid() && this.policy == policy && this.hash == hash
      ensures storage == existing && intents == [] && planned == None
    {
      this.policy := policy;
      this.hash := hash;
      storage := existing;
      intents := [];
      planned := None;
      plannedFrom := existing;
    }

    method Enqueue(intent: Intent)
      requires Valid()
      modifies this
      ensures Valid() && intents == old(intents) + [intent] && planned == None && storage == old(storage)
    {
      intents := intents + [intent];
      planned := None;
    }

    method Plan() returns (plan: WritePlan)
      requires Valid()
      modifies this
      ensures Valid() && planned == Some(plan) && intents == old(intents) && storage == old(storage)
      ensures old(planned).Some? ==> plan == old(planned).value && plannedFrom == old(plannedFrom)
      ensures old(planned).None? ==> plannedFrom == storage
    {
      if planned.Some? { return planned.value; }
      var entries, issues := PlanIntents(policy, hash, storage, intents);
      plan := WritePlan(entries, TotalBytes(intents), issues);
      planned := Some(plan);
      plannedFrom := storage;
    }

    /** The body of `plan`: one pass over the intents, collecting entries and issues. */
    static method PlanIntents(policy: Policy, hash: HashFn, storage: Files, intents: seq<Intent>)
      returns (entries: seq<Entry>, issues: set<Issue>)
      ensures IsPlan(WritePlan(entries, TotalBytes(intents), issues), policy, hash, intents, SeenAll(storage, intents))
    {
      issues := Limits(policy, intents);
      var seen: set<Path> := {};
      entries := [];
      ghost var looks := SeenAll(storage, intents);
      hide Decide, IssuesOf, Limits, TotalBytes, SeenAll;
      for i := 0 to |intents|
        invariant |entries| == i
        invariant forall k :: 0 <= k < i ==> entries[k] == Decide(policy, hash, intents[k], looks[k])
        invariant seen == DestinationsBefore(intents, i)
        invariant issues == IssuesUpTo(policy, hash, intents, looks, i)
      {
        var entry := Decide(policy, hash, intents[i], SeenIn(storage, intents[i].artifact.destination));
        issues := issues + IssuesOf(policy, seen, entry);
        seen := seen + {intents[i].artifact.destination};
        entries := entries + [entry];
      }
    }

    /** Commit the plan: nothing when it is blocked, otherwise every entry in order. */
    method Commit() returns (receipt: Receipt)
      requires Valid()
      modifies this
      ensures Valid() && planned.Some? && intents == old(intents)
      ensures old(planned).Some? ==> planned == old(planned)
      ensures old(planned).None? ==> plannedFrom == old(storage)
      ensures !planned.value.Ready() ==> storage == old(storage) && receipt == MakeReceipt(planned.value, [])
      ensures planned.value.Ready() ==>
        var run := MemoryRun(policy, old(storage), planned.value.entries);
        storage == run.files && receipt == MakeReceipt(planned.value, run.results)
    {
      var plan := Plan();
      if !plan.Ready() { return MakeReceipt(plan, []); }
      var results := CommitEntries(plan.entries);
      receipt := MakeReceipt(plan, results);
    }

    /** The loop of `commit`. */
    method CommitEntries(entries: seq<Entry>) returns (results: seq<CommitResult>)
      modifies `storage
      ensures Run(storage, results) == MemoryRun(policy, old(storage), entries)
    {
      results := [];
      for i := 0 to |entries|
        invariant Run(storage, results) == MemoryRun(policy, old(storage), entries[..i])
      {
        var entry := entries[i];
        assert entries[..i + 1][..i] == entries[..i];
        if policy.dryRun {
          results := results + [Outcome(entry, Skipped, DryRun(entry.action))];
        } else if entry.action == Skip {
          results := results + [Outcome(entry, Skipped, Planned(entry.reason))];
        } else {
          storage := storage[entry.Destination() := entry.Content()];
          results := results + [Outcome(entry, Written, Performed(entry.action))];
        }
      }
      assert entries[..|entries|] == entries;
    }

    method Clear()
      modifies this
      ensures Valid() && intents == [] && planned == None && storage == old(storage)
    {
      intents := [];
      planned := None;
    }
  }
}
