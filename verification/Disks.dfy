/** A disk shared with other processes.

Every effect a sink performs is one atomic step; between any two steps the environment may rewrite
anything outside the sink's own private paths. The trace records every step of one run. */
module Disks {
  import opened Wrappers
  import opened WritePlans

  datatype Node = File(content: string) | Dir

  type Store = map<Path, Node>

  datatype Effect =
    | Look(at: Path, seen: Seen)
    | Revalidate(target: Path, entry: Entry, seen: Seen)
    | MakeDir(at: Path)
    | Stage(temp: Path)
    | Fill(temp: Path, bytes: string)
    | Link(temp: Path, target: Path, entry: Entry)
    | Swap(temp: Path, target: Path, entry: Entry)
    | Unlink(temp: Path)
    | OpenNew(target: Path, entry: Entry)
    | Truncate(target: Path, entry: Entry)
    | Write(target: Path, bytes: string, entry: Entry)
    | MakeStaging(at: Path)
    | RenameTree(from: Path, to: Path)
    | RemoveTree(at: Path)

  datatype Actor = Environment | Sink(effect: Effect)

  datatype Event = Event(actor: Actor, before: Store, after: Store)

  predicate ParentIsDir(store: Store, p: Path) {
    |p| == 1 || (|p| > 1 && p[..|p| - 1] in store && store[p[..|p| - 1]] == Dir)
  }

  predicate IsFile(store: Store, p: Path) {
    p in store && store[p].File?
  }

  predicate IsDir(store: Store, p: Path) {
    p in store && store[p] == Dir
  }

  function SeenAt(store: Store, p: Path): Seen {
    if p !in store then Absent else if store[p].File? then Regular(store[p].content) else Other
  }

  predicate Vacant(store: Store, root: Path) {
    forall p :: p in store ==> !(root <= p)
  }

  /** A directory may be renamed over an absent path or an empty directory. */
  predicate Replaceable(store: Store, root: Path) {
    forall p :: p in store && root <= p ==> p == root && store[p] == Dir
  }

  /** The store once the tree at `from` is called `to`. */
  function Renamed(store: Store, from: Path, to: Path): Store {
    map p | p in store.Keys + (set q | q in store && from <= q :: to + q[|from|..])
          && (if to <= p then from + p[|to|..] in store else !(from <= p))
      :: if to <= p then store[from + p[|to|..]] else store[p]
  }

  /** What an effect makes of the store, if it can be performed on it at all. */
  function Apply(effect: Effect, store: Store): Option<Store> {
    match effect
    case Look(at, seen) => if SeenAt(store, at) == seen then Some(store) else None
    case Revalidate(target, _, seen) => if SeenAt(store, target) == seen then Some(store) else None
    case MakeDir(at) => if at !in store && ParentIsDir(store, at) then Some(store[at := Dir]) else None
    case Stage(temp) => if temp !in store && ParentIsDir(store, temp) then Some(store[temp := File("")]) else None
    case Fill(temp, bytes) => if IsFile(store, temp) then Some(store[temp := File(bytes)]) else None
    case Link(temp, target, _) =>
      if IsFile(store, temp) && target !in store && ParentIsDir(store, target) then Some(store[target := store[temp]]) else None
    case Swap(temp, target, _) =>
      if IsFile(store, temp) && !IsDir(store, target) && ParentIsDir(store, target) && temp != target
      then Some((store - {temp})[target := store[temp]]) else None
    case Unlink(temp) => if IsFile(store, temp) then Some(store - {temp}) else None
    case OpenNew(target, _) =>
      if target !in store && ParentIsDir(store, target) then Some(store[target := File("")]) else None
    case Truncate(target, _) =>
      if !IsDir(store, target) && ParentIsDir(store, target) then Some(store[target := File("")]) else None
    case Write(target, bytes, _) => if IsFile(store, target) then Some(store[target := File(bytes)]) else None
    case MakeStaging(at) => if Vacant(store, at) && ParentIsDir(store, at) then Some(store[at := Dir]) else None
    case RenameTree(from, to) =>
      if IsDir(store, from) && Replaceable(store, to) && ParentIsDir(store, to) && !(from <= to) then Some(Renamed(store, from, to)) else None
    case RemoveTree(at) => Some(map p | p in store && !(at <= p) :: store[p])
  }

  predicate SameAt(a: Store, b: Store, p: Path) {
    if p in a then p in b && a[p] == b[p] else p !in b
  }

  predicate Shielded(shield: set<Path>, p: Path) {
    exists s :: s in shield && s <= p
  }

  /** The environment left every shielded path as it was. */
  predicate Spares(shield: set<Path>, a: Store, b: Store) {
    forall p :: p in a.Keys + b.Keys && Shielded(shield, p) ==> SameAt(a, b, p)
  }

  /** The run leads from one store to another, each step starting where the last one ended. */
  ghost predicate Chained(first: Store, run: seq<Event>, last: Store) {
    if run == [] then first == last
    else var e := run[|run| - 1]; e.after == last && Chained(first, run[..|run| - 1], e.before)
  }

  class Disk {
    /** Nobody else touches the disk and no possible effect fails. */
    const quiet: bool
    var store: Store
    /** Paths, with everything below them, that no other process touches. */
    var shield: set<Path>
    ghost var first: Store
    ghost var trace: seq<Event>

    constructor (quiet: bool, store: Store, shield: set<Path>)
      ensures this.quiet == quiet && this.store == store && this.shield == shield && first == store && trace == []
    {
      this.quiet := quiet;
      this.store := store;
      this.shield := shield;
      first := store;
      trace := [];
    }

    /** Start recording afresh. */
    ghost method BeginRun()
      modifies `first, `trace
      ensures first == store && trace == []
    {
      first := store;
      trace := [];
    }

    /** Anything may happen to what is not shielded. */
    method Interfere()
      modifies `store, `trace
      ensures trace == old(trace) + [Event(Environment, old(store), store)]
      ensures Spares(shield, old(store), store)
      ensures quiet ==> store == old(store)
      ensures Chained(first, old(trace), old(store)) ==> Chained(first, trace, store)
    {
      var other: Store := *;
      ghost var before := store;
      if !quiet && Spares(shield, store, other) {
        store := other;
      }
      assert Spares(shield, before, store);
      trace := trace + [Event(Environment, before, store)];
      assert trace[..|trace| - 1] == old(trace);
    }

    /** Perform an effect in one step, or fail and change nothing. */
    method Try(effect: Effect) returns (ok: bool)
      modifies `store, `trace
      ensures ok ==> Apply(effect, old(store)) == Some(store) && trace == old(trace) + [Event(Sink(effect), old(store), store)]
      ensures !ok ==> store == old(store) && trace == old(trace)
      ensures quiet && Apply(effect, old(store)).Some? ==> ok
      ensures Chained(first, old(trace), old(store)) ==> Chained(first, trace, store)
    {
      var next := Apply(effect, store);
      var fails: bool := *;
      ok := next.Some? && (quiet || !fails);
      if ok {
        trace := trace + [Event(Sink(effect), store, next.value)];
        store := next.value;
        assert trace[..|trace| - 1] == old(trace);
      }
    }

    /** Look at a path. */
    method Observe(at: Path) returns (seen: Seen)
      modifies `trace
      ensures seen == SeenAt(store, at) && trace == old(trace) + [Event(Sink(Look(at, seen)), store, store)]
      ensures Chained(first, old(trace), store) ==> Chained(first, trace, store)
    {
      seen := SeenAt(store, at);
      trace := trace + [Event(Sink(Look(at, seen)), store, store)];
      assert trace[..|trace| - 1] == old(trace);
    }

    /** Look at a planned entry's target just before mutating it. */
    method Recheck(target: Path, entry: Entry) returns (seen: Seen)
      modifies `trace
      ensures seen == SeenAt(store, target) && trace == old(trace) + [Event(Sink(Revalidate(target, entry, seen)), store, store)]
      ensures Chained(first, old(trace), store) ==> Chained(first, trace, store)
    {
      seen := SeenAt(store, target);
      trace := trace + [Event(Sink(Revalidate(target, entry, seen)), store, store)];
      assert trace[..|trace| - 1] == old(trace);
    }
  }

  // ---- The files below a root ----

  lemma {:induction false} SameSuffix(root: Path, d: Path, e: Path)
    ensures root + d == root + e <==> d == e
  {
    assert (root + e)[|root|..] == e && (root + d)[|root|..] == d;
  }

  /** The regular files below `root`, by the rest of their path. */
  function Contents(store: Store, root: Path): (files: Files)
    ensures forall d :: d in files ==> IsFile(store, root + d) && files[d] == store[root + d].content
    ensures forall d :: IsFile(store, root + d) ==> d in files
  {
    assert forall p: Path | root <= p :: root + p[|root|..] == p;
    map p | p in store && root <= p && store[p].File? :: p[|root|..] := store[p].content
  }

  /** Files equal at every path below a root. */
  lemma {:induction false} ContentsPointwise(store: Store, root: Path, files: Files)
    requires forall d :: d in files ==> IsFile(store, root + d) && files[d] == store[root + d].content
    requires forall d :: IsFile(store, root + d) ==> d in files
    ensures Contents(store, root) == files
  {
    var x := Contents(store, root);
    assert forall d :: d in x <==> d in files;
    assert forall d :: d in x ==> x[d] == files[d];
  }

  /** Stores that agree at and below a root hold the same files below it. */
  lemma {:induction false} SameContents(a: Store, b: Store, root: Path)
    requires forall p :: root <= p ==> SameAt(a, b, p)
    ensures Contents(a, root) == Contents(b, root)
  {
    forall d ensures SameAt(a, b, root + d) { assert root <= root + d; }
    ContentsPointwise(b, root, Contents(a, root));
  }

  /** Putting a file somewhere changes the contents there and nowhere else. */
  lemma {:induction false} ContentsOfFile(store: Store, root: Path, d: Path, bytes: string)
    ensures Contents(store[root + d := File(bytes)], root) == Contents(store, root)[d := bytes]
  {
    forall e ensures root + d == root + e <==> d == e { SameSuffix(root, d, e); }
    ContentsPointwise(store[root + d := File(bytes)], root, Contents(store, root)[d := bytes]);
  }

  lemma {:induction false} ContentsOfDir(store: Store, root: Path, p: Path)
    requires p !in store
    ensures Contents(store[p := Dir], root) == Contents(store, root)
  {
    ContentsPointwise(store[p := Dir], root, Contents(store, root));
  }

  lemma {:induction false} ContentsOfRemoval(store: Store, root: Path, d: Path)
    ensures Contents(store - {root + d}, root) == Contents(store, root) - {d}
  {
    forall e ensures root + d == root + e <==> d == e { SameSuffix(root, d, e); }
    ContentsPointwise(store - {root + d}, root, Contents(store, root) - {d});
  }

  /** A renamed tree holds at its new place what it held at the old one. */
  lemma {:induction false} ContentsOfRenamed(store: Store, from: Path, to: Path)
    ensures Contents(Renamed(store, from, to), to) == Contents(store, from)
  {
    var after := Renamed(store, from, to);
    forall d ensures SeenAt(after, to + d) == SeenAt(store, from + d) {
      assert to <= to + d && (to + d)[|to|..] == d;
      if from + d in store { assert (from + d)[|from|..] == d; }
    }
    assert forall d :: IsFile(after, to + d) <==> IsFile(store, from + d);
    ContentsPointwise(after, to, Contents(store, from));
  }
}
