// The offline package resolver (crates/joan-package/src/lib.rs): a depth-first walk
// over pinned manifests with budgets. The store maps digests to the manifests and
// sources that verify under them.
module Packages {
  import opened Prelude
  import opened CallGraph
  import opened Totals

  const MAX_PACKAGES: nat := 1_024
  const MAX_MODULES: nat := 4_096
  const MAX_DEPENDENCY_DEPTH: nat := 64
  const MAX_TOTAL_SOURCE_BYTES: nat := 64 * 1_048_576

  datatype PackageModule = PackageModule(name: string, source: string)

  datatype Manifest = Manifest(coordinate: string, modules: seq<PackageModule>, dependencies: seq<string>)

  datatype Source = Source(moduleName: string, length: nat)

  datatype Store = Store(manifests: map<string, Manifest>, sources: map<string, Source>)

  datatype Limit = Depth | PackageCount | ModuleCount | SourceBytes

  datatype PackageError =
    | LimitExceeded(limit: Limit)
    | DependencyCycle(digest: string)
    | CoordinateCollision(first: string, second: string)
    | MissingManifest(digest: string)
    | MissingSource(digest: string)
    | ModuleMismatch(digest: string)

  datatype Resolution = Resolution(packages: map<string, string>, sources: set<string>, moduleCount: nat, totalSourceBytes: nat)

  // ---------- the dependency graph ----------

  function Pins(all: map<string, Manifest>): Graph<string> {
    map d | d in all :: all[d].dependencies
  }

  ghost predicate PathTo(all: map<string, Manifest>, root: string, d: string, p: seq<string>) {
    p != [] && p[0] == root && p[|p| - 1] == d && IsPath(Pins(all), p)
  }

  ghost predicate Reachable(all: map<string, Manifest>, root: string, d: string) {
    exists p :: PathTo(all, root, d, p)
  }

  lemma ReachableStep(all: map<string, Manifest>, root: string, a: string, b: string)
    requires Reachable(all, root, a) && Edge(Pins(all), a, b)
    ensures Reachable(all, root, b)
  {
    var p :| PathTo(all, root, a, p);
    assert PathTo(all, root, b, p + [b]);
  }

  function ModuleCounts(all: map<string, Manifest>, seen: set<string>): map<string, nat> {
    map d | d in seen && d in all :: |all[d].modules|
  }

  function SourcesOf(all: map<string, Manifest>, seen: set<string>): set<string> {
    set d, m | d in seen && d in all && m in all[d].modules :: m.source
  }

  function Lengths(store: Store, sources: set<string>): map<string, nat> {
    map s | s in sources && s in store.sources :: store.sources[s].length
  }

  predicate NamesAgree(store: Store, modules: seq<PackageModule>) {
    forall m :: m in modules ==> m.source in store.sources && store.sources[m.source].moduleName == m.name
  }

  // ---------- what a result and a refusal mean ----------

  /** Exactly the manifests reachable from the root, without cycles or collisions, counted exactly and within the budgets. */
  ghost predicate Resolved(store: Store, all: map<string, Manifest>, root: string, r: Resolution) {
    && (forall d :: d in r.packages <==> Reachable(all, root, d))
    && (forall d :: d in r.packages ==> d in all && r.packages[d] == all[d].coordinate && NamesAgree(store, all[d].modules))
    && (forall p :: IsCycle(Pins(all), p) ==> p[0] !in r.packages)
    && (forall a, b :: a in r.packages && b in r.packages && r.packages[a] == r.packages[b] ==> a == b)
    && |r.packages| <= MAX_PACKAGES
    && r.moduleCount == Total(ModuleCounts(all, r.packages.Keys)) <= MAX_MODULES
    && r.sources == SourcesOf(all, r.packages.Keys)
    && r.totalSourceBytes == Total(Lengths(store, r.sources)) <= MAX_TOTAL_SOURCE_BYTES
  }

  ghost predicate AllReachable(all: map<string, Manifest>, root: string, seen: set<string>) {
    forall d :: d in seen ==> Reachable(all, root, d)
  }

  ghost predicate TooMany(all: map<string, Manifest>, root: string, seen: set<string>) {
    AllReachable(all, root, seen) && |seen| > MAX_PACKAGES
  }

  ghost predicate TooManyModules(all: map<string, Manifest>, root: string, seen: set<string>) {
    AllReachable(all, root, seen) && Total(ModuleCounts(all, seen)) > MAX_MODULES
  }

  ghost predicate TooManyBytes(store: Store, all: map<string, Manifest>, root: string, seen: set<string>, sources: set<string>) {
    && AllReachable(all, root, seen) && sources <= SourcesOf(all, seen)
    && Total(Lengths(store, sources)) > MAX_TOTAL_SOURCE_BYTES
  }

  ghost predicate LongChain(all: map<string, Manifest>, root: string, p: seq<string>) {
    IsPath(Pins(all), p) && |p| == MAX_DEPENDENCY_DEPTH + 2 && p[0] == root
  }

  ghost predicate CycleThrough(all: map<string, Manifest>, root: string, d: string, p: seq<string>) {
    IsCycle(Pins(all), p) && p[0] == d && Reachable(all, root, d)
  }

  ghost predicate Uses(all: map<string, Manifest>, root: string, d: string, m: PackageModule) {
    Reachable(all, root, d) && d in all && m in all[d].modules
  }

  /** Every refusal has its reason in the reachable manifests. */
  ghost predicate Justified(store: Store, all: map<string, Manifest>, root: string, e: PackageError) {
    match e
    case LimitExceeded(Depth) => exists p :: LongChain(all, root, p)
    case LimitExceeded(PackageCount) =>
      // A cycle that closes when the budget is used up is reported as a full budget.
      (exists seen :: TooMany(all, root, seen)) || exists d, p :: CycleThrough(all, root, d, p)
    case LimitExceeded(ModuleCount) => exists seen :: TooManyModules(all, root, seen)
    case LimitExceeded(SourceBytes) => exists seen, sources :: TooManyBytes(store, all, root, seen, sources)
    case DependencyCycle(d) => exists p :: CycleThrough(all, root, d, p)
    case CoordinateCollision(a, b) =>
      && a != b && Reachable(all, root, a) && Reachable(all, root, b) && a in all && b in all
      && all[a].coordinate == all[b].coordinate
    case MissingManifest(d) => Reachable(all, root, d) && d !in store.manifests
    case MissingSource(s) => s !in store.sources && exists d, m :: Uses(all, root, d, m) && m.source == s
    case ModuleMismatch(s) =>
      s in store.sources && exists d, m :: Uses(all, root, d, m) && m.source == s && m.name != store.sources[s].moduleName
  }

  /** The manifests of the store and the root, which need not be in it. */
  function Manifests(store: Store, root: string, manifest: Manifest): map<string, Manifest> {
    store.manifests[root := manifest]
  }

  // ---------- set bookkeeping ----------

  function Members(s: seq<string>): set<string> {
    set x | x in s
  }

  lemma MembersAppend(s: seq<string>, x: string)
    ensures Members(s + [x]) == Members(s) + {x}
  {
  }

  lemma ModuleCountsAdd(all: map<string, Manifest>, seen: set<string>, d: string)
    requires d in all && d !in seen
    ensures Total(ModuleCounts(all, seen + {d})) == Total(ModuleCounts(all, seen)) + |all[d].modules|
  {
    TotalInsert(ModuleCounts(all, seen), d, |all[d].modules|);
    assert ModuleCounts(all, seen + {d}) == ModuleCounts(all, seen)[d := |all[d].modules|];
  }

  lemma LengthsAdd(store: Store, sources: set<string>, s: string)
    requires s in store.sources && s !in sources
    ensures Total(Lengths(store, sources + {s})) == Total(Lengths(store, sources)) + store.sources[s].length
  {
    TotalInsert(Lengths(store, sources), s, store.sources[s].length);
    assert Lengths(store, sources + {s}) == Lengths(store, sources)[s := store.sources[s].length];
  }

  function SourceSet(modules: seq<PackageModule>): set<string> {
    set m | m in modules :: m.source
  }

  lemma SourceSetStep(modules: seq<PackageModule>, k: nat)
    requires k < |modules|
    ensures SourceSet(modules[..k + 1]) == SourceSet(modules[..k]) + {modules[k].source}
  {
    assert modules[..k + 1] == modules[..k] + [modules[k]];
  }

  lemma SourcesOfAdd(all: map<string, Manifest>, seen: set<string>, d: string)
    requires d in all
    ensures SourcesOf(all, seen + {d}) == SourcesOf(all, seen) + SourceSet(all[d].modules)
  {
  }

  // ---------- where a resolution stands ----------

  // What is resolved: the store, the manifests by digest, and the digest of the root.
  datatype Task = Task(store: Store, all: map<string, Manifest>, root: string)

  // The fields of the resolver.
  datatype Progress = Progress(
    visiting: set<string>,
    packages: map<string, string>,
    coordinates: map<string, string>,
    sources: map<string, string>,
    moduleCount: nat,
    totalSourceBytes: nat)

  predicate TaskOk(t: Task) {
    forall d :: d in t.store.manifests ==> d in t.all && t.all[d] == t.store.manifests[d]
  }

  function Seen(s: Progress): set<string> {
    s.visiting + s.packages.Keys
  }

  /** The open packages form a path from the root. */
  ghost predicate Opened(t: Task, visiting: set<string>, path: seq<string>) {
    visiting == Members(path) && IsPath(Pins(t.all), path) && (path != [] ==> path[0] == t.root)
  }

  /** Finished packages come after everything they pin. */
  ghost predicate Finished(t: Task, done: set<string>, order: seq<string>) {
    done == Members(order) && Topological(Pins(t.all), order)
  }

  ghost predicate Placed(t: Task, s: Progress, path: seq<string>, order: seq<string>) {
    && Opened(t, s.visiting, path) && Finished(t, s.packages.Keys, order)
    && s.visiting !! s.packages.Keys
    && AllReachable(t.all, t.root, Seen(s))
    && |s.visiting| + |s.packages| <= MAX_PACKAGES
    && Seen(s) <= t.all.Keys
  }

  /** Coordinates and the packages seen so far are in one-to-one correspondence. */
  ghost predicate Coordinated(t: Task, s: Progress) {
    && Seen(s) <= t.all.Keys
    && (forall d :: d in s.packages ==> s.packages[d] == t.all[d].coordinate)
    && (forall d :: d in Seen(s) ==> t.all[d].coordinate in s.coordinates && s.coordinates[t.all[d].coordinate] == d)
    && (forall c :: c in s.coordinates ==> s.coordinates[c] in Seen(s) && t.all[s.coordinates[c]].coordinate == c)
  }

  ghost predicate SourcesKnown(t: Task, s: Progress) {
    && (forall d :: d in s.sources ==> d in t.store.sources && s.sources[d] == t.store.sources[d].moduleName)
    && s.totalSourceBytes == Total(Lengths(t.store, s.sources.Keys)) <= MAX_TOTAL_SOURCE_BYTES
  }

  /** Modules and sources of exactly these packages are counted. */
  ghost predicate Counted(t: Task, s: Progress, seen: set<string>) {
    && s.moduleCount == Total(ModuleCounts(t.all, seen)) <= MAX_MODULES
    && s.sources.Keys == SourcesOf(t.all, seen)
    && SourcesKnown(t, s)
    && forall d :: d in seen && d in t.all ==> NamesAgree(t.store, t.all[d].modules)
  }

  ghost predicate Sound(t: Task, s: Progress, path: seq<string>, order: seq<string>) {
    Placed(t, s, path, order) && Coordinated(t, s) && Counted(t, s, Seen(s))
  }

  // ---------- how it moves ----------

  /** The next package on the path is reachable. */
  lemma PathGrows(t: Task, path: seq<string>, digest: string)
    requires IsPath(Pins(t.all), path) && (path != [] ==> path[0] == t.root)
    requires if path == [] then digest == t.root else Edge(Pins(t.all), path[|path| - 1], digest)
    ensures IsPath(Pins(t.all), path + [digest]) && (path + [digest])[0] == t.root && Reachable(t.all, t.root, digest)
  {
    assert PathTo(t.all, t.root, digest, path + [digest]);
  }

  function Entered(s: Progress, digest: string, coordinate: string): Progress {
    s.(visiting := s.visiting + {digest}, coordinates := s.coordinates[coordinate := digest])
  }

  /** A new package is opened on top of the path. */
  lemma Enter(t: Task, s: Progress, path: seq<string>, order: seq<string>, digest: string)
    requires Sound(t, s, path, order) && digest in t.all && digest !in Seen(s)
    requires if path == [] then digest == t.root else Edge(Pins(t.all), path[|path| - 1], digest)
    requires |s.visiting| + |s.packages| < MAX_PACKAGES
    requires t.all[digest].coordinate in s.coordinates ==> s.coordinates[t.all[digest].coordinate] == digest
    ensures var s' := Entered(s, digest, t.all[digest].coordinate);
            && Placed(t, s', path + [digest], order) && Coordinated(t, s') && Counted(t, s', Seen(s))
            && Seen(s') == Seen(s) + {digest}
  {
    hide Placed, Coordinated, Counted, Reachable;
    EnterPlaced(t, s, path, order, digest);
    EnterKeepsCoordinates(t, s, digest);
    EnterCounted(t, s, Entered(s, digest, t.all[digest].coordinate));
    SetGrows(s.visiting, s.packages.Keys, digest);
  }

  lemma SetGrows(a: set<string>, b: set<string>, x: string)
    ensures a + {x} + b == a + b + {x}
  {
  }

  lemma EnterPlaced(t: Task, s: Progress, path: seq<string>, order: seq<string>, digest: string)
    requires Placed(t, s, path, order) && digest in t.all && digest !in Seen(s)
    requires if path == [] then digest == t.root else Edge(Pins(t.all), path[|path| - 1], digest)
    requires |s.visiting| + |s.packages| < MAX_PACKAGES
    ensures Placed(t, Entered(s, digest, t.all[digest].coordinate), path + [digest], order)
  {
    hide Opened, Finished, Reachable, AllReachable, Edge;
    PathStartsOpen(t, s.visiting, path, digest);
    EnterOpens(t, s.visiting, path, digest);
    EnterSees(t.all, t.root, s.visiting, s.packages.Keys, digest);
  }

  lemma PathStartsOpen(t: Task, visiting: set<string>, path: seq<string>, digest: string)
    requires Opened(t, visiting, path)
    requires if path == [] then digest == t.root else Edge(Pins(t.all), path[|path| - 1], digest)
    ensures Reachable(t.all, t.root, digest)
  {
    PathGrows(t, path, digest);
  }

  lemma EnterCounted(t: Task, s: Progress, s': Progress)
    requires Counted(t, s, Seen(s))
    requires s'.moduleCount == s.moduleCount && s'.sources == s.sources && s'.totalSourceBytes == s.totalSourceBytes
    ensures Counted(t, s', Seen(s))
  {
  }

  lemma EnterSees(all: map<string, Manifest>, root: string, visiting: set<string>, done: set<string>, digest: string)
    requires AllReachable(all, root, visiting + done) && Reachable(all, root, digest) && digest !in visiting + done
    ensures AllReachable(all, root, visiting + {digest} + done)
    ensures visiting + {digest} + done == visiting + done + {digest}
    ensures |visiting + {digest}| == |visiting| + 1
  {
  }

  lemma EnterOpens(t: Task, visiting: set<string>, path: seq<string>, digest: string)
    requires Opened(t, visiting, path)
    requires if path == [] then digest == t.root else Edge(Pins(t.all), path[|path| - 1], digest)
    ensures Opened(t, visiting + {digest}, path + [digest])
  {
    PathGrows(t, path, digest);
    MembersAppend(path, digest);
  }

  lemma EnterKeepsCoordinates(t: Task, s: Progress, digest: string)
    requires Coordinated(t, s) && digest in t.all && digest !in Seen(s)
    requires t.all[digest].coordinate in s.coordinates ==> s.coordinates[t.all[digest].coordinate] == digest
    ensures Coordinated(t, Entered(s, digest, t.all[digest].coordinate))
  {
  }

  function Left(s: Progress, digest: string, coordinate: string): Progress {
    s.(visiting := s.visiting - {digest}, packages := s.packages[digest := coordinate])
  }

  /** The package on top of the path is finished. */
  lemma Leave(t: Task, s: Progress, path: seq<string>, order: seq<string>, digest: string)
    requires Sound(t, s, path + [digest], order) && digest !in path && digest in t.all
    requires forall d :: d in t.all[digest].dependencies ==> d in s.packages
    ensures Sound(t, Left(s, digest, t.all[digest].coordinate), path, order + [digest])
  {
    hide Opened, Finished, Coordinated, Counted, Reachable;
    var s' := Left(s, digest, t.all[digest].coordinate);
    TopIsOpen(t, s.visiting, path, digest);
    assert Seen(s') == Seen(s);
    LeavePlaced(t, s, path, order, digest);
    LeaveCounted(t, s, s');
    LeaveCoordinated(t, s, digest);
  }

  lemma TopIsOpen(t: Task, visiting: set<string>, path: seq<string>, digest: string)
    requires Opened(t, visiting, path + [digest])
    ensures digest in visiting
  {
    MembersAppend(path, digest);
  }

  lemma LeaveCoordinated(t: Task, s: Progress, digest: string)
    requires Coordinated(t, s) && digest in s.visiting && digest in t.all
    ensures Coordinated(t, Left(s, digest, t.all[digest].coordinate))
  {
    assert Seen(Left(s, digest, t.all[digest].coordinate)) == Seen(s);
  }

  lemma LeaveCounted(t: Task, s: Progress, s': Progress)
    requires Counted(t, s, Seen(s)) && Seen(s') == Seen(s)
    requires s'.moduleCount == s.moduleCount && s'.sources == s.sources && s'.totalSourceBytes == s.totalSourceBytes
    ensures Counted(t, s', Seen(s'))
  {
  }

  lemma LeavePlaced(t: Task, s: Progress, path: seq<string>, order: seq<string>, digest: string)
    requires Placed(t, s, path + [digest], order) && digest !in path && digest in t.all
    requires digest in s.visiting && digest !in s.packages
    requires forall d :: d in t.all[digest].dependencies ==> d in s.packages
    ensures Placed(t, Left(s, digest, t.all[digest].coordinate), path, order + [digest])
  {
    hide Opened, Finished, Reachable, AllReachable;
    LeaveFinishes(t, s.packages.Keys, order, digest);
    LeaveOpens(t, s.visiting, path, digest);
    LeaveSizes(s, digest, t.all[digest].coordinate);
  }

  lemma LeaveSizes(s: Progress, digest: string, coordinate: string)
    requires digest in s.visiting && digest !in s.packages && s.visiting !! s.packages.Keys
    ensures var s' := Left(s, digest, coordinate);
            && Seen(s') == Seen(s) && s'.packages.Keys == s.packages.Keys + {digest} && s'.visiting !! s'.packages.Keys
            && |s'.visiting| + |s'.packages| == |s.visiting| + |s.packages|
  {
    MapGrows(s.packages, digest, coordinate);
    SetShrinks(s.visiting, digest);
    SetMoves(s.visiting, s.packages.Keys, digest);
  }

  lemma SetMoves(a: set<string>, b: set<string>, x: string)
    requires x in a && a !! b
    ensures a - {x} + (b + {x}) == a + b && a - {x} !! b + {x}
  {
  }

  lemma MapGrows(m: map<string, string>, k: string, v: string)
    requires k !in m
    ensures m[k := v].Keys == m.Keys + {k} && |m[k := v]| == |m| + 1
  {
    assert |m[k := v]| == |m[k := v].Keys| && |m| == |m.Keys|;
  }

  lemma SetShrinks(s: set<string>, x: string)
    requires x in s
    ensures |s - {x}| == |s| - 1
  {
  }

  lemma LeaveFinishes(t: Task, done: set<string>, order: seq<string>, digest: string)
    requires Finished(t, done, order) && digest !in done && digest in t.all
    requires forall d :: d in t.all[digest].dependencies ==> d in done
    ensures Finished(t, done + {digest}, order + [digest])
  {
    MembersAppend(order, digest);
    assert digest in order <==> digest in Members(order);
    forall d | d in t.all[digest].dependencies ensures d in order {
      assert d in Members(order);
    }
    ExtendOrder(Pins(t.all), order, digest);
  }

  lemma LeaveOpens(t: Task, visiting: set<string>, path: seq<string>, digest: string)
    requires Opened(t, visiting, path + [digest]) && digest !in path
    ensures Opened(t, visiting - {digest}, path)
  {
    MembersAppend(path, digest);
    PathShrinks(t.all, path, digest);
    assert digest in path <==> digest in Members(path);
    assert visiting - {digest} == Members(path);
  }

  lemma PathShrinks(all: map<string, Manifest>, path: seq<string>, digest: string)
    requires IsPath(Pins(all), path + [digest])
    ensures IsPath(Pins(all), path)
    ensures path != [] ==> path[0] == (path + [digest])[0]
  {
    var longer := path + [digest];
    forall i | 0 <= i < |path| - 1 ensures Edge(Pins(all), path[i], path[i + 1]) {
      assert Edge(Pins(all), longer[i], longer[i + 1]);
    }
  }

  // ---------- why it stops ----------

  lemma TooManyJustified(t: Task, s: Progress, path: seq<string>, order: seq<string>, digest: string)
    requires Sound(t, s, path, order) && Reachable(t.all, t.root, digest) && digest !in Seen(s)
    requires |s.packages| + |s.visiting| >= MAX_PACKAGES
    ensures Justified(t.store, t.all, t.root, LimitExceeded(PackageCount))
  {
    hide Sound, Reachable;
    PlacedSizes(t, s, path, order);
    OneMore(t, Seen(s), digest);
  }

  lemma OneMore(t: Task, seen: set<string>, digest: string)
    requires AllReachable(t.all, t.root, seen) && Reachable(t.all, t.root, digest) && digest !in seen && |seen| >= MAX_PACKAGES
    ensures exists more :: TooMany(t.all, t.root, more)
  {
    hide Reachable;
    assert TooMany(t.all, t.root, seen + {digest});
  }

  lemma PlacedSizes(t: Task, s: Progress, path: seq<string>, order: seq<string>)
    requires Sound(t, s, path, order)
    ensures |Seen(s)| == |s.visiting| + |s.packages| && AllReachable(t.all, t.root, Seen(s))
  {
    assert |s.packages.Keys| == |s.packages|;
  }

  lemma CycleJustified(t: Task, s: Progress, path: seq<string>, order: seq<string>, digest: string)
    requires Placed(t, s, path, order) && digest in s.visiting && path != [] && Edge(Pins(t.all), path[|path| - 1], digest)
    ensures Justified(t.store, t.all, t.root, DependencyCycle(digest))
    ensures Justified(t.store, t.all, t.root, LimitExceeded(PackageCount))
  {
    assert digest in Members(path) && digest in Seen(s);
    var k := IndexOf(path, digest);
    CloseCycle(Pins(t.all), path, k, digest);
    assert CycleThrough(t.all, t.root, digest, path[k..] + [digest]);
  }

  lemma CollisionJustified(t: Task, s: Progress, path: seq<string>, order: seq<string>, digest: string)
    requires Sound(t, s, path, order) && digest in t.all && Reachable(t.all, t.root, digest)
    requires t.all[digest].coordinate in s.coordinates && s.coordinates[t.all[digest].coordinate] != digest
    ensures Justified(t.store, t.all, t.root, CoordinateCollision(s.coordinates[t.all[digest].coordinate], digest))
  {
    assert s.coordinates[t.all[digest].coordinate] in Seen(s);
  }

  /** What is known of a package when its visit starts. */
  lemma VisitStarts(t: Task, s: Progress, path: seq<string>, order: seq<string>, digest: string)
    requires Sound(t, s, path, order)
    requires if path == [] then digest == t.root else Edge(Pins(t.all), path[|path| - 1], digest)
    ensures IsPath(Pins(t.all), path + [digest]) && (path + [digest])[0] == t.root && Reachable(t.all, t.root, digest)
    ensures digest in path <==> digest in s.visiting
    ensures AllReachable(t.all, t.root, Seen(s))
    ensures digest in s.visiting ==>
              && Justified(t.store, t.all, t.root, DependencyCycle(digest))
              && Justified(t.store, t.all, t.root, LimitExceeded(PackageCount))
  {
    PathGrows(t, path, digest);
    assert digest in path <==> digest in Members(path);
    if digest in s.visiting {
      CycleJustified(t, s, path, order, digest);
    }
  }

  /** Counting modules and sources moves no package. */
  lemma ModulesKeepPlace(t: Task, s: Progress, s': Progress, path: seq<string>, order: seq<string>, seen: set<string>)
    requires Placed(t, s, path, order) && Coordinated(t, s) && seen == Seen(s) && Counted(t, s', seen)
    requires s'.visiting == s.visiting && s'.packages == s.packages && s'.coordinates == s.coordinates
    ensures Sound(t, s', path, order)
  {
  }

  lemma SeenReachable(t: Task, s: Progress, path: seq<string>, order: seq<string>, seen: set<string>)
    requires Placed(t, s, path, order) && seen <= Seen(s)
    ensures AllReachable(t.all, t.root, seen)
  {
  }

  /** A pin of the package on top of the path is reachable; there are only two reasons not to visit it. */
  lemma PinIsReachable(t: Task, s: Progress, path: seq<string>, order: seq<string>, digest: string, k: nat)
    requires Sound(t, s, path, order) && path != [] && path[|path| - 1] == digest
    requires digest in t.all && k < |t.all[digest].dependencies|
    ensures var pin := t.all[digest].dependencies[k];
            && Edge(Pins(t.all), digest, pin) && Reachable(t.all, t.root, pin)
            && (pin == digest ==> Justified(t.store, t.all, t.root, DependencyCycle(digest)))
            && (pin !in t.store.manifests ==> Justified(t.store, t.all, t.root, MissingManifest(pin)))
  {
    var pin := t.all[digest].dependencies[k];
    assert digest in Members(path) && digest in Seen(s);
    ReachableStep(t.all, t.root, digest, pin);
    if pin == digest {
      assert CycleThrough(t.all, t.root, digest, [digest, digest]);
    }
  }

  lemma DepthJustified(t: Task, path: seq<string>)
    requires IsPath(Pins(t.all), path) && path != [] && path[0] == t.root && |path| == MAX_DEPENDENCY_DEPTH + 2
    ensures Justified(t.store, t.all, t.root, LimitExceeded(Depth))
  {
    assert LongChain(t.all, t.root, path);
  }

  // ---------- sources and modules ----------

  /** One source is known in addition, and nothing but the sources has changed. */
  ghost predicate SourceAdded(t: Task, s: Progress, s': Progress, m: PackageModule) {
    && s' == s.(sources := s'.sources, totalSourceBytes := s'.totalSourceBytes)
    && SourcesKnown(t, s') && s'.sources.Keys == s.sources.Keys + {m.source}
    && m.source in t.store.sources && t.store.sources[m.source].moduleName == m.name
  }

  lemma KnownSource(t: Task, s: Progress, m: PackageModule)
    requires SourcesKnown(t, s) && m.source in s.sources
    ensures m.source in t.store.sources && s.sources[m.source] == t.store.sources[m.source].moduleName
    ensures s.sources[m.source] == m.name ==> SourceAdded(t, s, s, m)
  {
    assert s.sources.Keys == s.sources.Keys + {m.source};
  }

  lemma NewSource(t: Task, s: Progress, m: PackageModule)
    requires SourcesKnown(t, s) && m.source in t.store.sources && m.source !in s.sources
    requires t.store.sources[m.source].moduleName == m.name
    ensures s.totalSourceBytes + t.store.sources[m.source].length == Total(Lengths(t.store, s.sources.Keys + {m.source}))
    ensures s.totalSourceBytes + t.store.sources[m.source].length <= MAX_TOTAL_SOURCE_BYTES ==>
              SourceAdded(t, s, s.(sources := s.sources[m.source := m.name],
                                   totalSourceBytes := s.totalSourceBytes + t.store.sources[m.source].length), m)
  {
    LengthsAdd(t.store, s.sources.Keys, m.source);
    assert s.sources[m.source := m.name].Keys == s.sources.Keys + {m.source};
  }

  lemma SourceRefused(t: Task, s: Progress, m: PackageModule, digest: string, seen: set<string>)
    requires Uses(t.all, t.root, digest, m)
    ensures m.source !in t.store.sources ==> Justified(t.store, t.all, t.root, MissingSource(m.source))
    ensures m.source in t.store.sources && t.store.sources[m.source].moduleName != m.name ==>
              Justified(t.store, t.all, t.root, ModuleMismatch(m.source))
    ensures AllReachable(t.all, t.root, seen) && s.sources.Keys + {m.source} <= SourcesOf(t.all, seen)
            && Total(Lengths(t.store, s.sources.Keys + {m.source})) > MAX_TOTAL_SOURCE_BYTES ==>
              Justified(t.store, t.all, t.root, LimitExceeded(SourceBytes))
  {
    if m.source in t.store.sources && t.store.sources[m.source].moduleName != m.name {
      assert Uses(t.all, t.root, digest, m) && m.source == m.source && m.name != t.store.sources[m.source].moduleName;
    }
    if AllReachable(t.all, t.root, seen) && s.sources.Keys + {m.source} <= SourcesOf(t.all, seen)
       && Total(Lengths(t.store, s.sources.Keys + {m.source})) > MAX_TOTAL_SOURCE_BYTES {
      assert TooManyBytes(t.store, t.all, t.root, seen, s.sources.Keys + {m.source});
    }
  }

  /** The first k modules of a package are checked, on top of the packages counted before. */
  ghost predicate ModulesDone(t: Task, s: Progress, seen: set<string>, modules: seq<PackageModule>, k: nat)
    requires k <= |modules|
  {
    && s.sources.Keys == SourcesOf(t.all, seen) + SourceSet(modules[..k])
    && SourcesKnown(t, s) && NamesAgree(t.store, modules[..k])
  }

  lemma ModuleDone(t: Task, s: Progress, s': Progress, seen: set<string>, modules: seq<PackageModule>, k: nat)
    requires k < |modules| && ModulesDone(t, s, seen, modules, k) && SourceAdded(t, s, s', modules[k])
    ensures ModulesDone(t, s', seen, modules, k + 1)
  {
    SourceSetStep(modules, k);
    assert modules[..k + 1] == modules[..k] + [modules[k]];
  }

  lemma ModulesWithin(t: Task, s: Progress, seen: set<string>, digest: string, k: nat)
    requires digest in t.all && k < |t.all[digest].modules| && ModulesDone(t, s, seen, t.all[digest].modules, k)
    ensures s.sources.Keys + {t.all[digest].modules[k].source} <= SourcesOf(t.all, seen + {digest})
  {
    var modules := t.all[digest].modules;
    SourcesOfAdd(t.all, seen, digest);
    assert modules[k] in modules;
    assert forall m :: m in modules[..k] ==> m in modules;
  }

  lemma ModuleReady(t: Task, s: Progress, seen: set<string>, digest: string, k: nat)
    requires digest in t.all && k < |t.all[digest].modules| && ModulesDone(t, s, seen, t.all[digest].modules, k)
    requires Reachable(t.all, t.root, digest) && AllReachable(t.all, t.root, seen)
    ensures var m := t.all[digest].modules[k];
            && SourcesKnown(t, s) && Uses(t.all, t.root, digest, m) && AllReachable(t.all, t.root, seen + {digest})
            && s.sources.Keys + {m.source} <= SourcesOf(t.all, seen + {digest})
  {
    ModulesWithin(t, s, seen, digest, k);
  }

  lemma AllModulesDone(t: Task, s: Progress, seen: set<string>, digest: string)
    requires digest in t.all && digest !in seen
    requires forall d :: d in seen && d in t.all ==> NamesAgree(t.store, t.all[d].modules)
    requires ModulesDone(t, s, seen, t.all[digest].modules, |t.all[digest].modules|)
    requires s.moduleCount == Total(ModuleCounts(t.all, seen)) + |t.all[digest].modules| <= MAX_MODULES
    ensures Counted(t, s, seen + {digest})
  {
    var modules := t.all[digest].modules;
    assert modules[..|modules|] == modules;
    SourcesOfAdd(t.all, seen, digest);
    ModuleCountsAdd(t.all, seen, digest);
  }

  lemma ModulesRefused(t: Task, seen: set<string>, digest: string)
    requires AllReachable(t.all, t.root, seen) && Reachable(t.all, t.root, digest) && digest in t.all && digest !in seen
    requires Total(ModuleCounts(t.all, seen)) + |t.all[digest].modules| > MAX_MODULES
    ensures Justified(t.store, t.all, t.root, LimitExceeded(ModuleCount))
  {
    ModuleCountsAdd(t.all, seen, digest);
    assert TooManyModules(t.all, t.root, seen + {digest});
  }

  // ---------- the resolver ----------

  class Resolver {
    const store: Store
    ghost const task: Task
    var visiting: set<string>
    var packages: map<string, string>
    var coordinates: map<string, string>
    var sources: map<string, string>
    var moduleCount: nat
    var totalSourceBytes: nat

    constructor (ghost task: Task, store: Store)
      requires task.store == store
      ensures this.task == task && this.store == store && State() == Progress({}, map[], map[], map[], 0, 0)
    {
      this.task, this.store := task, store;
      visiting, packages, coordinates, sources := {}, map[], map[], map[];
      moduleCount, totalSourceBytes := 0, 0;
    }

    ghost function State(): Progress
      reads this
    {
      Progress(visiting, packages, coordinates, sources, moduleCount, totalSourceBytes)
    }

    /** A source is read, checked and counted when it is first seen. */
    method VerifySource(m: PackageModule, ghost digest: string, ghost seen: set<string>) returns (r: Result<(), PackageError>)
      requires task.store == store && SourcesKnown(task, State())
      requires Uses(task.all, task.root, digest, m) && AllReachable(task.all, task.root, seen)
      requires sources.Keys + {m.source} <= SourcesOf(task.all, seen)
      modifies this`sources, this`totalSourceBytes
      ensures r.Ok? ==> SourceAdded(task, old(State()), State(), m)
      ensures r.Err? ==> Justified(store, task.all, task.root, r.error)
    {
      hide Justified, Uses, AllReachable, SourcesKnown, SourceAdded;
      SourceRefused(task, State(), m, digest, seen);
      if m.source in sources {
        KnownSource(task, State(), m);
        if sources[m.source] != m.name {
          return Err(ModuleMismatch(m.source));
        }
        return Ok(());
      }
      if m.source !in store.sources {
        return Err(MissingSource(m.source));
      }
      var source := store.sources[m.source];
      if source.moduleName != m.name {
        return Err(ModuleMismatch(m.source));
      }
      NewSource(task, State(), m);
      totalSourceBytes := totalSourceBytes + source.length;
      if totalSourceBytes > MAX_TOTAL_SOURCE_BYTES {
        return Err(LimitExceeded(SourceBytes));
      }
      sources := sources[m.source := source.moduleName];
      return Ok(());
    }

    /** The modules of the package on top of the path. */
    method VisitModules(manifest: Manifest, digest: string, ghost seen: set<string>) returns (r: Result<(), PackageError>)
      requires task.store == store && digest in task.all && task.all[digest] == manifest && digest !in seen
      requires Reachable(task.all, task.root, digest) && AllReachable(task.all, task.root, seen)
      requires Counted(task, State(), seen)
      modifies this`moduleCount, this`sources, this`totalSourceBytes
      ensures r.Ok? ==> Counted(task, State(), seen + {digest})
      ensures r.Err? ==> Justified(store, task.all, task.root, r.error)
    {
      ghost var t, before := task, moduleCount;
      var modules := manifest.modules;
      moduleCount := moduleCount + |modules|;
      if moduleCount > MAX_MODULES {
        ModulesRefused(t, seen, digest);
        return Err(LimitExceeded(ModuleCount));
      }
      assert modules[..0] == [];
      assert ModulesDone(t, State(), seen, modules, 0);
      hide SourcesKnown, SourceAdded, ModulesDone, Uses, Justified, AllReachable, Reachable, NamesAgree;
      for k := 0 to |modules|
        invariant moduleCount == before + |modules| && ModulesDone(t, State(), seen, modules, k)
      {
        ModuleReady(t, State(), seen, digest, k);
        ghost var s := State();
        r := VerifySource(modules[k], digest, seen + {digest});
        if r.Err? {
          return;
        }
        ModuleDone(t, s, State(), seen, modules, k);
      }
      AllModulesDone(t, State(), seen, digest);
      return Ok(());
    }

    /** The packages that the package on top of the path pins. */
    method VisitDependencies(manifest: Manifest, digest: string, depth: nat, ghost path: seq<string>, ghost before: seq<string>)
      returns (r: Result<(), PackageError>, ghost order: seq<string>)
      requires task.store == store && TaskOk(task)
      requires path != [] && path[|path| - 1] == digest && depth + 1 == |path| && depth <= MAX_DEPENDENCY_DEPTH
      requires digest in task.all && task.all[digest] == manifest && Sound(task, State(), path, before)
      modifies this
      ensures r.Ok? ==> Sound(task, State(), path, order)
      ensures r.Ok? ==> old(packages.Keys) <= packages.Keys && forall d :: d in manifest.dependencies ==> d in packages
      ensures r.Err? ==> Justified(store, task.all, task.root, r.error)
      decreases MAX_DEPENDENCY_DEPTH + 1 - depth, 0
    {
      order := before;
      var dependencies := manifest.dependencies;
      hide Sound, Justified, Reachable;
      for k := 0 to |dependencies|
        invariant Sound(task, State(), path, order)
        invariant old(packages.Keys) <= packages.Keys
        invariant forall j :: 0 <= j < k ==> dependencies[j] in packages
      {
        var pin := dependencies[k];
        PinIsReachable(task, State(), path, order, digest, k);
        if pin == digest {
          return Err(DependencyCycle(digest)), order;
        }
        if pin !in store.manifests {
          return Err(MissingManifest(pin)), order;
        }
        r, order := Visit(store.manifests[pin], pin, depth + 1, path, order);
        if r.Err? {
          return;
        }
      }
      return Ok(()), order;
    }

    /** The reasons not to open a package that is not finished. */
    method Refusal(manifest: Manifest, digest: string, depth: nat, ghost path: seq<string>, ghost order: seq<string>)
      returns (e: Option<PackageError>)
      requires task.store == store && depth == |path| <= MAX_DEPENDENCY_DEPTH + 1
      requires digest in task.all && task.all[digest] == manifest && digest !in packages
      requires if path == [] then digest == task.root else Edge(Pins(task.all), path[|path| - 1], digest)
      requires Sound(task, State(), path, order)
      ensures e.Some? ==> Justified(store, task.all, task.root, e.value)
      ensures e.None? ==> depth <= MAX_DEPENDENCY_DEPTH && |packages| + |visiting| < MAX_PACKAGES && digest !in visiting
      ensures e.None? && manifest.coordinate in coordinates ==> coordinates[manifest.coordinate] == digest
    {
      hide Sound, Justified, Reachable, IsPath, Edge;
      ghost var t, s := task, State();
      VisitStarts(t, s, path, order, digest);
      if depth > MAX_DEPENDENCY_DEPTH {
        DepthJustified(t, path + [digest]);
        return Some(LimitExceeded(Depth));
      }
      if |packages| + |visiting| >= MAX_PACKAGES {
        if digest !in visiting {
          TooManyJustified(t, s, path, order, digest);
        }
        return Some(LimitExceeded(PackageCount));
      }
      if digest in visiting {
        return Some(DependencyCycle(digest));
      }
      if manifest.coordinate in coordinates && coordinates[manifest.coordinate] != digest {
        CollisionJustified(t, s, path, order, digest);
        return Some(CoordinateCollision(coordinates[manifest.coordinate], digest));
      }
      return None;
    }

    /** Open the package, unless it is finished or refused, see to its contents and finish it. */
    method Visit(manifest: Manifest, digest: string, depth: nat, ghost path: seq<string>, ghost before: seq<string>)
      returns (r: Result<(), PackageError>, ghost order: seq<string>)
      requires task.store == store && TaskOk(task)
      requires depth == |path| <= MAX_DEPENDENCY_DEPTH + 1
      requires digest in task.all && task.all[digest] == manifest
      requires if path == [] then digest == task.root else Edge(Pins(task.all), path[|path| - 1], digest)
      requires Sound(task, State(), path, before)
      modifies this
      ensures r.Ok? ==> Sound(task, State(), path, order) && digest in packages && old(packages.Keys) <= packages.Keys
      ensures r.Err? ==> Justified(store, task.all, task.root, r.error)
      decreases MAX_DEPENDENCY_DEPTH + 1 - depth, 2
    {
      order := before;
      if digest in packages {
        return Ok(()), order;
      }
      var refused := Refusal(manifest, digest, depth, path, before);
      if refused.Some? {
        return Err(refused.value), order;
      }
      hide Sound, Placed, Coordinated, Counted, Justified, Reachable, IsPath, Edge;
      ghost var seen := Seen(State());
      Open(manifest, digest, path, before);
      r, order := VisitContents(manifest, digest, depth, path + [digest], before, seen);
      if r.Err? {
        visiting := visiting - {digest};
        return;
      }
      Close(manifest, digest, path, order);
      order := order + [digest];
    }

    method Open(manifest: Manifest, digest: string, ghost path: seq<string>, ghost order: seq<string>)
      requires digest in task.all && task.all[digest] == manifest && digest !in packages && digest !in visiting
      requires if path == [] then digest == task.root else Edge(Pins(task.all), path[|path| - 1], digest)
      requires Sound(task, State(), path, order) && |packages| + |visiting| < MAX_PACKAGES
      requires manifest.coordinate in coordinates ==> coordinates[manifest.coordinate] == digest
      modifies this`visiting, this`coordinates
      ensures Placed(task, State(), path + [digest], order) && Coordinated(task, State())
      ensures Counted(task, State(), old(Seen(State()))) && Seen(State()) == old(Seen(State())) + {digest}
      ensures digest !in old(Seen(State())) && digest !in path && Reachable(task.all, task.root, digest)
    {
      hide Sound, Placed, Coordinated, Counted, Justified, Reachable, IsPath, Edge;
      ghost var s := State();
      VisitStarts(task, s, path, order, digest);
      Enter(task, s, path, order, digest);
      visiting := visiting + {digest};
      coordinates := coordinates[manifest.coordinate := digest];
      assert State() == Entered(s, digest, manifest.coordinate);
    }

    method Close(manifest: Manifest, digest: string, ghost path: seq<string>, ghost order: seq<string>)
      requires digest in task.all && task.all[digest] == manifest && digest !in path
      requires Sound(task, State(), path + [digest], order)
      requires forall d :: d in manifest.dependencies ==> d in packages
      modifies this`visiting, this`packages
      ensures Sound(task, State(), path, order + [digest])
      ensures packages == old(packages)[digest := manifest.coordinate]
    {
      hide Sound;
      Leave(task, State(), path, order, digest);
      ghost var s := State();
      visiting := visiting - {digest};
      packages := packages[digest := manifest.coordinate];
      assert State() == Left(s, digest, manifest.coordinate);
    }

    /** The package is open on top of the path: its modules, then what it pins. */
    method VisitContents(manifest: Manifest, digest: string, depth: nat, ghost path: seq<string>, ghost before: seq<string>,
                         ghost seen: set<string>)
      returns (r: Result<(), PackageError>, ghost order: seq<string>)
      requires task.store == store && TaskOk(task)
      requires path != [] && path[|path| - 1] == digest && depth + 1 == |path| && depth <= MAX_DEPENDENCY_DEPTH
      requires digest in task.all && task.all[digest] == manifest && digest !in seen && Reachable(task.all, task.root, digest)
      requires Placed(task, State(), path, before) && Coordinated(task, State()) && Counted(task, State(), seen)
      requires Seen(State()) == seen + {digest}
      modifies this
      ensures r.Ok? ==> Sound(task, State(), path, order)
      ensures r.Ok? ==> old(packages.Keys) <= packages.Keys && forall d :: d in manifest.dependencies ==> d in packages
      ensures r.Err? ==> Justified(store, task.all, task.root, r.error)
      decreases MAX_DEPENDENCY_DEPTH + 1 - depth, 1
    {
      hide Sound, Placed, Coordinated, Counted, Justified, Reachable, AllReachable;
      order := before;
      SeenReachable(task, State(), path, before, seen);
      ghost var s := State();
      r := VisitModules(manifest, digest, seen);
      if r.Ok? {
        ModulesKeepPlace(task, s, State(), path, before, seen + {digest});
        r, order := VisitDependencies(manifest, digest, depth, path, before);
      }
    }
  }

  // ---------- the whole resolution ----------

  /** Whatever is reachable from a closed set stays in it. */
  lemma {:induction false} ClosedReach(all: map<string, Manifest>, order: seq<string>, p: seq<string>)
    requires Topological(Pins(all), order) && IsPath(Pins(all), p) && p != [] && p[0] in order
    ensures p[|p| - 1] in order
  {
    PathDescends(Pins(all), order, p, |p| - 1);
  }

  lemma OrderedHasNoCycle(all: map<string, Manifest>, order: seq<string>, p: seq<string>)
    requires Topological(Pins(all), order) && IsCycle(Pins(all), p)
    ensures p[0] !in order
  {
    if p[0] in order {
      PathDescends(Pins(all), order, p, |p| - 1);
    }
  }

  lemma NothingYet(t: Task)
    ensures Sound(t, Progress({}, map[], map[], map[], 0, 0), [], [])
  {
    var s := Progress({}, map[], map[], map[], 0, 0);
    assert Seen(s) == {};
    assert ModuleCounts(t.all, {}) == map[] && SourcesOf(t.all, {}) == {} && Lengths(t.store, {}) == map[];
  }

  /** With nothing open any more, the finished packages are the resolution. */
  lemma AllFinished(t: Task, s: Progress, order: seq<string>)
    requires Sound(t, s, [], order) && t.root in s.packages
    ensures Resolved(t.store, t.all, t.root, Resolution(s.packages, s.sources.Keys, s.moduleCount, s.totalSourceBytes))
  {
    assert s.visiting == {} && Seen(s) == s.packages.Keys;
    assert t.root in Members(order);
    forall d | Reachable(t.all, t.root, d) ensures d in s.packages {
      var p :| PathTo(t.all, t.root, d, p);
      ClosedReach(t.all, order, p);
      assert d in Members(order);
    }
    forall p | IsCycle(Pins(t.all), p) ensures p[0] !in s.packages {
      OrderedHasNoCycle(t.all, order, p);
      assert p[0] !in Members(order);
    }
  }

  method ResolvePackage(store: Store, root: string, manifest: Manifest) returns (r: Result<Resolution, PackageError>)
    requires root in store.manifests ==> store.manifests[root] == manifest
    ensures r.Ok? ==> Resolved(store, Manifests(store, root, manifest), root, r.value)
    ensures r.Err? ==> Justified(store, Manifests(store, root, manifest), root, r.error)
  {
    hide Sound, Justified, Resolved;
    ghost var t := Task(store, Manifests(store, root, manifest), root);
    NothingYet(t);
    var resolver := new Resolver(t, store);
    var visited;
    ghost var order;
    visited, order := resolver.Visit(manifest, root, 0, [], []);
    if visited.Err? {
      return Err(visited.error);
    }
    AllFinished(t, resolver.State(), order);
    return Ok(Resolution(resolver.packages, resolver.sources.Keys, resolver.moduleCount, resolver.totalSourceBytes));
  }

  /** A resolution rules out every reason to refuse, except a long chain that a shorter one makes harmless. */
  lemma ResolvedIsNotRefused(store: Store, all: map<string, Manifest>, root: string, r: Resolution, e: PackageError)
    requires Resolved(store, all, root, r) && (forall d :: d in all && d != root ==> d in store.manifests)
    requires e != LimitExceeded(Depth) && e != MissingManifest(root)
    ensures !Justified(store, all, root, e)
  {
    match e
    case LimitExceeded(PackageCount) =>
      forall seen ensures !TooMany(all, root, seen) {
        if AllReachable(all, root, seen) {
          CardMono(seen, r.packages.Keys);
        }
      }
    case LimitExceeded(ModuleCount) =>
      forall seen ensures !TooManyModules(all, root, seen) {
        if AllReachable(all, root, seen) {
          TotalMonotone(ModuleCounts(all, seen), ModuleCounts(all, r.packages.Keys));
        }
      }
    case LimitExceeded(SourceBytes) =>
      forall seen, sources ensures !TooManyBytes(store, all, root, seen, sources) {
        if AllReachable(all, root, seen) && sources <= SourcesOf(all, seen) {
          assert SourcesOf(all, seen) <= SourcesOf(all, r.packages.Keys);
          TotalMonotone(Lengths(store, sources), Lengths(store, r.sources));
        }
      }
    case _ =>
  }
}
