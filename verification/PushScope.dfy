/**
 What a push makes the gate lint and test: the packages whose inputs changed, and the packages
 that consume them, across all workspaces that are loaded.
 */
module PushScope {
  import opened Worklist

  type Folder = seq<string>

  /** `dependencies` are the folders of the path dependencies, `touched` says that an input file under the folder changed. */
  datatype Package = Package(folder: Folder, dependencies: seq<Folder>, touched: bool)

  /** `changed` says that the manifest, the lock file or the configuration of the workspace changed. */
  datatype Workspace = Workspace(packages: seq<Package>, changed: bool)

  /** `owners` are the folders of the packages that refer to a changed file outside all of them. */
  datatype Change = Change(configuration: bool, removal: bool, runtimeFiles: bool, owners: set<Folder>)

  predicate RuntimeInput(change: Change) {
    change.configuration || change.runtimeFiles
  }

  /** The package's own inputs changed: its unit tests are due. */
  predicate Direct(change: Change, runtime: bool, w: Workspace, p: Package) {
    change.configuration || (runtime && RuntimeInput(change)) || w.changed || p.folder in change.owners || p.touched
  }

  /** Where the search for consumers starts. */
  predicate Starts(change: Change, runtime: bool, w: Workspace, p: Package) {
    if runtime then RuntimeInput(change) || p.touched
    else change.removal || change.configuration || w.changed || p.folder in change.owners || p.touched
  }

  predicate IsSeed(change: Change, loaded: seq<Workspace>, f: Folder) {
    f in change.owners
    || exists i, k | 0 <= i < |loaded| && 0 <= k < |loaded[i].packages| ::
         loaded[i].packages[k].folder == f && Starts(change, i == 0, loaded[i], loaded[i].packages[k])
  }

  predicate IsEdge(all: seq<Workspace>, dependency: Folder, consumer: Folder) {
    exists i, k | 0 <= i < |all| && 0 <= k < |all[i].packages| ::
      all[i].packages[k].folder == consumer && dependency in all[i].packages[k].dependencies
  }

  /** The first workspace is the one of the Runtime. */
  method Seeds(change: Change, loaded: seq<Workspace>) returns (seeds: set<Folder>)
    ensures AreSeeds(change, loaded, seeds)
  {
    seeds := change.owners;
    var i := 0;
    while i < |loaded|
      invariant i <= |loaded|
      invariant forall f :: f in seeds <==> IsSeed(change, loaded[..i], f)
    {
      var w := loaded[i];
      var k := 0;
      while k < |w.packages|
        invariant k <= |w.packages|
        invariant forall f :: f in seeds <==>
            IsSeed(change, loaded[..i], f) || exists j | 0 <= j < k :: w.packages[j].folder == f && Starts(change, i == 0, w, w.packages[j])
      {
        if Starts(change, i == 0, w, w.packages[k]) {
          seeds := seeds + {w.packages[k].folder};
        }
        k := k + 1;
      }
      i := i + 1;
    }
    assert loaded[..i] == loaded;
  }

  /** One consumer's edges are added under each of its dependencies. */
  method AddConsumer(consumers: Graph<Folder>, p: Package) returns (more: Graph<Folder>)
    ensures forall d, c :: c in Next(more, d) <==> c in Next(consumers, d) || (c == p.folder && d in p.dependencies)
  {
    more := consumers;
    var j := 0;
    while j < |p.dependencies|
      invariant j <= |p.dependencies|
      invariant forall d, c :: c in Next(more, d) <==> c in Next(consumers, d) || (c == p.folder && d in p.dependencies[..j])
    {
      var d := p.dependencies[j];
      more := more[d := Next(more, d) + {p.folder}];
      j := j + 1;
    }
  }

  method Consumers(all: seq<Workspace>) returns (consumers: Graph<Folder>)
    ensures AreConsumers(all, consumers)
  {
    consumers := map[];
    var i := 0;
    while i < |all|
      invariant i <= |all|
      invariant forall d, c :: c in Next(consumers, d) <==> IsEdge(all[..i], d, c)
    {
      var w := all[i];
      var k := 0;
      while k < |w.packages|
        invariant k <= |w.packages|
        invariant forall d, c :: c in Next(consumers, d) <==>
            IsEdge(all[..i], d, c) || exists j | 0 <= j < k :: w.packages[j].folder == c && d in w.packages[j].dependencies
      {
        consumers := AddConsumer(consumers, w.packages[k]);
        k := k + 1;
      }
      i := i + 1;
    }
    assert all[..i] == all;
  }

  /** Some package of the workspace is related. */
  predicate Related(w: Workspace, related: set<Folder>) {
    exists k | 0 <= k < |w.packages| :: w.packages[k].folder in related
  }

  /** The packages of one workspace to lint and to test, in order. */
  method Select(change: Change, runtime: bool, w: Workspace, related: set<Folder>) returns (lint: seq<Package>, units: seq<Package>)
    ensures forall p :: p in lint <==> p in w.packages && (Direct(change, runtime, w, p) || p.folder in related)
    ensures forall p :: p in units <==> p in w.packages && Direct(change, runtime, w, p)
  {
    lint, units := [], [];
    var k := 0;
    while k < |w.packages|
      invariant k <= |w.packages|
      invariant forall p :: p in lint <==> p in w.packages[..k] && (Direct(change, runtime, w, p) || p.folder in related)
      invariant forall p :: p in units <==> p in w.packages[..k] && Direct(change, runtime, w, p)
    {
      var p := w.packages[k];
      var direct := Direct(change, runtime, w, p);
      if direct || p.folder in related {
        lint := lint + [p];
      }
      if direct {
        units := units + [p];
      }
      k := k + 1;
    }
  }

  /** The workspaces that the search loads. */
  function Loaded(loaded: seq<Workspace>, late: seq<Workspace>, seeds: set<Folder>): (all: seq<Workspace>)
    ensures loaded <= all
  {
    if seeds == {} then loaded else loaded + late
  }

  /** A package's scope is the search's unless it belongs to a workspace that was loaded only for the
      search, has a changed file of its own, and another package there is reached. */
  predicate Straggles(change: Change, loaded: nat, i: nat, w: Workspace, p: Package, related: set<Folder>) {
    loaded <= i && Direct(change, false, w, p) && Related(w, related)
  }

  /** One workspace's share of the result. */
  predicate Right(change: Change, loaded: nat, i: nat, w: Workspace, related: set<Folder>, lint: seq<Package>, units: seq<Package>) {
    && (forall p | p in w.packages :: p in lint <==> p.folder in related || Straggles(change, loaded, i, w, p, related))
    && (forall p | p in w.packages :: p in units <==> Direct(change, i == 0, w, p) && (i < loaded || Related(w, related)))
    && (forall p | p in units :: p in lint)
  }

  /** The watched files of the Runtime include those of its workspace, and only loaded packages own an input. */
  predicate Watched(change: Change, loaded: seq<Workspace>) {
    loaded != [] && (loaded[0].changed ==> change.runtimeFiles)
  }

  ghost predicate SeedsIn(change: Change, loaded: seq<Workspace>, related: set<Folder>) {
    forall f | IsSeed(change, loaded, f) :: f in related
  }

  ghost predicate AreSeeds(change: Change, loaded: seq<Workspace>, seeds: set<Folder>) {
    forall f :: f in seeds <==> IsSeed(change, loaded, f)
  }

  ghost predicate AreConsumers(all: seq<Workspace>, consumers: Graph<Folder>) {
    forall d, c :: c in Next(consumers, d) <==> IsEdge(all, d, c)
  }

  ghost predicate AreRelated(consumers: Graph<Folder>, seeds: set<Folder>, related: set<Folder>) {
    forall f :: f in related <==> Reached(consumers, seeds, f)
  }

  lemma SeedsAreRelated(change: Change, loaded: seq<Workspace>, consumers: Graph<Folder>, seeds: set<Folder>, related: set<Folder>)
    requires AreSeeds(change, loaded, seeds) && AreRelated(consumers, seeds, related)
    ensures SeedsIn(change, loaded, related)
  {
    forall f | f in seeds ensures f in related {
      SeedReached(consumers, seeds, f);
    }
  }

  lemma DirectRelated(change: Change, loaded: seq<Workspace>, i: nat, k: nat, related: set<Folder>)
    requires Watched(change, loaded) && i < |loaded| && k < |loaded[i].packages|
    requires SeedsIn(change, loaded, related)
    requires Direct(change, i == 0, loaded[i], loaded[i].packages[k])
    ensures loaded[i].packages[k].folder in related && Related(loaded[i], related)
  {
    assert IsSeed(change, loaded, loaded[i].packages[k].folder);
  }

  /** Whether a workspace is gone through, and what that means for its packages. */
  method Share(change: Change, loaded: seq<Workspace>, i: nat, w: Workspace, related: set<Folder>)
    returns (lint: seq<Package>, units: seq<Package>)
    requires Watched(change, loaded) && (i < |loaded| ==> loaded[i] == w)
    requires SeedsIn(change, loaded, related)
    ensures Right(change, |loaded|, i, w, related, lint, units)
  {
    forall p | p in w.packages && i < |loaded| && Direct(change, i == 0, w, p) ensures p.folder in related && Related(w, related) {
      var k :| 0 <= k < |w.packages| && w.packages[k] == p;
      DirectRelated(change, loaded, i, k, related);
    }
    if (0 < i < |loaded|) || Related(w, related) {
      lint, units := Select(change, i == 0, w, related);
    } else {
      lint, units := [], [];
    }
  }

  method TouchedWorkspaces(change: Change, loaded: seq<Workspace>, late: seq<Workspace>)
    returns (seeds: set<Folder>, consumers: Graph<Folder>, related: set<Folder>, lint: seq<seq<Package>>, units: seq<seq<Package>>)
    requires Watched(change, loaded)
    ensures AreSeeds(change, loaded, seeds) && AreConsumers(Loaded(loaded, late, seeds), consumers)
    ensures AreRelated(consumers, seeds, related)
    ensures |lint| == |units| == |Loaded(loaded, late, seeds)|
    ensures forall i | 0 <= i < |lint| :: Right(change, |loaded|, i, Loaded(loaded, late, seeds)[i], related, lint[i], units[i])
  {
    hide Right, AreSeeds, AreConsumers, SeedsIn;
    seeds := Seeds(change, loaded);
    var all := Loaded(loaded, late, seeds);
    consumers := Consumers(all);
    related := Closure(consumers, seeds);
    SeedsAreRelated(change, loaded, consumers, seeds, related);
    lint, units := [], [];
    var i := 0;
    while i < |all|
      invariant i <= |all| && |lint| == |units| == i
      invariant forall j | 0 <= j < i :: Right(change, |loaded|, j, all[j], related, lint[j], units[j])
    {
      var selected, direct := Share(change, loaded, i, all[i], related);
      lint, units := lint + [selected], units + [direct];
      i := i + 1;
    }
  }
}
