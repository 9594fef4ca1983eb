/**
 What a push lints and tests, told from its changed paths and the metadata alone.
 */
module PushResult {
  import opened Sets
  import opened PushScope
  import opened PushLoad
  import opened Worklist

  /** The i-th workspace of the push is this one. */
  predicate IsSpace(s: Scope, i: nat, space: Space) {
    i < |s.loaded| + |s.late| && (s.loaded + s.late)[i] == space
  }

  predicate Lints(paths: seq<Path>, s: Scope, i: nat, c: Crate) {
    i < |s.lint| && PackageOf(paths, c) in s.lint[i]
  }

  predicate Tests(paths: seq<Path>, s: Scope, i: nat, c: Crate) {
    i < |s.units| && PackageOf(paths, c) in s.units[i]
  }

  /** The toolchain or the cargo configuration of the repository changed. */
  predicate NewSettings(paths: seq<Path>) {
    ["rust-toolchain.toml"] in paths || [".cargo", "config.toml"] in paths
  }

  /** What all crates of the Runtime depend on changed. */
  predicate NewRuntimeInputs(paths: seq<Path>) {
    || ["elastos", "Cargo.toml"] in paths || ["elastos", "Cargo.lock"] in paths
    || exists p | p in paths :: ["elastos", ".cargo"] < p || ["elastos", "wit"] < p || ["elastos", "config"] < p
  }

  /** A stem and one of the two suffixes of texts. */
  ghost predicate TextName(name: string) {
    exists stem: string :: stem != "" && (name == stem + ".md" || name == stem + ".txt")
  }

  /** A file other than a text changed below the folder. */
  ghost predicate NewInputs(paths: seq<Path>, folder: Path) {
    exists p | p in paths :: folder < p && !TextName(p[|p| - 1])
  }

  /** A changed path makes the crate's own tests due; `runtime`: it belongs to the Runtime's workspace. */
  ghost predicate Due(paths: seq<Path>, loaded: seq<Space>, runtime: bool, space: Space, c: Crate) {
    || NewSettings(paths) || (runtime && NewRuntimeInputs(paths))
    || space.root + ["Cargo.toml"] in paths || space.root + ["Cargo.lock"] in paths || space.root + [".cargo", "config.toml"] in paths
    || (exists t | t in loaded :: c.folder in t.owners)
    || NewInputs(paths, c.folder)
  }

  lemma SuffixExactly(name: string, suffix: string)
    ensures EndsWith(name, suffix) <==> exists stem: string :: stem != "" && name == stem + suffix
  {
    if EndsWith(name, suffix) {
      var stem := name[..|name| - |suffix|];
      assert stem != "" && name == stem + suffix;
    }
  }

  lemma NewInputsIsTouched(paths: seq<Path>, folder: Path)
    ensures Touched(paths, folder) <==> NewInputs(paths, folder)
  {
    forall p | p in paths && p != []
      ensures TouchedBy(p, folder) <==> folder < p && !TextName(p[|p| - 1])
    {
      SuffixExactly(p[|p| - 1], ".md");
      SuffixExactly(p[|p| - 1], ".txt");
    }
  }

  lemma NewRuntimeInputsAre(paths: seq<Path>)
    ensures (exists p | p in paths :: RuntimeFile(p)) <==> NewRuntimeInputs(paths)
  {
    forall p: Path, d: string
      ensures ["elastos", d] < p <==> |p| > 2 && p[0] == "elastos" && p[1] == d
    {
      assert |p| > 2 && p[0] == "elastos" && p[1] == d ==> p[..2] == ["elastos", d];
    }
  }

  /** The crate is one whose consumers are searched: its tests are due, or a package was removed and it is not the Runtime's. */
  ghost predicate Begins(paths: seq<Path>, repo: Repository, loaded: seq<Space>, runtime: bool, space: Space, c: Crate) {
    Due(paths, loaded, runtime, space, c) || (!runtime && Removed(paths, repo) != {})
  }

  lemma DirectIsDue(paths: seq<Path>, repo: Repository, loaded: seq<Space>, runtime: bool, space: Space, c: Crate)
    ensures Direct(ChangeOf(paths, repo, loaded), runtime, WorkspaceOf(paths, space), PackageOf(paths, c)) <==>
              Due(paths, loaded, runtime, space, c)
  {
    NewInputsIsTouched(paths, c.folder);
    NewRuntimeInputsAre(paths);
    OwnFiles(paths, space.root);
  }

  lemma OwnFiles(paths: seq<Path>, root: Path)
    ensures (exists p | p in paths :: WorkspaceFile(p, root)) <==>
              root + ["Cargo.toml"] in paths || root + ["Cargo.lock"] in paths || root + [".cargo", "config.toml"] in paths
  {
    assert WorkspaceFile(root + ["Cargo.toml"], root) && WorkspaceFile(root + ["Cargo.lock"], root)
           && WorkspaceFile(root + [".cargo", "config.toml"], root);
  }

  /** A crate of a loaded workspace. */
  predicate CrateAt(loaded: seq<Space>, i: nat, k: nat) {
    i < |loaded| && k < |loaded[i].crates|
  }

  /** Where the search for consumers starts, from the paths. */
  ghost predicate BeginsAt(paths: seq<Path>, repo: Repository, loaded: seq<Space>, f: Path) {
    || (exists t | t in loaded :: f in t.owners)
    || exists i: nat, k: nat | CrateAt(loaded, i, k) :: loaded[i].crates[k].folder == f && Begins(paths, repo, loaded, i == 0, loaded[i], loaded[i].crates[k])
  }

  lemma StartIsDirect(change: Change, runtime: bool, w: Workspace, p: Package)
    requires runtime && w.changed ==> change.runtimeFiles
    ensures Starts(change, runtime, w, p) || p.folder in change.owners <==> Direct(change, runtime, w, p) || (!runtime && change.removal)
  {
  }

  lemma StartIsBegin(paths: seq<Path>, repo: Repository, loaded: seq<Space>, late: seq<Space>, i: nat, k: nat)
    requires Consistent(repo) && LoadedBy(paths, repo, loaded, late) && CrateAt(loaded, i, k)
    ensures var c := loaded[i].crates[k];
            var starts := Starts(ChangeOf(paths, repo, loaded), i == 0, WorkspaceOf(paths, loaded[i]), PackageOf(paths, c));
            starts || c.folder in Owners(loaded) <==> Begins(paths, repo, loaded, i == 0, loaded[i], c)
  {
    hide Starts, Direct, Due, Consistent, LoadedBy, Removed;
    var c := loaded[i].crates[k];
    RuntimeIsWatched(paths, repo, loaded, late);
    assert i == 0 ==> Workspaces(paths, loaded)[0] == WorkspaceOf(paths, loaded[0]);
    StartIsDirect(ChangeOf(paths, repo, loaded), i == 0, WorkspaceOf(paths, loaded[i]), PackageOf(paths, c));
    DirectIsDue(paths, repo, loaded, i == 0, loaded[i], c);
  }

  lemma SeedBegins(paths: seq<Path>, repo: Repository, loaded: seq<Space>, late: seq<Space>, f: Path)
    requires Consistent(repo) && LoadedBy(paths, repo, loaded, late)
    ensures IsSeed(ChangeOf(paths, repo, loaded), Workspaces(paths, loaded), f) <==> BeginsAt(paths, repo, loaded, f)
  {
    hide Starts, Begins, Consistent, LoadedBy;
    var change, ws := ChangeOf(paths, repo, loaded), Workspaces(paths, loaded);
    forall i: nat, k: nat | CrateAt(loaded, i, k)
      ensures i < |ws| && k < |ws[i].packages| && ws[i].packages[k] == PackageOf(paths, loaded[i].crates[k])
      ensures Starts(change, i == 0, ws[i], ws[i].packages[k]) || loaded[i].crates[k].folder in Owners(loaded)
              <==> Begins(paths, repo, loaded, i == 0, loaded[i], loaded[i].crates[k])
    {
      StartIsBegin(paths, repo, loaded, late, i, k);
    }
    if f !in Owners(loaded) {
      if IsSeed(change, ws, f) {
        var i, k :| 0 <= i < |ws| && 0 <= k < |ws[i].packages| && ws[i].packages[k].folder == f && Starts(change, i == 0, ws[i], ws[i].packages[k]);
        assert CrateAt(loaded, i, k);
      }
      if BeginsAt(paths, repo, loaded, f) {
        var i: nat, k: nat :| CrateAt(loaded, i, k) && loaded[i].crates[k].folder == f
                              && Begins(paths, repo, loaded, i == 0, loaded[i], loaded[i].crates[k]);
        assert Starts(change, i == 0, ws[i], ws[i].packages[k]);
      }
    }
  }

  /** A consumer of a dependency: a crate of one of the workspaces names its folder. */
  ghost predicate Consumes(spaces: seq<Space>, dependency: Path, consumer: Path) {
    exists i: nat, k: nat | CrateAt(spaces, i, k) ::
      spaces[i].crates[k].folder == consumer && dependency in spaces[i].crates[k].dependencies
  }

  /** A walk from dependencies to consumers that begins at a changed crate. */
  ghost predicate Trail(paths: seq<Path>, repo: Repository, s: Scope, trail: seq<Path>) {
    && trail != []
    && BeginsAt(paths, repo, s.loaded, trail[0])
    && forall i | 0 < i < |trail| :: Consumes(s.loaded + s.late, trail[i - 1], trail[i])
  }

  ghost predicate OnTrail(paths: seq<Path>, repo: Repository, s: Scope, f: Path) {
    exists trail :: trail != [] && Trail(paths, repo, s, trail) && trail[|trail| - 1] == f
  }

  lemma EdgeConsumes(paths: seq<Path>, spaces: seq<Space>, d: Path, f: Path)
    ensures IsEdge(Workspaces(paths, spaces), d, f) <==> Consumes(spaces, d, f)
  {
    var ws := Workspaces(paths, spaces);
    forall i: nat, k: nat | CrateAt(spaces, i, k)
      ensures i < |ws| && k < |ws[i].packages| && ws[i].packages[k] == PackageOf(paths, spaces[i].crates[k])
    {
    }
    if IsEdge(ws, d, f) {
      var i, k :| 0 <= i < |ws| && 0 <= k < |ws[i].packages| && ws[i].packages[k].folder == f && d in ws[i].packages[k].dependencies;
      assert CrateAt(spaces, i, k);
    }
    if Consumes(spaces, d, f) {
      var i: nat, k: nat :| CrateAt(spaces, i, k) && spaces[i].crates[k].folder == f && d in spaces[i].crates[k].dependencies;
      assert ws[i].packages[k].folder == f && d in ws[i].packages[k].dependencies;
    }
  }

  lemma SeedsBegin(paths: seq<Path>, repo: Repository, s: Scope, seeds: set<Path>, f: Path)
    requires Consistent(repo) && LoadedBy(paths, repo, s.loaded, s.late)
    requires AreSeeds(ChangeOf(paths, repo, s.loaded), Workspaces(paths, s.loaded), seeds)
    ensures f in seeds <==> BeginsAt(paths, repo, s.loaded, f)
  {
    hide IsSeed, BeginsAt, LoadedBy, Consistent;
    SeedBegins(paths, repo, s.loaded, s.late, f);
  }

  lemma ConsumersConsume(paths: seq<Path>, s: Scope, seeds: set<Path>, consumers: Graph<Path>, d: Path, f: Path)
    requires AreConsumers(Loaded(Workspaces(paths, s.loaded), Workspaces(paths, s.late), seeds), consumers) && seeds != {}
    ensures f in Next(consumers, d) <==> Consumes(s.loaded + s.late, d, f)
  {
    hide IsEdge, Consumes;
    EdgeConsumes(paths, s.loaded + s.late, d, f);
    assert Workspaces(paths, s.loaded) + Workspaces(paths, s.late) == Workspaces(paths, s.loaded + s.late);
  }

  lemma WalkIsTrail(paths: seq<Path>, repo: Repository, s: Scope, seeds: set<Path>, consumers: Graph<Path>, path: seq<Path>)
    requires Consistent(repo) && LoadedBy(paths, repo, s.loaded, s.late) && SelectedBy(paths, repo, s, seeds, consumers)
    ensures Walk(consumers, seeds, path) <==> Trail(paths, repo, s, path)
  {
    hide Right, AreRelated, AreSeeds, AreConsumers, Consumes, BeginsAt, LoadedBy, Consistent, Next, ChangeOf, Workspaces;
    if path != [] {
      SeedsBegin(paths, repo, s, seeds, path[0]);
      if seeds != {} {
        forall i | 0 < i < |path|
          ensures path[i] in Next(consumers, path[i - 1]) <==> Consumes(s.loaded + s.late, path[i - 1], path[i])
        {
          ConsumersConsume(paths, s, seeds, consumers, path[i - 1], path[i]);
        }
      }
    }
  }

  /** What the search gives is exactly what lies on a trail. */
  lemma RelatedExactly(paths: seq<Path>, repo: Repository, s: Scope, f: Path)
    requires Consistent(repo) && LoadedBy(paths, repo, s.loaded, s.late) && Selected(paths, repo, s)
    ensures f in s.related <==> OnTrail(paths, repo, s, f)
  {
    hide Right, AreSeeds, AreConsumers, Consumes, BeginsAt, LoadedBy, Consistent, Trail, ChangeOf, Workspaces;
    var seeds, consumers :| SelectedBy(paths, repo, s, seeds, consumers);
    if Reached(consumers, seeds, f) {
      var path: seq<Path> :| Walk(consumers, seeds, path) && path[|path| - 1] == f;
      WalkIsTrail(paths, repo, s, seeds, consumers, path);
    }
    if OnTrail(paths, repo, s, f) {
      var path :| path != [] && Trail(paths, repo, s, path) && path[|path| - 1] == f;
      WalkIsTrail(paths, repo, s, seeds, consumers, path);
    }
  }

  lemma RightAt(paths: seq<Path>, repo: Repository, s: Scope, i: nat)
    requires Selected(paths, repo, s) && i < |s.lint|
    ensures |s.lint| == |s.units| && (i < |s.loaded| + |s.late|)
    ensures Right(ChangeOf(paths, repo, s.loaded), |s.loaded|, i, WorkspaceOf(paths, (s.loaded + s.late)[i]), s.related, s.lint[i], s.units[i])
  {
    hide Right, AreSeeds, AreConsumers, AreRelated, WorkspaceOf, ChangeOf;
    var seeds, consumers :| SelectedBy(paths, repo, s, seeds, consumers);
  }

  /** Of a workspace loaded for its paths exactly those crates are linted that lie on a trail, and exactly those tested
      whose tests are due. */
  lemma LoadedExactly(paths: seq<Path>, repo: Repository, s: Scope, i: nat, c: Crate)
    requires Consistent(repo) && LoadedBy(paths, repo, s.loaded, s.late) && Selected(paths, repo, s)
    requires i < |s.loaded| && c in s.loaded[i].crates
    ensures Lints(paths, s, i, c) <==> OnTrail(paths, repo, s, c.folder)
    ensures Tests(paths, s, i, c) <==> Due(paths, s.loaded, i == 0, s.loaded[i], c)
  {
    hide OnTrail, LoadedBy, Consistent, Selected, ChangeOf;
    SelectedLengths(paths, repo, s);
    RightAt(paths, repo, s, i);
    RelatedExactly(paths, repo, s, c.folder);
    DirectIsDue(paths, repo, s.loaded, i == 0, s.loaded[i], c);
    CrateIsPackage(paths, s.loaded[i], c);
  }

  lemma SelectedLengths(paths: seq<Path>, repo: Repository, s: Scope)
    requires Selected(paths, repo, s)
    ensures |s.loaded| <= |s.lint| == |s.units|
  {
  }

  lemma CrateIsPackage(paths: seq<Path>, space: Space, c: Crate)
    requires c in space.crates
    ensures PackageOf(paths, c) in WorkspaceOf(paths, space).packages
  {
    var k :| 0 <= k < |space.crates| && space.crates[k] == c;
    assert WorkspaceOf(paths, space).packages[k] == PackageOf(paths, c);
  }

  ghost predicate SomeOnTrail(paths: seq<Path>, repo: Repository, s: Scope, space: Space) {
    exists c | c in space.crates :: OnTrail(paths, repo, s, c.folder)
  }

  /** Of a workspace loaded late those crates are linted that lie on a trail, and beside one of them those with a
      changed file that leads elsewhere; only the latter are tested. */
  lemma LateExactly(paths: seq<Path>, repo: Repository, s: Scope, i: nat, c: Crate)
    requires Consistent(repo) && LoadedBy(paths, repo, s.loaded, s.late) && Selected(paths, repo, s)
    requires |s.loaded| <= i < |s.lint|
    ensures i < |s.loaded| + |s.late|
    ensures var space := (s.loaded + s.late)[i];
            c in space.crates ==>
              && (Lints(paths, s, i, c) <==>
                    OnTrail(paths, repo, s, c.folder) || (Strays(paths, repo, c, space.root) && SomeOnTrail(paths, repo, s, space)))
              && (Tests(paths, s, i, c) <==> Strays(paths, repo, c, space.root) && SomeOnTrail(paths, repo, s, space))
  {
    assert s.loaded != [];
    hide OnTrail, LoadedBy, Consistent, Selected, ChangeOf, Strays, Direct;
    RightAt(paths, repo, s, i);
    var space := (s.loaded + s.late)[i];
    if c in space.crates {
      assert space in s.late;
      RelatedExactly(paths, repo, s, c.folder);
      LateDirectExactly(paths, repo, s.loaded, s.late, space, c);
      SomeRelated(paths, repo, s, space);
      CrateIsPackage(paths, space, c);
    }
  }

  lemma SomeRelated(paths: seq<Path>, repo: Repository, s: Scope, space: Space)
    requires Consistent(repo) && LoadedBy(paths, repo, s.loaded, s.late) && Selected(paths, repo, s)
    ensures Related(WorkspaceOf(paths, space), s.related) <==> SomeOnTrail(paths, repo, s, space)
  {
    hide OnTrail, LoadedBy, Consistent, Selected;
    forall c | c in space.crates
      ensures c.folder in s.related <==> OnTrail(paths, repo, s, c.folder)
    {
      RelatedExactly(paths, repo, s, c.folder);
    }
    var w := WorkspaceOf(paths, space);
    assert forall k | 0 <= k < |w.packages| :: w.packages[k].folder == space.crates[k].folder;
    if SomeOnTrail(paths, repo, s, space) {
      var c :| c in space.crates && OnTrail(paths, repo, s, c.folder);
      var k :| 0 <= k < |space.crates| && space.crates[k] == c;
      assert w.packages[k].folder in s.related;
    }
  }

  /** Late workspaces are loaded exactly when the search has a start. */
  lemma LateLoadedExactly(paths: seq<Path>, repo: Repository, s: Scope)
    requires Consistent(repo) && LoadedBy(paths, repo, s.loaded, s.late) && Selected(paths, repo, s)
    ensures |s.lint| == |s.units| == |s.loaded| + if exists f :: BeginsAt(paths, repo, s.loaded, f) then |s.late| else 0
  {
    hide Right, AreRelated, AreSeeds, AreConsumers, BeginsAt, LoadedBy, Consistent, ChangeOf;
    var seeds, consumers :| SelectedBy(paths, repo, s, seeds, consumers);
    forall f
      ensures f in seeds <==> BeginsAt(paths, repo, s.loaded, f)
    {
      SeedsBegin(paths, repo, s, seeds, f);
    }
    if seeds != {} {
      NonEmpty(seeds);
    }
  }

  // ---------------------------------------------------------------- what is never left out

  /** The workspace of a candidate is loaded for its paths. */
  lemma CandidateIsLoaded(paths: seq<Path>, repo: Repository, s: Scope, m: Path)
    requires Consistent(repo) && LoadedBy(paths, repo, s.loaded, s.late)
    requires m in Discoverable(repo) && Candidate(paths, repo, m)
    ensures repo.metadata[m] in s.loaded
  {
    var t :| t in s.loaded && InSpace(t, m);
    if t == s.loaded[0] {
      assert InSpace(repo.metadata[RUNTIME], m);
    } else {
      assert t in s.loaded[1..];
      var n :| n in repo.metadata && t == repo.metadata[n] && Candidate(paths, repo, n);
    }
  }

  lemma BeginIsLinted(paths: seq<Path>, repo: Repository, s: Scope, i: nat, c: Crate)
    requires Consistent(repo) && LoadedBy(paths, repo, s.loaded, s.late) && Selected(paths, repo, s)
    requires i < |s.loaded| && c in s.loaded[i].crates && Begins(paths, repo, s.loaded, i == 0, s.loaded[i], c)
    ensures c.folder in s.related && Lints(paths, s, i, c)
  {
    hide Consumes, LoadedBy, Consistent, Selected, Begins, Due, Lints;
    var k :| 0 <= k < |s.loaded[i].crates| && s.loaded[i].crates[k] == c;
    assert CrateAt(s.loaded, i, k);
    assert Trail(paths, repo, s, [c.folder]);
    assert [c.folder][|[c.folder]| - 1] == c.folder;
    RelatedExactly(paths, repo, s, c.folder);
    LoadedExactly(paths, repo, s, i, c);
  }

  /** A push that removes a package loads every discoverable workspace, and lints every crate of each but the Runtime's. */
  lemma RemovalLintsAll(paths: seq<Path>, repo: Repository, s: Scope, m: Path, c: Crate)
    requires Consistent(repo) && LoadedBy(paths, repo, s.loaded, s.late) && Selected(paths, repo, s)
    requires Removed(paths, repo) != {} && m in Discoverable(repo)
    requires repo.metadata[m] != repo.metadata[["elastos"]] && c in repo.metadata[m].crates
    ensures repo.metadata[m] in s.loaded && c.folder in s.related
    ensures forall i: nat | i < |s.loaded| && s.loaded[i] == repo.metadata[m] :: Lints(paths, s, i, c)
  {
    CandidateIsLoaded(paths, repo, s, m);
    forall i: nat | i < |s.loaded| && s.loaded[i] == repo.metadata[m]
      ensures Lints(paths, s, i, c) && c.folder in s.related
    {
      BeginIsLinted(paths, repo, s, i, c);
    }
    var i :| 0 <= i < |s.loaded| && s.loaded[i] == repo.metadata[m];
  }

  /** A change of the configuration lints and tests every crate, the Runtime's included. */
  lemma ConfigurationChecksAll(paths: seq<Path>, repo: Repository, s: Scope, m: Path, c: Crate)
    requires Consistent(repo) && LoadedBy(paths, repo, s.loaded, s.late) && Selected(paths, repo, s)
    requires NewSettings(paths) && (m == ["elastos"] || m in Discoverable(repo)) && c in repo.metadata[m].crates
    ensures repo.metadata[m] in s.loaded
    ensures forall i: nat | i < |s.loaded| && s.loaded[i] == repo.metadata[m] :: Lints(paths, s, i, c) && Tests(paths, s, i, c)
  {
    assert RUNTIME == ["elastos"];
    if m != RUNTIME {
      CandidateIsLoaded(paths, repo, s, m);
    } else {
      assert s.loaded[0] in s.loaded;
    }
    forall i: nat | i < |s.loaded| && s.loaded[i] == repo.metadata[m]
      ensures Lints(paths, s, i, c) && Tests(paths, s, i, c)
    {
      BeginIsLinted(paths, repo, s, i, c);
      LoadedExactly(paths, repo, s, i, c);
    }
  }

  /** A changed file below a crate, other than a text, has the crate linted and tested when its workspace is loaded for
      the paths; and it is loaded when the crate's manifest is the nearest one above the file and discoverable. */
  lemma ChangedIsChecked(paths: seq<Path>, repo: Repository, s: Scope, i: nat, c: Crate, p: Path)
    requires Consistent(repo) && LoadedBy(paths, repo, s.loaded, s.late) && Selected(paths, repo, s)
    requires p in paths && c.folder < p && !TextName(p[|p| - 1])
    ensures i < |s.loaded| && c in s.loaded[i].crates ==> Lints(paths, s, i, c) && Tests(paths, s, i, c)
    ensures Finds(paths, repo, p, c.folder) ==> repo.metadata[c.folder] in s.loaded
  {
    assert NewInputs(paths, c.folder);
    if i < |s.loaded| && c in s.loaded[i].crates {
      BeginIsLinted(paths, repo, s, i, c);
      LoadedExactly(paths, repo, s, i, c);
    }
    if Finds(paths, repo, p, c.folder) {
      CandidateIsLoaded(paths, repo, s, c.folder);
    }
  }

  // ---------------------------------------------------------------- what is refused, and where a path leads

  /** The folder of a manifest of this push that is gone and was neither template nor test data. */
  lemma RemovedExactly(paths: seq<Path>, repo: Repository, f: Path)
    ensures f in Removed(paths, repo) <==>
              && f != [] && f + ["Cargo.toml"] in paths && f + ["Cargo.toml"] !in repo.files
              && "templates" !in f && "fixtures" !in f
  {
    var p := f + ["Cargo.toml"];
    assert p[..|p| - 1] == f;
    if f in Removed(paths, repo) {
      var q :| q in paths && RemovesManifest(repo, q) && q[..|q| - 1] == f;
      assert q == p;
    } else if f != [] && p in paths && p !in repo.files && "templates" !in f && "fixtures" !in f {
      assert Plain(p) && RemovesManifest(repo, p);
    }
  }

  /** The path is the manifest of a template or of test data, or lies in a package that this push removes. */
  ghost predicate Exempt(paths: seq<Path>, repo: Repository, p: Path) {
    || (|p| >= 2 && p[|p| - 1] == "Cargo.toml" && ("templates" in p || "fixtures" in p))
    || exists f | f in Removed(paths, repo) :: Below(p, f)
  }

  /** A changed path leads to the nearest manifest above it, if that is discoverable and the path is not exempt. */
  lemma FindsExactly(paths: seq<Path>, repo: Repository, p: Path, m: Path)
    ensures Finds(paths, repo, p, m) <==>
              && p in paths && !Exempt(paths, repo, p)
              && m in repo.manifests && "templates" !in m && "fixtures" !in m
              && Below(p, m) && forall n | n in repo.manifests && Below(p, n) :: !Below(n, m)
  {
    NearestIs(repo.manifests, p, m);
  }

  ghost predicate RustName(p: Path) {
    p != [] && exists stem: string :: p[|p| - 1] == stem + ".rs"
  }

  lemma RustNameIs(p: Path)
    ensures IsRust(p) <==> RustName(p)
  {
    if IsRust(p) {
      var name := p[|p| - 1];
      assert name == name[..|name| - 3] + ".rs";
    }
  }

  /** Refused are exactly the pushes that leave the folder of a removed package behind, or change a Rust source or a
      manifest that lies below no tracked manifest and is not exempt. */
  lemma RefusedExactly(paths: seq<Path>, repo: Repository)
    ensures Refused(paths, repo) <==>
              || (exists f | f in Removed(paths, repo) :: f in repo.folders)
              || (exists p | p in paths ::
                    && !Exempt(paths, repo, p) && (forall m | m in repo.manifests :: !Below(p, m))
                    && ((|p| >= 2 && p[|p| - 1] == "Cargo.toml") || RustName(p)))
  {
    forall p | p in paths
      ensures Orphan(paths, repo, p) <==>
                && !Exempt(paths, repo, p) && (forall m | m in repo.manifests :: !Below(p, m))
                && ((|p| >= 2 && p[|p| - 1] == "Cargo.toml") || RustName(p))
    {
      RustNameIs(p);
      NoneAbove(repo.manifests, p);
    }
  }

  lemma NoneAbove(manifests: set<Path>, p: Path)
    ensures Nearest(manifests, p).None? <==> forall m | m in manifests :: !Below(p, m)
  {
    if Nearest(manifests, p).Some? {
      assert Below(p, Nearest(manifests, p).value);
    }
    forall m | m in manifests && Below(p, m)
      ensures Nearest(manifests, p).Some?
    {
      assert p[..|m|] == m;
    }
  }
}
