/**
 Which workspaces a push loads: the one of the nearest discoverable manifest above each changed path,
 and, once a package has changed, all others for the search of its consumers.
 */
module PushLoad {
  import opened Wrappers
  import opened Sets
  import opened PushScope
  import opened Worklist

  /** The parts of a path relative to the repository, or of the folder of a manifest. */
  type Path = seq<string>

  datatype Crate = Crate(folder: Path, dependencies: seq<Path>)

  /** What the metadata of a workspace give. `owners`: its crates that refer to a changed file outside of them. */
  datatype Space = Space(root: Path, crates: seq<Crate>, owners: set<Path>)

  /** `files` and `folders` are there now, `manifests` are the folders of the tracked manifests. */
  datatype Repository = Repository(files: set<Path>, folders: set<Path>, manifests: set<Path>, metadata: map<Path, Space>)

  const RUNTIME: Path := ["elastos"]

  /** No part of it says that it is only a template or test data. */
  predicate Plain(p: Path) {
    "templates" !in p && "fixtures" !in p
  }

  predicate Below(p: Path, folder: Path) {
    |folder| < |p| && p[..|folder|] == folder
  }

  predicate EndsWith(name: string, suffix: string) {
    |suffix| < |name| && name[|name| - |suffix|..] == suffix
  }

  predicate HasSuffix(p: Path, suffix: string) {
    p != [] && EndsWith(p[|p| - 1], suffix)
  }

  predicate IsRust(p: Path) {
    p != [] && var name := p[|p| - 1]; |name| >= 3 && name[|name| - 3..] == ".rs"
  }

  predicate IsManifest(p: Path) {
    |p| >= 2 && p[|p| - 1] == "Cargo.toml"
  }

  /** A changed input of a package. */
  predicate TouchedBy(p: Path, folder: Path) {
    Below(p, folder) && !HasSuffix(p, ".md") && !HasSuffix(p, ".txt")
  }

  predicate Touched(paths: seq<Path>, folder: Path) {
    exists p | p in paths :: TouchedBy(p, folder)
  }

  function Discoverable(repo: Repository): set<Path> {
    set m | m in repo.manifests && Plain(m)
  }

  predicate RemovesManifest(repo: Repository, p: Path) {
    IsManifest(p) && p !in repo.files && Plain(p)
  }

  /** The folders of the packages that the push removes. */
  function Removed(paths: seq<Path>, repo: Repository): set<Path> {
    set p | p in paths && RemovesManifest(repo, p) :: p[..|p| - 1]
  }

  predicate Configuration(paths: seq<Path>) {
    ["rust-toolchain.toml"] in paths || [".cargo", "config.toml"] in paths
  }

  predicate RuntimeFile(p: Path) {
    p in [["elastos", "Cargo.toml"], ["elastos", "Cargo.lock"]]
    || (|p| > 2 && p[0] == "elastos" && p[1] in [".cargo", "wit", "config"])
  }

  /** The workspace's own manifest, lock file or configuration. */
  predicate WorkspaceFile(p: Path, root: Path) {
    p in [root + ["Cargo.toml"], root + ["Cargo.lock"], root + [".cargo", "config.toml"]]
  }

  // ---------------------------------------------------------------- the nearest manifest

  function Up(manifests: set<Path>, p: Path, n: nat): (m: Option<Path>)
    requires n <= |p|
    ensures m.Some? ==> m.value in manifests && |m.value| < n && p[..|m.value|] == m.value
    ensures m.Some? ==> forall k | |m.value| < k < n :: p[..k] !in manifests
    ensures m.None? ==> forall k | 0 <= k < n :: p[..k] !in manifests
  {
    if n == 0 then None
    else if p[..n - 1] in manifests then Some(p[..n - 1])
    else Up(manifests, p, n - 1)
  }

  function Nearest(manifests: set<Path>, p: Path): (m: Option<Path>) {
    Up(manifests, p, |p|)
  }

  /** The nearest manifest is the one below all others above the path. */
  lemma NearestIs(manifests: set<Path>, p: Path, m: Path)
    ensures Nearest(manifests, p) == Some(m) <==>
              m in manifests && Below(p, m) && forall n | n in manifests && Below(p, n) :: !Below(n, m)
  {
    var nearest := Nearest(manifests, p);
    if nearest == Some(m) {
      forall n | n in manifests && Below(p, n) ensures !Below(n, m) {
        assert p[..|n|] == n;
      }
    } else if m in manifests && Below(p, m) {
      assert p[..|m|] == m && nearest.Some?;
      assert Below(p, nearest.value);
      assert Below(nearest.value, m) by {
        assert nearest.value[..|m|] == p[..|m|];
      }
    }
  }

  predicate Ignored(paths: seq<Path>, repo: Repository, p: Path) {
    (IsManifest(p) && !Plain(p)) || exists f | f in Removed(paths, repo) :: Below(p, f)
  }

  /** The changed path leads to the manifest of this folder, and so to the workspace of that. */
  predicate Finds(paths: seq<Path>, repo: Repository, p: Path, folder: Path) {
    p in paths && !Ignored(paths, repo, p) && Nearest(repo.manifests, p) == Some(folder) && folder in Discoverable(repo)
  }

  predicate Broad(paths: seq<Path>, repo: Repository) {
    Removed(paths, repo) != {} || Configuration(paths)
  }

  /** A changed source or manifest that belongs to no package is an error. */
  predicate Orphan(paths: seq<Path>, repo: Repository, p: Path) {
    && p in paths && !Ignored(paths, repo, p) && Nearest(repo.manifests, p).None?
    && (IsManifest(p) || IsRust(p))
  }

  predicate Candidate(paths: seq<Path>, repo: Repository, m: Path) {
    (Broad(paths, repo) && m in Discoverable(repo)) || exists p | p in paths :: Finds(paths, repo, p, m)
  }

  predicate FoundBy(paths: seq<Path>, repo: Repository, i: nat, m: Path)
    requires i <= |paths|
  {
    exists p | p in paths[..i] :: Finds(paths, repo, p, m)
  }

  lemma FoundNext(paths: seq<Path>, repo: Repository, i: nat)
    requires i < |paths|
    ensures forall m :: FoundBy(paths, repo, i + 1, m) <==> FoundBy(paths, repo, i, m) || Finds(paths, repo, paths[i], m)
  {
    assert paths[..i + 1] == paths[..i] + [paths[i]];
    forall m ensures FoundBy(paths, repo, i + 1, m) <==> FoundBy(paths, repo, i, m) || Finds(paths, repo, paths[i], m) {
      if Finds(paths, repo, paths[i], m) {
        assert paths[i] in paths[..i + 1];
      }
      if FoundBy(paths, repo, i, m) {
        var p :| p in paths[..i] && Finds(paths, repo, p, m);
        assert p in paths[..i + 1];
      }
    }
  }

  /** The manifests whose workspaces are loaded first; None stands for the error. */
  method Candidates(paths: seq<Path>, repo: Repository) returns (r: Option<set<Path>>)
    ensures r.None? <==> exists p | p in paths :: Orphan(paths, repo, p)
    ensures r.Some? ==> forall m :: m in r.value <==> Candidate(paths, repo, m)
  {
    var found: set<Path> := {};
    var i := 0;
    while i < |paths|
      invariant i <= |paths|
      invariant forall p | p in paths[..i] :: !Orphan(paths, repo, p)
      invariant forall m :: m in found <==> FoundBy(paths, repo, i, m)
    {
      var p := paths[i];
      if !Ignored(paths, repo, p) {
        var m := Nearest(repo.manifests, p);
        if m.Some? {
          if m.value in Discoverable(repo) {
            found := found + {m.value};
          }
        } else if IsManifest(p) || IsRust(p) {
          assert Orphan(paths, repo, p);
          return None;
        }
      }
      assert paths[..i + 1] == paths[..i] + [p];
      FoundNext(paths, repo, i);
      i := i + 1;
    }
    assert paths[..i] == paths;
    if Broad(paths, repo) {
      assert forall m, p | p in paths && Finds(paths, repo, p, m) :: m in Discoverable(repo);
      found := found + Discoverable(repo);
    }
    return Some(found);
  }

  // ---------------------------------------------------------------- loading

  predicate InSpace(s: Space, m: Path) {
    m == s.root || exists c | c in s.crates :: c.folder == m
  }

  predicate Known(spaces: seq<Space>, m: Path) {
    exists s | s in spaces :: InSpace(s, m)
  }

  /** Each manifest is one of its workspace, as its metadata say; workspaces share no manifest and own only their crates. */
  ghost predicate Consistent(repo: Repository) {
    && Discoverable(repo) <= repo.metadata.Keys
    && RUNTIME in repo.metadata && repo.metadata[RUNTIME].root == RUNTIME
    && (forall m | m in repo.metadata :: InSpace(repo.metadata[m], m))
    && (forall m, n, f | m in repo.metadata && n in repo.metadata && InSpace(repo.metadata[m], f) && InSpace(repo.metadata[n], f) ::
          repo.metadata[m] == repo.metadata[n])
    && (forall m, f | m in repo.metadata && f in repo.metadata[m].owners :: InSpace(repo.metadata[m], f))
  }

  /** Loads the workspaces of manifests that belong to none of the loaded ones. */
  method Load(spaces: seq<Space>, wanted: seq<Path>, metadata: map<Path, Space>) returns (more: seq<Space>)
    requires forall m | m in wanted :: m in metadata && InSpace(metadata[m], m)
    ensures spaces <= more
    ensures forall m | m in wanted :: Known(more, m)
    ensures forall s | s in more[|spaces|..] :: exists m | m in wanted :: s == metadata[m] && !Known(spaces, m)
  {
    more := spaces;
    var i := 0;
    while i < |wanted|
      invariant i <= |wanted| && spaces <= more
      invariant forall m | m in wanted[..i] :: Known(more, m)
      invariant forall s | s in more[|spaces|..] :: exists m | m in wanted :: s == metadata[m] && !Known(spaces, m)
    {
      var m := wanted[i];
      if !Known(more, m) {
        LoadNext(spaces, more, wanted, i, metadata);
        more := more + [metadata[m]];
      }
      assert wanted[..i + 1] == wanted[..i] + [m];
      i := i + 1;
    }
    assert wanted[..i] == wanted;
  }

  lemma LoadNext(spaces: seq<Space>, more: seq<Space>, wanted: seq<Path>, i: nat, metadata: map<Path, Space>)
    requires i < |wanted| && spaces <= more && !Known(more, wanted[i])
    requires forall m | m in wanted :: m in metadata && InSpace(metadata[m], m)
    ensures forall m | Known(more, m) :: Known(more + [metadata[wanted[i]]], m)
    ensures Known(more + [metadata[wanted[i]]], wanted[i]) && !Known(spaces, wanted[i])
    ensures (more + [metadata[wanted[i]]])[|spaces|..] == more[|spaces|..] + [metadata[wanted[i]]]
  {
    var extended := more + [metadata[wanted[i]]];
    assert extended[|more|] == metadata[wanted[i]];
    forall m | Known(more, m) ensures Known(extended, m) {
      var s :| s in more && InSpace(s, m);
      assert s in extended;
    }
    assert forall s | s in spaces :: s in more;
  }

  /** The package and the workspace as the search sees them. */
  function PackageOf(paths: seq<Path>, c: Crate): Package {
    Package(c.folder, c.dependencies, Touched(paths, c.folder))
  }

  function WorkspaceOf(paths: seq<Path>, s: Space): Workspace {
    Workspace(seq(|s.crates|, i requires 0 <= i < |s.crates| => PackageOf(paths, s.crates[i])),
              exists p | p in paths :: WorkspaceFile(p, s.root))
  }

  function Workspaces(paths: seq<Path>, spaces: seq<Space>): seq<Workspace> {
    seq(|spaces|, i requires 0 <= i < |spaces| => WorkspaceOf(paths, spaces[i]))
  }

  function Owners(spaces: seq<Space>): set<Path> {
    set s, f | s in spaces && f in s.owners :: f
  }

  function ChangeOf(paths: seq<Path>, repo: Repository, loaded: seq<Space>): Change {
    Change(Configuration(paths), Removed(paths, repo) != {}, exists p | p in paths :: RuntimeFile(p), Owners(loaded))
  }

  /** What one push comes to: the workspaces loaded for its paths, those loaded only for the search, and the result. */
  datatype Scope = Scope(loaded: seq<Space>, late: seq<Space>, related: set<Path>,
                         lint: seq<seq<Package>>, units: seq<seq<Package>>)

  /** Loaded are the Runtime's workspace and those of the candidates, late all others. */
  ghost predicate LoadedBy(paths: seq<Path>, repo: Repository, loaded: seq<Space>, late: seq<Space>) {
    && loaded != [] && RUNTIME in repo.metadata && loaded[0] == repo.metadata[RUNTIME]
    && (forall s | s in loaded[1..] :: exists m | m in repo.metadata :: s == repo.metadata[m] && Candidate(paths, repo, m))
    && (forall m | Candidate(paths, repo, m) :: Known(loaded, m))
    && (forall s | s in late :: exists m | m in Discoverable(repo) && m in repo.metadata :: s == repo.metadata[m] && !Known(loaded, m))
    && (forall m | m in Discoverable(repo) :: Known(loaded + late, m))
  }

  /** A removed manifest left its folder behind, or a changed source belongs to no package. */
  predicate Refused(paths: seq<Path>, repo: Repository) {
    (exists f | f in Removed(paths, repo) :: f in repo.folders) || (exists p | p in paths :: Orphan(paths, repo, p))
  }

  method LoadAll(paths: seq<Path>, repo: Repository) returns (r: Option<(seq<Space>, seq<Space>)>)
    requires Consistent(repo)
    ensures r.None? <==> Refused(paths, repo)
    ensures r.Some? ==> LoadedBy(paths, repo, r.value.0, r.value.1)
  {
    if exists f | f in Removed(paths, repo) :: f in repo.folders {
      return None;
    }
    var candidates := Candidates(paths, repo);
    if candidates.None? {
      return None;
    }
    var wanted := Listed(candidates.value);
    assert forall m | m in wanted :: Candidate(paths, repo, m) && m in Discoverable(repo);
    var loaded := Load([repo.metadata[RUNTIME]], wanted, repo.metadata);
    var rest := Listed(Discoverable(repo));
    var all := Load(loaded, rest, repo.metadata);
    assert all == loaded + all[|loaded|..];
    return Some((loaded, all[|loaded|..]));
  }

  lemma RuntimeIsWatched(paths: seq<Path>, repo: Repository, loaded: seq<Space>, late: seq<Space>)
    requires Consistent(repo) && LoadedBy(paths, repo, loaded, late)
    ensures Watched(ChangeOf(paths, repo, loaded), Workspaces(paths, loaded))
  {
    forall p | p in paths && WorkspaceFile(p, RUNTIME) ensures RuntimeFile(p) {
      assert RUNTIME + ["Cargo.toml"] == ["elastos", "Cargo.toml"] && RUNTIME + ["Cargo.lock"] == ["elastos", "Cargo.lock"];
      assert RUNTIME + [".cargo", "config.toml"] == ["elastos", ".cargo", "config.toml"];
    }
  }

  /** The whole selection, from the changed paths. */
  method PushChecks(paths: seq<Path>, repo: Repository) returns (r: Option<Scope>)
    requires Consistent(repo)
    ensures r.None? <==> Refused(paths, repo)
    ensures r.Some? ==> LoadedBy(paths, repo, r.value.loaded, r.value.late) && Selected(paths, repo, r.value)
  {
    var spaces := LoadAll(paths, repo);
    if spaces.None? {
      return None;
    }
    var (loaded, late) := spaces.value;
    RuntimeIsWatched(paths, repo, loaded, late);
    var seeds, consumers, related, lint, units :=
      TouchedWorkspaces(ChangeOf(paths, repo, loaded), Workspaces(paths, loaded), Workspaces(paths, late));
    r := Some(Scope(loaded, late, related, lint, units));
    assert SelectedBy(paths, repo, r.value, seeds, consumers);
  }

  ghost predicate SelectedBy(paths: seq<Path>, repo: Repository, s: Scope, seeds: set<Path>, consumers: Graph<Path>) {
    var change, loaded := ChangeOf(paths, repo, s.loaded), Workspaces(paths, s.loaded);
    var all := Loaded(loaded, Workspaces(paths, s.late), seeds);
    && AreSeeds(change, loaded, seeds) && AreConsumers(all, consumers) && AreRelated(consumers, seeds, s.related)
    && |s.lint| == |s.units| == |all|
    && forall i | 0 <= i < |all| :: Right(change, |loaded|, i, all[i], s.related, s.lint[i], s.units[i])
  }

  ghost predicate Selected(paths: seq<Path>, repo: Repository, s: Scope) {
    exists seeds, consumers :: SelectedBy(paths, repo, s, seeds, consumers)
  }

  // ---------------------------------------------------------------- workspaces that are loaded late

  /** A workspace of which one manifest is loaded is loaded whole. */
  lemma LoadedWhole(paths: seq<Path>, repo: Repository, loaded: seq<Space>, late: seq<Space>, m: Path, f: Path)
    requires Consistent(repo) && LoadedBy(paths, repo, loaded, late)
    requires m in repo.metadata && InSpace(repo.metadata[m], f) && Known(loaded, f)
    ensures Known(loaded, m)
  {
    var s :| s in loaded && InSpace(s, f);
    var n := RUNTIME;
    if s != loaded[0] {
      assert s in loaded[1..];
      n :| n in repo.metadata && s == repo.metadata[n] && Candidate(paths, repo, n);
    }
    assert repo.metadata[m] == repo.metadata[n];
  }

  /** Nothing widened the scope, and no changed path leads to a manifest of a late workspace. */
  lemma LateIsNotFound(paths: seq<Path>, repo: Repository, loaded: seq<Space>, late: seq<Space>, s: Space, f: Path)
    requires Consistent(repo) && LoadedBy(paths, repo, loaded, late) && s in late && InSpace(s, f)
    ensures !Broad(paths, repo) && !Candidate(paths, repo, f) && !Known(loaded, f)
  {
    var m :| m in Discoverable(repo) && m in repo.metadata && s == repo.metadata[m] && !Known(loaded, m);
    assert !Candidate(paths, repo, m);
    if Known(loaded, f) {
      LoadedWhole(paths, repo, loaded, late, m, f);
    }
  }

  /** The path is in a package of its own inside this folder, or is the manifest of a template or of test data. */
  predicate Inner(repo: Repository, p: Path, folder: Path) {
    (IsManifest(p) && !Plain(p)) || exists n | n in repo.manifests :: Below(n, folder) && Below(p, n)
  }

  lemma NotFoundIsInner(paths: seq<Path>, repo: Repository, p: Path, folder: Path)
    requires p in paths && Below(p, folder) && folder in Discoverable(repo)
    requires !Broad(paths, repo) && !Finds(paths, repo, p, folder)
    ensures Inner(repo, p, folder)
  {
    if !(IsManifest(p) && !Plain(p)) {
      assert !Ignored(paths, repo, p);
      assert p[..|folder|] == folder;
      var n := Nearest(repo.manifests, p).value;
      assert Below(p, n) && |folder| < |n|;
      assert n[..|folder|] == p[..|folder|];
    }
  }

  lemma OwnersAreKnown(paths: seq<Path>, repo: Repository, loaded: seq<Space>, late: seq<Space>)
    requires Consistent(repo) && LoadedBy(paths, repo, loaded, late)
    ensures forall f | f in Owners(loaded) :: Known(loaded, f)
  {
    forall f | f in Owners(loaded) ensures Known(loaded, f) {
      var s :| s in loaded && f in s.owners;
      assert s == loaded[0] || s in loaded[1..];
      assert InSpace(s, f);
    }
  }

  /** Without a wider scope only changed paths below the package, or the workspace's own files, make it direct. */
  lemma DirectByPath(paths: seq<Path>, repo: Repository, loaded: seq<Space>, s: Space, c: Crate)
    requires !Broad(paths, repo) && c.folder !in Owners(loaded)
    ensures Direct(ChangeOf(paths, repo, loaded), false, WorkspaceOf(paths, s), PackageOf(paths, c)) <==>
              (exists p | p in paths :: TouchedBy(p, c.folder)) || (exists p | p in paths :: WorkspaceFile(p, s.root))
  {
  }

  /** Under a folder whose manifest is discoverable the path is in a package of its own; under another one it may be anywhere. */
  predicate Escapes(repo: Repository, p: Path, folder: Path) {
    folder in Discoverable(repo) ==> Inner(repo, p, folder)
  }

  /** A changed path lies under the package, or is a file of its workspace, and yet does not lead there. */
  predicate Strays(paths: seq<Path>, repo: Repository, c: Crate, root: Path) {
    || (exists p | p in paths :: TouchedBy(p, c.folder) && Escapes(repo, p, c.folder))
    || (exists p | p in paths :: WorkspaceFile(p, root) && Escapes(repo, p, root))
  }

  /** A package of a late workspace counts as changed exactly when a changed path of it, or a file of its workspace,
      does not lead to its manifest: the nearest manifest is an inner one, or this one is no discoverable one. */
  lemma LateDirectExactly(paths: seq<Path>, repo: Repository, loaded: seq<Space>, late: seq<Space>, s: Space, c: Crate)
    requires Consistent(repo) && LoadedBy(paths, repo, loaded, late) && s in late && c in s.crates
    ensures Direct(ChangeOf(paths, repo, loaded), false, WorkspaceOf(paths, s), PackageOf(paths, c)) <==>
              Strays(paths, repo, c, s.root)
  {
    LateIsNotFound(paths, repo, loaded, late, s, c.folder);
    LateIsNotFound(paths, repo, loaded, late, s, s.root);
    OwnersAreKnown(paths, repo, loaded, late);
    DirectByPath(paths, repo, loaded, s, c);
    TouchesStray(paths, repo, s, c);
  }

  lemma TouchesStray(paths: seq<Path>, repo: Repository, s: Space, c: Crate)
    requires !Broad(paths, repo) && !Candidate(paths, repo, c.folder) && !Candidate(paths, repo, s.root)
    ensures forall p | p in paths && TouchedBy(p, c.folder) :: Escapes(repo, p, c.folder)
    ensures forall p | p in paths && WorkspaceFile(p, s.root) :: Escapes(repo, p, s.root)
  {
    forall p | p in paths && TouchedBy(p, c.folder) && c.folder in Discoverable(repo) ensures Inner(repo, p, c.folder) {
      assert !Finds(paths, repo, p, c.folder);
      NotFoundIsInner(paths, repo, p, c.folder);
    }
    forall p | p in paths && WorkspaceFile(p, s.root) && s.root in Discoverable(repo) ensures Inner(repo, p, s.root) {
      assert Below(p, s.root) && !Finds(paths, repo, p, s.root);
      NotFoundIsInner(paths, repo, p, s.root);
    }
  }

  // ---------------------------------------------------------------- pushes under which a package is linted unreached

  const FIRST: Path := ["tools", "first"]
  const APPS: Path := ["apps"]
  const SECOND: Path := ["apps", "second"]

  /** Either a member that has a test crate of its own inside it, or one that itself lies among the fixtures. */
  function Third(member: bool): Path {
    if member then ["apps", "fixtures", "demo"] else ["apps", "third"]
  }

  /** The folder of the manifest that the second changed path leads to. */
  function Demo(member: bool): Path {
    if member then Third(true) else ["apps", "third", "fixtures", "demo"]
  }

  const FIRST_SOURCE: Path := ["tools", "first", "src", "lib.rs"]

  function DemoSource(member: bool): Path {
    Demo(member) + ["main.rs"]
  }

  function Push(member: bool): seq<Path> {
    [FIRST_SOURCE, DemoSource(member)]
  }

  const HOST := Space(RUNTIME, [], {})
  const TOOL := Space(FIRST, [Crate(FIRST, [])], {})

  function Suite(member: bool): Space {
    Space(APPS, [Crate(SECOND, [FIRST]), Crate(Third(member), [])], {})
  }

  function Tree(member: bool): Repository {
    Repository({FIRST_SOURCE, DemoSource(member)}, {}, {RUNTIME, FIRST, APPS, SECOND, Third(member), Demo(member)},
               map[RUNTIME := HOST, FIRST := TOOL, APPS := Suite(member), SECOND := Suite(member), Third(member) := Suite(member)])
  }

  lemma NearestOfPush(member: bool)
    ensures Nearest(Tree(member).manifests, FIRST_SOURCE) == Some(FIRST)
    ensures Nearest(Tree(member).manifests, DemoSource(member)) == Some(Demo(member))
  {
    forall n | n in Tree(member).manifests && Below(FIRST_SOURCE, n) ensures n == FIRST {
      assert FIRST_SOURCE[0] == "tools";
      assert n[0] == FIRST_SOURCE[0];
    }
    NearestIs(Tree(member).manifests, FIRST_SOURCE, FIRST);
    NearestIs(Tree(member).manifests, DemoSource(member), Demo(member));
  }

  lemma ManifestsOfSpaces(member: bool)
    ensures forall f :: InSpace(HOST, f) <==> f == RUNTIME
    ensures forall f :: InSpace(TOOL, f) <==> f == FIRST
    ensures forall f :: InSpace(Suite(member), f) <==> f == APPS || f == SECOND || f == Third(member)
  {
    assert TOOL.crates[0].folder == FIRST;
    assert Suite(member).crates[0].folder == SECOND && Suite(member).crates[1].folder == Third(member);
  }

  lemma PlainManifests(member: bool)
    ensures Discoverable(Tree(member)) == {RUNTIME, FIRST, APPS, SECOND} + if member then {} else {Third(false)}
    ensures !Plain(Demo(member))
  {
    assert Demo(true)[1] == "fixtures" && Demo(false)[2] == "fixtures";
    assert Plain(RUNTIME) && Plain(FIRST) && Plain(APPS) && Plain(SECOND) && Plain(Third(false)) && !Plain(Demo(member));
  }

  lemma TreeIsConsistent(member: bool)
    ensures Consistent(Tree(member))
  {
    hide Plain, InSpace;
    ManifestsOfSpaces(member);
    PlainManifests(member);
    assert forall m | m in Tree(member).metadata :: Tree(member).metadata[m].owners == {};
  }

  lemma NothingRemoved(member: bool)
    ensures Removed(Push(member), Tree(member)) == {} && !Broad(Push(member), Tree(member))
    ensures forall p | p in Push(member) :: !Ignored(Push(member), Tree(member), p)
  {
    SourcesOnly(member);
    assert forall p | p in Push(member) :: p == FIRST_SOURCE || p == DemoSource(member);
    assert Removed(Push(member), Tree(member)) == {} by {
      hide Plain, IsManifest;
    }
  }

  lemma SourcesOnly(member: bool)
    ensures !IsManifest(FIRST_SOURCE) && !IsManifest(DemoSource(member))
    ensures !Configuration(Push(member))
  {
    assert |DemoSource(member)| > 3 && DemoSource(member)[|DemoSource(member)| - 1] == "main.rs";
    assert forall p | p in Push(member) :: p == FIRST_SOURCE || p == DemoSource(member);
  }

  lemma PushLeadsToFirst(member: bool)
    ensures !Refused(Push(member), Tree(member))
    ensures forall m :: Candidate(Push(member), Tree(member), m) <==> m == FIRST
  {
    hide Plain;
    NearestOfPush(member);
    NothingRemoved(member);
    PlainManifests(member);
    assert forall p | p in Push(member) :: p == FIRST_SOURCE || p == DemoSource(member);
    assert Push(member)[0] == FIRST_SOURCE && Finds(Push(member), Tree(member), FIRST_SOURCE, FIRST);
  }

  lemma LoadedAre(paths: seq<Path>, repo: Repository, loaded: seq<Space>, late: seq<Space>, first: Path)
    requires LoadedBy(paths, repo, loaded, late) && first in repo.metadata
    requires forall m :: Candidate(paths, repo, m) <==> m == first
    ensures forall s | s in loaded :: s == repo.metadata[RUNTIME] || s == repo.metadata[first]
    ensures Known(loaded, first)
  {
    assert forall s | s in loaded :: s == loaded[0] || s in loaded[1..];
  }

  lemma LateAre(paths: seq<Path>, repo: Repository, loaded: seq<Space>, late: seq<Space>, suite: Space)
    requires LoadedBy(paths, repo, loaded, late)
    requires forall m | m in Discoverable(repo) && m in repo.metadata :: repo.metadata[m] == suite || Known(loaded, m)
    ensures forall s | s in late :: s == suite
  {
  }

  /** `second` consumes the tool `first`, and `third` lies beside `second` and consumes nothing. */
  ghost predicate Beside(host: Space, tool: Space, suite: Space, first: Path, second: Path, third: Path) {
    && host.crates == [] && tool.crates == [Crate(first, [])]
    && suite.crates == [Crate(second, [first]), Crate(third, [])]
    && host.owners == {} && tool.owners == {} && first != third && second != third
  }

  ghost predicate Late(host: Space, tool: Space, suite: Space, loaded: seq<Space>, late: seq<Space>) {
    && loaded != [] && loaded[0] == host && tool in loaded && (forall s | s in loaded :: s == host || s == tool)
    && suite in late && forall s | s in late :: s == suite
  }

  /** Loaded are the Runtime and the tool, and the other workspace comes late. */
  lemma SuiteIsLate(paths: seq<Path>, repo: Repository, loaded: seq<Space>, late: seq<Space>, suite: Space, first: Path, second: Path)
    requires LoadedBy(paths, repo, loaded, late) && first in repo.metadata
    requires forall m :: Candidate(paths, repo, m) <==> m == first
    requires forall m | m in Discoverable(repo) && m in repo.metadata :: repo.metadata[m] == suite || m == RUNTIME || m == first
    requires InSpace(repo.metadata[RUNTIME], RUNTIME) && !InSpace(repo.metadata[RUNTIME], first)
    requires second in Discoverable(repo) && !InSpace(repo.metadata[RUNTIME], second) && !InSpace(repo.metadata[first], second)
    ensures Late(repo.metadata[RUNTIME], repo.metadata[first], suite, loaded, late)
  {
    LoadedAre(paths, repo, loaded, late, first);
    assert loaded[0] in loaded && Known(loaded, RUNTIME);
    LateAre(paths, repo, loaded, late, suite);
    assert Known(loaded + late, second);
  }

  lemma StartsAtFirst(paths: seq<Path>, repo: Repository, host: Space, tool: Space, suite: Space,
                      first: Path, second: Path, third: Path, loaded: seq<Space>, late: seq<Space>)
    requires Beside(host, tool, suite, first, second, third) && Late(host, tool, suite, loaded, late) && Touched(paths, first)
    ensures IsSeed(ChangeOf(paths, repo, loaded), Workspaces(paths, loaded), first)
    ensures !IsSeed(ChangeOf(paths, repo, loaded), Workspaces(paths, loaded), third)
  {
    var i :| 0 <= i < |loaded| && loaded[i] == tool;
    assert Workspaces(paths, loaded)[i].packages[0] == Package(first, [], true);
    assert Owners(loaded) == {};
    assert forall j | 0 <= j < |loaded| :: loaded[j] in loaded;
  }

  lemma OnlySecondConsumes(paths: seq<Path>, host: Space, tool: Space, suite: Space,
                           first: Path, second: Path, third: Path, loaded: seq<Space>, late: seq<Space>)
    requires Beside(host, tool, suite, first, second, third) && Late(host, tool, suite, loaded, late)
    ensures var all := Workspaces(paths, loaded) + Workspaces(paths, late);
            IsEdge(all, first, second) && forall d :: !IsEdge(all, d, third)
  {
    var all := Workspaces(paths, loaded) + Workspaces(paths, late);
    var k :| 0 <= k < |late| && late[k] == suite;
    assert all[|loaded| + k].packages[0] == PackageOf(paths, Crate(second, [first]));
    forall d, i, j | 0 <= i < |all| && 0 <= j < |all[i].packages| && all[i].packages[j].folder == third
      ensures d !in all[i].packages[j].dependencies
    {
      var s := if i < |loaded| then loaded[i] else late[i - |loaded|];
      assert (s in loaded || s in late) && (s == host || s == tool || s == suite);
      assert all[i] == WorkspaceOf(paths, s) && all[i].packages[j] == PackageOf(paths, s.crates[j]);
      assert s == suite && j == 1;
    }
  }

  /** The search reaches `second` and not `third`. */
  lemma ReachesSecond(paths: seq<Path>, repo: Repository, s: Scope, seeds: set<Path>, consumers: Graph<Path>, host: Space, tool: Space,
                      suite: Space, first: Path, second: Path, third: Path)
    requires SelectedBy(paths, repo, s, seeds, consumers) && Beside(host, tool, suite, first, second, third)
    requires Late(host, tool, suite, s.loaded, s.late) && Touched(paths, first)
    ensures seeds != {} && second in s.related && third !in s.related
  {
    StartsAtFirst(paths, repo, host, tool, suite, first, second, third, s.loaded, s.late);
    OnlySecondConsumes(paths, host, tool, suite, first, second, third, s.loaded, s.late);
    assert first in seeds && third !in seeds;
    SeedReached(consumers, seeds, first);
    NextReached(consumers, seeds, first, second);
    Unreached(consumers, seeds, third);
  }

  lemma RightLate(paths: seq<Path>, repo: Repository, s: Scope, seeds: set<Path>, consumers: Graph<Path>, k: nat)
    requires SelectedBy(paths, repo, s, seeds, consumers) && seeds != {} && k < |s.late|
    ensures |s.loaded| + k < |s.lint| == |s.units|
    ensures Right(ChangeOf(paths, repo, s.loaded), |s.loaded|, |s.loaded| + k, WorkspaceOf(paths, s.late[k]), s.related,
                  s.lint[|s.loaded| + k], s.units[|s.loaded| + k])
  {
    hide Right, AreSeeds, AreConsumers, AreRelated, WorkspaceOf, ChangeOf;
    assert Loaded(Workspaces(paths, s.loaded), Workspaces(paths, s.late), seeds)[|s.loaded| + k] == WorkspaceOf(paths, s.late[k]);
  }

  /** So the workspace of both is gone through, and `third` is linted for its own change. */
  lemma ThirdIsLinted(paths: seq<Path>, repo: Repository, s: Scope, host: Space, tool: Space, suite: Space,
                      first: Path, second: Path, third: Path) returns (i: nat)
    requires Selected(paths, repo, s) && Beside(host, tool, suite, first, second, third)
    requires Late(host, tool, suite, s.loaded, s.late) && Touched(paths, first) && Touched(paths, third)
    ensures third !in s.related && i < |s.lint| && exists p | p in s.lint[i] :: p.folder == third
  {
    hide SelectedBy, Right, Beside, Touched, WorkspaceOf, ChangeOf;
    var seeds, consumers :| SelectedBy(paths, repo, s, seeds, consumers);
    ReachesSecond(paths, repo, s, seeds, consumers, host, tool, suite, first, second, third);
    var k :| 0 <= k < |s.late| && s.late[k] == suite;
    i := |s.loaded| + k;
    RightLate(paths, repo, s, seeds, consumers, k);
    LintsThird(paths, ChangeOf(paths, repo, s.loaded), |s.loaded|, i, host, tool, suite, s.related, s.lint[i], s.units[i],
               second, third, first);
  }

  lemma LintsThird(paths: seq<Path>, change: Change, loaded: nat, i: nat, host: Space, tool: Space, suite: Space, related: set<Path>,
                   lint: seq<Package>, units: seq<Package>, second: Path, third: Path, first: Path)
    requires Beside(host, tool, suite, first, second, third) && loaded <= i
    requires Right(change, loaded, i, WorkspaceOf(paths, suite), related, lint, units)
    requires second in related && Touched(paths, third)
    ensures exists p | p in lint :: p.folder == third
  {
    var w := WorkspaceOf(paths, suite);
    assert w.packages[0].folder == second && w.packages[1] == Package(third, [], true);
    assert Related(w, related) && w.packages[1] in w.packages;
    assert w.packages[1] in lint;
  }

  /** Two pushes under which a package is linted that no changed package reaches: its workspace is loaded only because
      the search for consumers goes through all workspaces, and its own changed file does not lead there. */
  method NestedPush(member: bool) returns (scope: Scope, ghost i: nat)
    ensures LoadedBy(Push(member), Tree(member), scope.loaded, scope.late) && Selected(Push(member), Tree(member), scope)
    ensures Third(member) !in scope.related
    ensures i < |scope.lint| && exists p | p in scope.lint[i] :: p.folder == Third(member)
  {
    hide Selected, LoadedBy, Consistent, Refused, Candidate, InSpace, Plain, Touched, Late;
    TreeIsConsistent(member);
    PushLeadsToFirst(member);
    var r := PushChecks(Push(member), Tree(member));
    scope := r.value;
    ManifestsOfSpaces(member);
    PlainManifests(member);
    SuiteIsLate(Push(member), Tree(member), scope.loaded, scope.late, Suite(member), FIRST, SECOND);
    PushTouches(member);
    i := ThirdIsLinted(Push(member), Tree(member), scope, HOST, TOOL, Suite(member), FIRST, SECOND, Third(member));
  }

  lemma PushTouches(member: bool)
    ensures Touched(Push(member), FIRST) && Touched(Push(member), Third(member))
  {
    assert Push(member)[0] == FIRST_SOURCE && TouchedBy(FIRST_SOURCE, FIRST);
    assert Push(member)[1] == DemoSource(member) && TouchedBy(DemoSource(member), Third(member));
  }
}
