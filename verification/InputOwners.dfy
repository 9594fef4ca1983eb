/**
 Which packages own the changed files that lie outside every package: those whose sources refer
 to them, directly or through the scripts they refer to. What a source refers to is given.
 */
module InputOwners {
  import opened Sets
  import opened Worklist

  type Path = string

  /** `references`: the inputs each existing file refers to. `scripts`: the files that are followed.
      `templates`: for a changed file in a template capsule, the files of that template. */
  datatype Tree = Tree(references: Graph<Path>, scripts: set<Path>, templates: Graph<Path>)

  predicate Exists(t: Tree, p: Path) {
    p in t.references
  }

  predicate Mentions(t: Tree, source: Path, changed: Path) {
    changed in Next(t.references, source) || Next(t.templates, changed) * Next(t.references, source) != {}
  }

  /** A source mentions a changed file when it refers to it, or to any file of the template capsule it lies in. */
  lemma MentionsExactly(t: Tree, source: Path, changed: Path)
    ensures Mentions(t, source, changed) <==>
              source in t.references && exists x | x in t.references[source] ::
                x == changed || (changed in t.templates && x in t.templates[changed])
  {
    var both := Next(t.templates, changed) * Next(t.references, source);
    if both != {} {
      var x :| x in both;
      assert x in t.references[source];
    }
    if source in t.references {
      forall x | x in t.references[source] && changed in t.templates && x in t.templates[changed] ensures x in both {
      }
    }
  }

  /** From a source to the existing scripts that it refers to. */
  function Follow(t: Tree): Graph<Path> {
    map s | s in t.references :: set p | p in t.references[s] && p in t.scripts && Exists(t, p) :: p
  }

  function Existing(t: Tree, sources: set<Path>): set<Path> {
    set p | p in sources && Exists(t, p) :: p
  }

  /** The package's sources lead to a file that mentions the changed one. */
  ghost predicate Owns(t: Tree, sources: set<Path>, changed: Path) {
    exists s :: Reached(Follow(t), Existing(t, sources), s) && Mentions(t, s, changed)
  }

  ghost predicate VisitInv(g: Graph<Path>, seeds: set<Path>, visited: set<Path>, pending: seq<Path>, files: set<Path>) {
    && visited <= files
    && AllReached(g, seeds, visited)
    && (forall p | p in pending && p in files :: Reached(g, seeds, p))
    && (forall p | p in seeds :: p in visited || p in pending)
    && (forall p, q | p in visited && q in Next(g, p) :: q in visited || q in pending)
  }

  lemma VisitStart(t: Tree, sources: set<Path>, pending: seq<Path>)
    requires Lists(pending, sources)
    ensures VisitInv(Follow(t), Existing(t, sources), {}, pending, t.references.Keys)
  {
    forall p | p in pending && p in t.references.Keys ensures Reached(Follow(t), Existing(t, sources), p) {
      SeedReached(Follow(t), Existing(t, sources), p);
    }
  }

  lemma VisitSkip(g: Graph<Path>, seeds: set<Path>, visited: set<Path>, rest: seq<Path>, p: Path, files: set<Path>)
    requires VisitInv(g, seeds, visited, rest + [p], files) && (p in visited || p !in files)
    requires seeds <= files && forall q :: Next(g, q) <= files
    ensures VisitInv(g, seeds, visited, rest, files)
  {
    forall q | q in rest ensures q in rest + [p] {
    }
    forall q | q in seeds ensures q in visited || q in rest {
      assert q in visited || q in rest + [p];
    }
    forall r, q | r in visited && q in Next(g, r) ensures q in visited || q in rest {
      assert q in visited || q in rest + [p];
    }
  }

  lemma VisitStep(g: Graph<Path>, seeds: set<Path>, visited: set<Path>, rest: seq<Path>, p: Path, added: seq<Path>, files: set<Path>)
    requires VisitInv(g, seeds, visited, rest + [p], files) && p in files
    requires forall q | q in files && q in added :: q in Next(g, p)
    requires forall q | q in Next(g, p) :: q in added
    ensures VisitInv(g, seeds, visited + {p}, rest + added, files)
  {
    assert p in rest + [p];
    forall q | q in rest + added && q in files ensures Reached(g, seeds, q) {
      if q in added {
        NextReached(g, seeds, p, q);
      } else {
        assert q in rest + [p];
      }
    }
    forall q | q in seeds ensures q in visited + {p} || q in rest + added {
      assert q in visited || q in rest + [p];
    }
    forall r, q | r in visited + {p} && q in Next(g, r) ensures q in visited + {p} || q in rest + added {
      if r in visited {
        assert q in visited || q in rest + [p];
      }
    }
  }

  lemma VisitEnd(g: Graph<Path>, seeds: set<Path>, visited: set<Path>, files: set<Path>, p: Path)
    requires VisitInv(g, seeds, visited, [], files)
    ensures p in visited <==> Reached(g, seeds, p)
  {
    if Reached(g, seeds, p) {
      var path: seq<Path> :| Walk(g, seeds, path) && path[|path| - 1] == p;
      Least(g, seeds, visited, path);
    }
  }

  method MentionedBy(t: Tree, source: Path, external: set<Path>) returns (found: set<Path>)
    ensures forall x :: x in found <==> x in external && Mentions(t, source, x)
  {
    found := {};
    var rest := external;
    while rest != {}
      invariant rest <= external
      invariant forall x :: x in found <==> x in external - rest && Mentions(t, source, x)
    {
      var x :| x in rest;
      if Mentions(t, source, x) {
        found := found + {x};
      }
      rest := rest - {x};
    }
  }

  lemma FollowFacts(t: Tree, sources: set<Path>)
    ensures Existing(t, sources) <= t.references.Keys && forall q :: Next(Follow(t), q) <= t.references.Keys
  {
  }

  lemma FollowAdds(t: Tree, p: Path, added: seq<Path>)
    requires p in t.references && Lists(added, t.references[p] * t.scripts)
    ensures forall q | q in t.references && q in added :: q in Next(Follow(t), p)
    ensures forall q | q in Next(Follow(t), p) :: q in added
  {
  }

  /** The changed files outside the packages that this package's sources lead to. */
  method Visit(t: Tree, sources: set<Path>, external: set<Path>) returns (matched: set<Path>)
    ensures forall x :: x in matched <==> x in external && Owns(t, sources, x)
  {
    ghost var g, seeds, files := Follow(t), Existing(t, sources), t.references.Keys;
    var pending := Listed(sources);
    var visited := {};
    matched := {};
    VisitStart(t, sources, pending);
    FollowFacts(t, sources);
    while pending != []
      invariant VisitInv(g, seeds, visited, pending, files)
      invariant forall x :: x in matched <==> x in external && exists s :: s in visited && Mentions(t, s, x)
      decreases |files - visited|, |pending|
    {
      var source := pending[|pending| - 1];
      var rest := pending[..|pending| - 1];
      SplitLast(pending);
      if source in visited || !Exists(t, source) {
        VisitSkip(g, seeds, visited, rest, source, files);
        pending := rest;
      } else {
        var added := Listed(t.references[source] * t.scripts);
        var found := MentionedBy(t, source, external);
        FollowAdds(t, source, added);
        VisitStep(g, seeds, visited, rest, source, added, files);
        Shrinks(files, visited, visited + {source});
        visited, pending, matched := visited + {source}, rest + added, matched + found;
      }
    }
    forall x ensures x in matched <==> x in external && Owns(t, sources, x) {
      forall s ensures s in visited <==> Reached(g, seeds, s) {
        VisitEnd(g, seeds, visited, files, s);
      }
    }
  }

  datatype Crate = Crate(folder: Path, sources: set<Path>)

  ghost predicate OwnsAny(t: Tree, c: Crate, external: set<Path>) {
    exists x :: x in external && Owns(t, c.sources, x)
  }

  ghost predicate Claimed(t: Tree, packages: seq<Crate>, x: Path) {
    exists c :: c in packages && Owns(t, c.sources, x)
  }

  /** A changed file of this kind that no package leads to: the scope widens to all packages. */
  ghost predicate Unclaimed(t: Tree, packages: seq<Crate>, external: set<Path>, products: set<Path>) {
    exists x :: x in external && x in products && !Claimed(t, packages, x)
  }

  ghost predicate FolderOfOwner(t: Tree, packages: seq<Crate>, external: set<Path>, f: Path) {
    exists c :: c in packages && c.folder == f && OwnsAny(t, c, external)
  }

  predicate FolderOfAny(packages: seq<Crate>, f: Path) {
    exists c :: c in packages && c.folder == f
  }

  lemma OneMore(t: Tree, packages: seq<Crate>, c: Crate, external: set<Path>, y: Path)
    ensures FolderOfOwner(t, packages + [c], external, y) <==> FolderOfOwner(t, packages, external, y) || (c.folder == y && OwnsAny(t, c, external))
    ensures Claimed(t, packages + [c], y) <==> Claimed(t, packages, y) || Owns(t, c.sources, y)
  {
    assert c in packages + [c];
    forall d | d in packages ensures d in packages + [c] {
    }
  }

  ghost predicate ScanInv(t: Tree, packages: seq<Crate>, external: set<Path>, owners: set<Path>, matched: set<Path>) {
    && (forall f :: f in owners <==> FolderOfOwner(t, packages, external, f))
    && (forall x :: x in matched <==> x in external && Claimed(t, packages, x))
  }

  lemma ScanKept(t: Tree, packages: seq<Crate>, c: Crate, external: set<Path>, owners: set<Path>, matched: set<Path>, found: set<Path>)
    requires ScanInv(t, packages, external, owners, matched)
    requires forall x :: x in found <==> x in external && Owns(t, c.sources, x)
    ensures ScanInv(t, packages + [c], external, if found == {} then owners else owners + {c.folder}, matched + found)
  {
    OwnsSome(t, c, external, found);
    var more := if found == {} then owners else owners + {c.folder};
    forall f ensures f in more <==> FolderOfOwner(t, packages + [c], external, f) {
      OneMore(t, packages, c, external, f);
    }
    forall x ensures x in matched + found <==> x in external && Claimed(t, packages + [c], x) {
      OneMore(t, packages, c, external, x);
    }
  }

  lemma OwnsSome(t: Tree, c: Crate, external: set<Path>, found: set<Path>)
    requires forall x :: x in found <==> x in external && Owns(t, c.sources, x)
    ensures found != {} <==> OwnsAny(t, c, external)
  {
    if found != {} {
      var x :| x in found;
      assert x in external && Owns(t, c.sources, x);
    }
  }

  /** `products` are the changed files that any package may depend on unseen. */
  method ExternalInputOwners(t: Tree, packages: seq<Crate>, external: set<Path>, products: set<Path>) returns (owners: set<Path>)
    ensures forall f :: f in owners <==>
              FolderOfOwner(t, packages, external, f) || (FolderOfAny(packages, f) && Unclaimed(t, packages, external, products))
  {
    hide Owns, OwnsAny;
    owners := {};
    var matched: set<Path> := {};
    var k := 0;
    while k < |packages|
      invariant k <= |packages|
      invariant ScanInv(t, packages[..k], external, owners, matched)
    {
      var found := Visit(t, packages[k].sources, external);
      ScanKept(t, packages[..k], packages[k], external, owners, matched, found);
      assert packages[..k + 1] == packages[..k] + [packages[k]];
      if found != {} {
        owners := owners + {packages[k].folder};
      }
      matched := matched + found;
      k := k + 1;
    }
    assert packages[..k] == packages;
    if exists x | x in external :: x !in matched && x in products {
      owners := owners + (set c | c in packages :: c.folder);
    }
  }
}
