/** Which scripts of the Browser host role are staged, and under which names. */
module ScriptSources {
  import opened Wrappers
  import Alphabets

  type Name = string

  /** The metadata for the platform; a component without a script source has `source` None. */
  datatype Info = Info(source: Option<string>, install: string, release: Name)

  datatype Helper = Helper(name: Name, source: string, install: string, release: Name)

  predicate Alphanumeric(c: char) {
    'A' <= c <= 'Z' || 'a' <= c <= 'z' || '0' <= c <= '9'
  }

  predicate IsFilename(s: string) {
    s != "" && Alphanumeric(s[0]) && forall i | 0 <= i < |s| :: Alphanumeric(s[i]) || s[i] in {'.', '_', '-'}
  }

  /** A file directly in one of the directories. */
  predicate HelperPath(s: string, parents: seq<string>) {
    exists k | 0 <= k < |parents| :: parents[k] + "/" <= s && IsFilename(s[|parents[k]| + 1..])
  }

  predicate Unique<T(==)>(s: seq<T>) {
    forall i, j | 0 <= i < j < |s| :: s[i] != s[j]
  }

  /** `None` for a component that does not exist on the platform. */
  type Components = map<Name, Option<Info>>

  /** A selected component has a script of its own or a native file handed over, and not both. */
  predicate Fits(external: Components, native: seq<Name>, name: Name) {
    name in external &&
    match external[name]
    case None => name !in native
    case Some(info) =>
      match info.source
      case None => name in native
      case Some(source) =>
        && name !in native && HelperPath(source, ["scripts"]) && HelperPath(info.install, ["bin", "scripts"])
        && IsFilename(info.release)
  }

  predicate IsScript(external: Components, name: Name) {
    name in external && external[name].Some? && external[name].value.source.Some?
  }

  function HelperOf(external: Components, name: Name): Helper
    requires IsScript(external, name)
  {
    var info := external[name].value;
    Helper(name, info.source.value, info.install, info.release)
  }

  function Scripts(external: Components, names: seq<Name>): (helpers: seq<Helper>)
    ensures forall h | h in helpers :: h.name in names && IsScript(external, h.name) && h == HelperOf(external, h.name)
    ensures forall n | n in names && IsScript(external, n) :: HelperOf(external, n) in helpers
  {
    if names == [] then [] else
      var last := names[|names| - 1];
      Scripts(external, names[..|names| - 1]) + if IsScript(external, last) then [HelperOf(external, last)] else []
  }

  function Releases(helpers: seq<Helper>): seq<Name> {
    seq(|helpers|, i requires 0 <= i < |helpers| => helpers[i].release)
  }

  function Installs(helpers: seq<Helper>): seq<string> {
    seq(|helpers|, i requires 0 <= i < |helpers| => helpers[i].install)
  }

  predicate Selection(names: seq<Name>, native: seq<Name>) {
    && names != [] && (forall i | 0 <= i < |names| :: IsFilename(names[i])) && Unique(names)
    && (forall i | 0 <= i < |native| :: IsFilename(native[i]) && native[i] in names) && Unique(native)
  }

  lemma NotUnique<T>(s: seq<T>, x: T)
    ensures Unique(s + [x]) <==> Unique(s) && x !in s
  {
    forall i, j | 0 <= i < j < |s| ensures (s + [x])[i] == s[i] && (s + [x])[j] == s[j] {
    }
    if x in s {
      var i :| 0 <= i < |s| && s[i] == x;
      assert (s + [x])[i] == (s + [x])[|s|];
    }
  }

  /** What one more helper does to the distinctness of the names. */
  lemma OneMore(helpers: seq<Helper>, h: Helper)
    ensures Unique(Releases(helpers + [h])) <==> Unique(Releases(helpers)) && h.release !in Releases(helpers)
    ensures Unique(Installs(helpers + [h])) <==> Unique(Installs(helpers)) && h.install !in Installs(helpers)
  {
    assert Releases(helpers + [h]) == Releases(helpers) + [h.release];
    assert Installs(helpers + [h]) == Installs(helpers) + [h.install];
    NotUnique(Releases(helpers), h.release);
    NotUnique(Installs(helpers), h.install);
  }

  lemma {:induction false} ScriptsPrefix(external: Components, names: seq<Name>, k: nat)
    requires k <= |names|
    ensures Scripts(external, names[..k]) <= Scripts(external, names)
    decreases |names|
  {
    if k < |names| {
      var front := names[..|names| - 1];
      ScriptsPrefix(external, front, k);
      assert front[..k] == names[..k];
    } else {
      assert names[..k] == names;
    }
  }

  lemma UniquePrefix(part: seq<Helper>, all: seq<Helper>)
    requires part <= all
    ensures Unique(Releases(all)) ==> Unique(Releases(part))
    ensures Unique(Installs(all)) ==> Unique(Installs(part))
  {
    assert Releases(part) == Releases(all)[..|part|] && Installs(part) == Installs(all)[..|part|];
  }

  /** The names so far are all right. */
  predicate Good(external: Components, names: seq<Name>, native: seq<Name>) {
    && (forall i | 0 <= i < |names| :: Fits(external, native, names[i]))
    && Unique(Releases(Scripts(external, names))) && Unique(Installs(Scripts(external, names)))
  }

  lemma GoodStep(external: Components, names: seq<Name>, native: seq<Name>, name: Name)
    ensures Good(external, names + [name], native) <==>
              && Good(external, names, native) && Fits(external, native, name)
              && (IsScript(external, name) ==> HelperOf(external, name).release !in Releases(Scripts(external, names)))
              && (IsScript(external, name) ==> HelperOf(external, name).install !in Installs(Scripts(external, names)))
    ensures Scripts(external, names + [name]) ==
              if IsScript(external, name) then Scripts(external, names) + [HelperOf(external, name)] else Scripts(external, names)
  {
    var more := names + [name];
    assert more[..|names|] == names && more[|names|] == name;
    assert Scripts(external, names) + [] == Scripts(external, names);
    if IsScript(external, name) {
      OneMore(Scripts(external, names), HelperOf(external, name));
    }
    assert forall i | 0 <= i < |names| :: more[i] == names[i];
  }

  lemma GoodPrefix(external: Components, names: seq<Name>, native: seq<Name>, k: nat)
    requires k <= |names| && Good(external, names, native)
    ensures Good(external, names[..k], native)
  {
    ScriptsPrefix(external, names, k);
    UniquePrefix(Scripts(external, names[..k]), Scripts(external, names));
  }

  const LETTERS := Alphabets.Span('A', 'Z') + Alphabets.Span('a', 'z') + Alphabets.Span('0', '9')

  /** A letter or figure, and then letters, figures, dots, underscores and hyphens. */
  predicate Filename(s: string) {
    s != "" && s[0] in LETTERS && forall c | c in s :: c in LETTERS || c == '.' || c == '_' || c == '-'
  }

  lemma FilenameIs(s: string)
    ensures IsFilename(s) <==> Filename(s)
  {
    forall c: char
      ensures Alphanumeric(c) <==> c in LETTERS
    {
      Alphabets.InSpan('A', 'Z', c);
      Alphabets.InSpan('a', 'z', c);
      Alphabets.InSpan('0', '9', c);
    }
    assert forall i | 0 <= i < |s| :: s[i] in s;
  }

  /** The path of a script in the repository, and the place where it is installed. */
  ghost predicate Placed(source: string, install: string) {
    && (exists f :: Filename(f) && source == "scripts/" + f)
    && (exists f :: Filename(f) && (install == "bin/" + f || install == "scripts/" + f))
  }

  lemma PlacedIs(source: string, install: string)
    ensures HelperPath(source, ["scripts"]) && HelperPath(install, ["bin", "scripts"]) <==> Placed(source, install)
  {
    hide IsFilename, Filename;
    PathIn(source, ["scripts"], 0);
    PathIn(install, ["bin", "scripts"], 0);
    PathIn(install, ["bin", "scripts"], 1);
    assert forall f :: "scripts/" + f == ("scripts" + "/") + f && "bin/" + f == ("bin" + "/") + f;
  }

  predicate InParent(s: string, parents: seq<string>, k: nat)
    requires k < |parents|
  {
    parents[k] + "/" <= s && IsFilename(s[|parents[k]| + 1..])
  }

  lemma PathIn(s: string, parents: seq<string>, k: nat)
    requires k < |parents|
    ensures InParent(s, parents, k) <==> exists f :: Filename(f) && s == parents[k] + "/" + f
    ensures HelperPath(s, parents) <==> exists i: nat | i < |parents| :: InParent(s, parents, i)
  {
    hide IsFilename, Filename;
    var head := parents[k] + "/";
    if head <= s {
      FilenameIs(s[|head|..]);
      assert s == head + s[|head|..];
    }
    forall f | s == head + f
      ensures head <= s && s[|head|..] == f
    {
    }
    if HelperPath(s, parents) {
      var i :| 0 <= i < |parents| && parents[i] + "/" <= s && IsFilename(s[|parents[i]| + 1..]);
      assert InParent(s, parents, i);
    }
  }

  /** What a selected component needs: a native file and no script, or a script in its places and no native file. */
  ghost predicate Provided(external: Components, native: seq<Name>, name: Name) {
    && name in external
    && (name in native <==> external[name].Some? && external[name].value.source.None?)
    && (external[name].Some? && external[name].value.source.Some? ==>
          Placed(external[name].value.source.value, external[name].value.install) && Filename(external[name].value.release))
  }

  lemma FitsExactly(external: Components, native: seq<Name>, name: Name)
    ensures Fits(external, native, name) <==> Provided(external, native, name)
  {
    if name in external && external[name].Some? && external[name].value.source.Some? {
      PlacedIs(external[name].value.source.value, external[name].value.install);
      FilenameIs(external[name].value.release);
    }
  }

  /** The selection names components by different filenames, at least one, and the native ones are among them. */
  lemma SelectionExactly(names: seq<Name>, native: seq<Name>)
    ensures Selection(names, native) <==>
              && names != [] && (forall n | n in names :: Filename(n)) && (forall n | n in native :: n in names)
              && (forall i, j | 0 <= i < j < |names| :: names[i] != names[j])
              && (forall i, j | 0 <= i < j < |native| :: native[i] != native[j])
  {
    forall n: Name ensures IsFilename(n) <==> Filename(n) {
      FilenameIs(n);
    }
    assert forall i | 0 <= i < |names| :: names[i] in names;
    assert forall i | 0 <= i < |native| :: native[i] in native;
  }

  ghost predicate Names(outputs: set<Name>, installs: set<string>, helpers: seq<Helper>) {
    (forall x :: x in outputs <==> x in Releases(helpers)) && (forall x :: x in installs <==> x in Installs(helpers))
  }

  lemma NamesMore(outputs: set<Name>, installs: set<string>, helpers: seq<Helper>, h: Helper)
    requires Names(outputs, installs, helpers)
    ensures Names(outputs + {h.release}, installs + {h.install}, helpers + [h])
  {
    assert Releases(helpers + [h]) == Releases(helpers) + [h.release];
    assert Installs(helpers + [h]) == Installs(helpers) + [h.install];
  }

  lemma GoodStart(external: Components, native: seq<Name>)
    ensures Good(external, [], native) && Scripts(external, []) == [] && Names({}, {}, [])
  {
  }

  /** The loop over the selected names. */
  method Collect(external: Components, names: seq<Name>, native: seq<Name>) returns (helpers: Option<seq<Helper>>)
    ensures helpers.Some? <==> Good(external, names, native)
    ensures helpers.Some? ==> helpers.value == Scripts(external, names)
  {
    hide Good, Fits, Scripts, Releases, Installs, HelperOf;
    GoodStart(external, native);
    assert names[..0] == [];
    var result: seq<Helper> := [];
    var outputs: set<Name>, installs: set<string> := {}, {};
    var k := 0;
    while k < |names|
      invariant k <= |names| && Good(external, names[..k], native)
      invariant result == Scripts(external, names[..k]) && Names(outputs, installs, result)
    {
      var name := names[k];
      GoodStep(external, names[..k], native, name);
      assert names[..k + 1] == names[..k] + [name];
      if Good(external, names, native) {
        GoodPrefix(external, names, native, k + 1);
      }
      if !Fits(external, native, name) {
        return None;
      }
      if IsScript(external, name) {
        var h := HelperOf(external, name);
        if h.release in outputs || h.install in installs {
          return None;
        }
        NamesMore(outputs, installs, result, h);
        outputs, installs, result := outputs + {h.release}, installs + {h.install}, result + [h];
      }
      k := k + 1;
    }
    assert names[..k] == names;
    helpers := Some(result);
  }

  predicate Supported(external: Components, name: Name) {
    name in external && external[name].Some?
  }

  /** The staged scripts, under different release names and different install paths. The last test, for a platform
      that is supported and has no helper, rejects nothing that came so far. */
  method Sources(external: Components, names: seq<Name>, native: seq<Name>) returns (helpers: Option<seq<Helper>>)
    ensures helpers.Some? <==> Selection(names, native) && Good(external, names, native)
    ensures helpers.Some? ==> helpers.value == Scripts(external, names)
    ensures helpers.Some? ==> Unique(Releases(helpers.value)) && Unique(Installs(helpers.value))
  {
    if !Selection(names, native) {
      return None;
    }
    helpers := Collect(external, names, native);
    if helpers.Some? && native == [] {
      NeverWithoutHelpers(external, names, helpers.value);
      if helpers.value == [] && exists i | 0 <= i < |names| :: Supported(external, names[i]) {
        return None;
      }
    }
  }

  lemma NeverWithoutHelpers(external: Components, names: seq<Name>, helpers: seq<Helper>)
    requires Good(external, names, []) && helpers == Scripts(external, names)
    ensures helpers == [] ==> forall i | 0 <= i < |names| :: !Supported(external, names[i])
  {
    forall i | 0 <= i < |names| && helpers == [] ensures !Supported(external, names[i]) {
      assert Fits(external, [], names[i]) && !IsScript(external, names[i]);
    }
  }
}
