/**
 Which unit tests a push runs: the prefixes proved for the changed source files, reduced so that
 no test is run twice.
 */
module TestPlan {
  import opened Wrappers

  type Name = string

  /** Some prefix covers the name (`<=` on sequences is the prefix order). */
  predicate Covered(prefixes: set<Name>, name: Name) {
    exists p :: p in prefixes && p <= name
  }

  /** The prefixes that no other one is a prefix of. */
  function Reduce(prefixes: set<Name>): set<Name> {
    set p | p in prefixes && !(exists parent :: parent in prefixes && p != parent && parent <= p)
  }

  lemma Incomparable(prefixes: set<Name>, p: Name, q: Name)
    requires p in Reduce(prefixes) && q in Reduce(prefixes) && p != q
    ensures !(p <= q) && !(q <= p)
  {
  }

  /** Below every prefix lies one that is kept. */
  lemma {:induction false} Kept(prefixes: set<Name>, p: Name) returns (q: Name)
    requires p in prefixes
    ensures q in Reduce(prefixes) && q <= p
    decreases |p|
  {
    q := p;
    if parent :| parent in prefixes && p != parent && parent <= p {
      assert |parent| < |p|;
      q := Kept(prefixes, parent);
    }
  }

  lemma SameCoverage(prefixes: set<Name>, name: Name)
    ensures Covered(Reduce(prefixes), name) <==> Covered(prefixes, name)
  {
    if p :| p in prefixes && p <= name {
      var q := Kept(prefixes, p);
      assert q <= name;
    }
  }

  /** Two prefixes of one name are comparable: so one kept prefix covers it. */
  lemma OneCovers(prefixes: set<Name>, name: Name, p: Name, q: Name)
    requires p in Reduce(prefixes) && q in Reduce(prefixes) && p <= name && q <= name
    ensures p == q
  {
    assert p == name[..|p|] && q == name[..|q|];
    assert p <= q || q <= p;
    if p != q {
      Incomparable(prefixes, p, q);
    }
  }

  /** The names of one invocation of the test binary, to be matched exactly; with none it runs every test. */
  type Filters = seq<Name>

  predicate Runs(tests: seq<Name>, filters: Filters, test: Name) {
    test in tests && (filters == [] || test in filters)
  }

  function Matching(tests: seq<Name>, prefix: Name): (r: Filters)
    ensures forall t :: t in r <==> t in tests && prefix <= t
  {
    if tests == [] then [] else
      (if prefix <= tests[0] then [tests[0]] else []) + Matching(tests[1..], prefix)
  }

  /** A prefix without tests of its own widens the plan to all tests of the target. */
  function Effective(tests: seq<Name>, planned: set<Name>): set<Name> {
    if exists p :: p in planned && Matching(tests, p) == [] then {""} else planned
  }

  /** A planned prefix has the test run; one that fits no test of the target has them all run. */
  ghost predicate Due(tests: seq<Name>, planned: set<Name>, test: Name) {
    exists p :: p in planned && (p <= test || forall t | t in tests :: !(p <= t))
  }

  lemma DueIsCovered(tests: seq<Name>, planned: set<Name>, test: Name)
    ensures Covered(Effective(tests, planned), test) <==> Due(tests, planned, test)
  {
    forall p | p in planned
      ensures Matching(tests, p) == [] <==> forall t | t in tests :: !(p <= t)
    {
      var found := Matching(tests, p);
      assert found != [] ==> found[0] in found;
    }
    assert "" <= test;
    if exists p :: p in planned && Matching(tests, p) == [] {
      assert "" in Effective(tests, planned);
    }
  }

  lemma EffectiveMatches(tests: seq<Name>, planned: set<Name>, p: Name)
    requires tests != [] && p in Effective(tests, planned)
    ensures Matching(tests, p) != []
  {
    assert "" <= tests[0] && tests[0] in tests;
    assert tests[0] in Matching(tests, "");
  }

  function FiltersFor(tests: seq<Name>, p: Name): Filters {
    if p == "" then [] else Matching(tests, p)
  }

  lemma RunsMatching(tests: seq<Name>, planned: set<Name>, p: Name, t: Name)
    requires tests != [] && p in Reduce(Effective(tests, planned))
    ensures Runs(tests, FiltersFor(tests, p), t) <==> t in tests && p <= t
  {
    EffectiveMatches(tests, planned, p);
  }

  predicate RunsSome(tests: seq<Name>, filters: Filters) {
    exists t | t in tests :: Runs(tests, filters, t)
  }

  lemma FilterRunsSome(tests: seq<Name>, planned: set<Name>, p: Name)
    requires tests != [] && p in Effective(tests, planned)
    ensures RunsSome(tests, FiltersFor(tests, p))
  {
    EffectiveMatches(tests, planned, p);
    var t := Matching(tests, p)[0];
    assert t in Matching(tests, p);
    assert Runs(tests, FiltersFor(tests, p), t);
  }

  /** The invocations for one test target that lists these tests. */
  method PlanRuns(tests: seq<Name>, planned: set<Name>) returns (prefixes: seq<Name>, runs: seq<Filters>)
    requires tests != []
    ensures |runs| == |prefixes|
    ensures forall k, t | 0 <= k < |runs| :: Runs(tests, runs[k], t) <==> t in tests && prefixes[k] <= t
    ensures forall t | t in tests :: Due(tests, planned, t) <==> exists k :: 0 <= k < |runs| && Runs(tests, runs[k], t)
    ensures forall j, k, t | 0 <= j < |runs| && 0 <= k < |runs| && Runs(tests, runs[j], t) && Runs(tests, runs[k], t) :: j == k
    ensures forall k | 0 <= k < |runs| :: RunsSome(tests, runs[k])
  {
    var effective := Effective(tests, planned);
    var rest := Reduce(effective);
    prefixes, runs := [], [];
    while rest != {}
      invariant rest <= Reduce(effective) && |runs| == |prefixes|
      invariant forall p | p in prefixes :: p in Reduce(effective) - rest
      invariant forall p | p in Reduce(effective) - rest :: p in prefixes
      invariant forall j, k | 0 <= j < k < |prefixes| :: prefixes[j] != prefixes[k]
      invariant forall k | 0 <= k < |runs| :: runs[k] == FiltersFor(tests, prefixes[k])
    {
      var p :| p in rest;
      assert p !in prefixes;
      prefixes, runs, rest := prefixes + [p], runs + [FiltersFor(tests, p)], rest - {p};
    }
    Distinctly(tests, planned, prefixes, runs);
    forall t | t in tests
      ensures Due(tests, planned, t) <==> exists k :: 0 <= k < |runs| && Runs(tests, runs[k], t)
    {
      DueIsCovered(tests, planned, t);
    }
    forall k | 0 <= k < |runs|
      ensures RunsSome(tests, runs[k])
    {
      assert prefixes[k] in prefixes;
      FilterRunsSome(tests, planned, prefixes[k]);
    }
  }

  lemma Distinctly(tests: seq<Name>, planned: set<Name>, prefixes: seq<Name>, runs: seq<Filters>)
    requires tests != [] && |runs| == |prefixes|
    requires forall p | p in prefixes :: p in Reduce(Effective(tests, planned))
    requires forall p | p in Reduce(Effective(tests, planned)) :: p in prefixes
    requires forall j, k | 0 <= j < k < |prefixes| :: prefixes[j] != prefixes[k]
    requires forall k | 0 <= k < |runs| :: runs[k] == FiltersFor(tests, prefixes[k])
    ensures forall k, t | 0 <= k < |runs| :: Runs(tests, runs[k], t) <==> t in tests && prefixes[k] <= t
    ensures forall t | t in tests :: Covered(Effective(tests, planned), t) <==> exists k :: 0 <= k < |runs| && Runs(tests, runs[k], t)
    ensures forall j, k, t | 0 <= j < |runs| && 0 <= k < |runs| && Runs(tests, runs[j], t) && Runs(tests, runs[k], t) :: j == k
  {
    var effective := Effective(tests, planned);
    forall k, t | 0 <= k < |runs| ensures Runs(tests, runs[k], t) <==> t in tests && prefixes[k] <= t {
      assert prefixes[k] in prefixes;
      RunsMatching(tests, planned, prefixes[k], t);
    }
    forall t | t in tests ensures Covered(effective, t) <==> exists k :: 0 <= k < |runs| && Runs(tests, runs[k], t) {
      SameCoverage(effective, t);
      if Covered(effective, t) {
        var p :| p in Reduce(effective) && p <= t;
        var k :| 0 <= k < |prefixes| && prefixes[k] == p;
        assert Runs(tests, runs[k], t);
      }
      if k :| 0 <= k < |runs| && Runs(tests, runs[k], t) {
        assert prefixes[k] in prefixes;
        assert prefixes[k] in Reduce(effective) && prefixes[k] <= t;
      }
    }
    forall j, k, t | 0 <= j < |runs| && 0 <= k < |runs| && Runs(tests, runs[j], t) && Runs(tests, runs[k], t) ensures j == k {
      assert prefixes[j] in prefixes && prefixes[k] in prefixes;
      OneCovers(effective, t, prefixes[j], prefixes[k]);
    }
  }

  /** A changed file of the package: its module prefix in each test target, where the module path is proved. */
  datatype Changed = Changed(rust: bool, present: bool, prefixes: seq<Option<Name>>)

  predicate Proved(c: Changed) {
    exists i :: 0 <= i < |c.prefixes| && c.prefixes[i].Some?
  }

  /** Some change says nothing about single modules. */
  predicate Widens(changed: seq<Changed>) {
    changed == [] || exists c :: c in changed && !(c.rust && c.present && Proved(c))
  }

  type Plan = map<nat, set<Name>>

  predicate Plans(plan: Plan, i: nat, p: Name) {
    i in plan && p in plan[i]
  }

  predicate Wants(changed: seq<Changed>, i: nat, p: Name) {
    exists c :: c in changed && i < |c.prefixes| && c.prefixes[i] == Some(p)
  }

  /** All tests of all targets. */
  function Full(targets: nat): (plan: Plan)
    ensures forall i: nat :: i in plan <==> i < targets
    ensures forall i | i in plan :: plan[i] == {""}
  {
    if targets == 0 then map[] else Full(targets - 1)[targets - 1 := {""}]
  }

  /** Adds one file's prefixes to the plan. */
  method AddPrefixes(plan: Plan, c: Changed) returns (more: Plan)
    ensures forall i: nat, p :: Plans(more, i, p) <==> Plans(plan, i, p) || Wants([c], i, p)
  {
    more := plan;
    var k := 0;
    while k < |c.prefixes|
      invariant k <= |c.prefixes|
      invariant forall i: nat, p :: Plans(more, i, p) <==> Plans(plan, i, p) || (i < k && c.prefixes[i] == Some(p))
    {
      if c.prefixes[k].Some? {
        more := more[k := (if k in more then more[k] else {}) + {c.prefixes[k].value}];
      }
      k := k + 1;
    }
    assert c in [c];
  }

  /** The prefixes to test in each target: all tests unless every changed file is a proved module. */
  method UnitPlan(targets: nat, changed: seq<Changed>) returns (plan: Plan, mustRun: bool)
    requires forall c | c in changed :: |c.prefixes| == targets
    ensures mustRun <==> exists c :: c in changed && c.rust
    ensures Widens(changed) ==> plan == Full(targets)
    ensures !Widens(changed) ==> forall i: nat, p :: Plans(plan, i, p) <==> Wants(changed, i, p)
  {
    mustRun := exists c | c in changed :: c.rust;
    if changed == [] || exists c | c in changed :: !c.rust || !c.present {
      return Full(targets), mustRun;
    }
    plan := map[];
    var k := 0;
    while k < |changed|
      invariant k <= |changed|
      invariant forall c | c in changed[..k] :: Proved(c)
      invariant forall i: nat, p :: Plans(plan, i, p) <==> Wants(changed[..k], i, p)
    {
      if !Proved(changed[k]) {
        return Full(targets), mustRun;
      }
      plan := AddPrefixes(plan, changed[k]);
      assert changed[..k + 1] == changed[..k] + [changed[k]];
      k := k + 1;
    }
    assert changed[..k] == changed;
  }

  /** Whatever file changed, its module's tests in a target are run by the plan of that target. */
  lemma ChangedModuleCovered(targets: nat, changed: seq<Changed>, plan: Plan, c: Changed, i: nat, test: Name)
    requires c in changed && |c.prefixes| == targets && i < targets
    requires Widens(changed) ==> plan == Full(targets)
    requires !Widens(changed) ==> forall i: nat, p :: Plans(plan, i, p) <==> Wants(changed, i, p)
    requires c.prefixes[i].Some? && c.prefixes[i].value <= test
    ensures i in plan && Covered(plan[i], test)
  {
    if Widens(changed) {
      assert Plans(plan, i, "") && "" <= test;
    } else {
      assert Wants(changed, i, c.prefixes[i].value);
      assert Plans(plan, i, c.prefixes[i].value);
    }
  }

  /** The plan is narrow only when every changed file is a Rust source that is there, and then each of them is planned in
      some target. */
  lemma NarrowPlansEach(targets: nat, changed: seq<Changed>, plan: Plan, c: Changed)
    requires !Widens(changed) && forall i: nat, p :: Plans(plan, i, p) <==> Wants(changed, i, p)
    requires c in changed && |c.prefixes| == targets
    ensures c.rust && c.present
    ensures exists i: nat :: i < targets && c.prefixes[i].Some? && Plans(plan, i, c.prefixes[i].value)
  {
    var i: nat :| i < |c.prefixes| && c.prefixes[i].Some?;
    assert Wants(changed, i, c.prefixes[i].value);
    assert Plans(plan, i, c.prefixes[i].value);
  }

  /** Nothing changed, a file that is gone or no Rust source, or one proved in no target widens the plan. */
  lemma WidensExactly(changed: seq<Changed>)
    ensures Widens(changed) <==>
              changed == [] || exists c | c in changed ::
                !c.rust || !c.present || forall i | 0 <= i < |c.prefixes| :: c.prefixes[i] == None
  {
  }
}
