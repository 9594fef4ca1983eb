/** The closure of a set under a relation, computed with a worklist. */
module Worklist {
  import opened Sets

  type Graph<T(==)> = map<T, set<T>>

  function Next<T>(g: Graph<T>, x: T): set<T> {
    if x in g then g[x] else {}
  }

  /** A walk along the edges that starts at a seed. */
  predicate Walk<T>(g: Graph<T>, seeds: set<T>, path: seq<T>) {
    path != [] && path[0] in seeds && forall i | 0 < i < |path| :: path[i] in Next(g, path[i - 1])
  }

  ghost predicate Reached<T(!new)>(g: Graph<T>, seeds: set<T>, x: T) {
    exists path: seq<T> :: Walk(g, seeds, path) && path[|path| - 1] == x
  }

  ghost predicate Closed<T(!new)>(g: Graph<T>, s: set<T>) {
    forall x | x in s :: Next(g, x) <= s
  }

  lemma SeedReached<T(!new)>(g: Graph<T>, seeds: set<T>, x: T)
    requires x in seeds
    ensures Reached(g, seeds, x)
  {
    assert Walk(g, seeds, [x]);
  }

  lemma NextReached<T(!new)>(g: Graph<T>, seeds: set<T>, x: T, y: T)
    requires Reached(g, seeds, x) && y in Next(g, x)
    ensures Reached(g, seeds, y)
  {
    var path: seq<T> :| Walk(g, seeds, path) && path[|path| - 1] == x;
    assert Walk(g, seeds, path + [y]);
  }

  lemma Unreached<T(!new)>(g: Graph<T>, seeds: set<T>, x: T)
    requires x !in seeds && forall y :: x !in Next(g, y)
    ensures !Reached(g, seeds, x)
  {
    forall path | Walk(g, seeds, path) ensures path[|path| - 1] != x {
      assert |path| > 1 ==> path[|path| - 1] in Next(g, path[|path| - 2]);
    }
  }

  /** A closed set that has the seeds has all that they reach: the closure is the least of these sets. */
  lemma {:induction false} Least<T(!new)>(g: Graph<T>, seeds: set<T>, s: set<T>, path: seq<T>)
    requires seeds <= s && Closed(g, s) && Walk(g, seeds, path)
    ensures path[|path| - 1] in s
  {
    if |path| > 1 {
      var front := path[..|path| - 1];
      assert forall i | 0 < i < |front| :: front[i] == path[i] && path[i] in Next(g, path[i - 1]);
      Least(g, seeds, s, front);
    }
  }

  ghost function Targets<T(!new)>(g: Graph<T>): set<T> {
    set k, x | k in g && x in g[k] :: x
  }

  ghost predicate AllReached<T(!new)>(g: Graph<T>, seeds: set<T>, s: set<T>) {
    forall x | x in s :: Reached(g, seeds, x)
  }

  /** Every member's successors are members too, but for those of the members still pending. */
  predicate ClosedBut<T(==)>(g: Graph<T>, s: set<T>, pending: seq<T>) {
    forall x | x in s :: x in pending || Next(g, x) <= s
  }

  /** The body of the worklist: what `x` adds to the closure becomes pending. */
  method Extend<T(==)>(g: Graph<T>, x: T, closure: set<T>) returns (larger: set<T>, added: seq<T>)
    ensures larger == closure + Next(g, x)
    ensures Lists(added, Next(g, x) - closure)
  {
    larger, added := closure, [];
    var found := Next(g, x) - closure;
    while found != {}
      invariant found <= Next(g, x) - closure && larger == closure + (Next(g, x) - found)
      invariant Lists(added, Next(g, x) - closure - found)
    {
      var y :| y in found;
      larger, added, found := larger + {y}, added + [y], found - {y};
    }
  }

  lemma ExtendKeeps<T(!new)>(g: Graph<T>, seeds: set<T>, x: T, closure: set<T>, pending: seq<T>, larger: set<T>, added: seq<T>)
    requires x in closure && AllReached(g, seeds, closure) && ClosedBut(g, closure, pending + [x])
    requires larger == closure + Next(g, x) && Lists(added, Next(g, x) - closure)
    ensures AllReached(g, seeds, larger) && ClosedBut(g, larger, pending + added)
    ensures larger == closure ==> added == []
  {
    forall y | y in larger ensures Reached(g, seeds, y) {
      if y !in closure {
        NextReached(g, seeds, x, y);
      }
    }
    assert |added| > 0 ==> added[0] in Next(g, x) - closure;
  }

  lemma NextInTargets<T(!new)>(g: Graph<T>, x: T)
    ensures Next(g, x) <= Targets(g)
  {
  }

  ghost predicate Inv<T(!new)>(g: Graph<T>, seeds: set<T>, related: set<T>, pending: seq<T>) {
    && seeds <= related <= seeds + Targets(g)
    && AllReached(g, seeds, related) && ClosedBut(g, related, pending)
    && Within(pending, related)
  }

  predicate Within<T(==)>(list: seq<T>, s: set<T>) {
    forall x | x in list :: x in s
  }

  lemma WithinKept<T>(rest: seq<T>, x: T, added: seq<T>, s: set<T>, more: set<T>)
    requires Within(rest + [x], s) && Lists(added, more)
    ensures x in s && Within(rest + added, s + more)
  {
    assert x in rest + [x];
    forall y | y in rest + added ensures y in s + more {
      assert y in rest ==> y in rest + [x];
    }
  }

  lemma InvKept<T(!new)>(g: Graph<T>, seeds: set<T>, x: T, related: set<T>, rest: seq<T>, larger: set<T>, added: seq<T>)
    requires Inv(g, seeds, related, rest + [x])
    requires larger == related + Next(g, x) && Lists(added, Next(g, x) - related)
    ensures Inv(g, seeds, larger, rest + added)
    ensures larger == related ==> added == []
    ensures larger != related ==> |seeds + Targets(g) - larger| < |seeds + Targets(g) - related|
  {
    WithinKept(rest, x, added, related, Next(g, x) - related);
    assert related + (Next(g, x) - related) == larger;
    ExtendKeeps(g, seeds, x, related, rest, larger, added);
    NextInTargets(g, x);
    if larger != related {
      Shrinks(seeds + Targets(g), related, larger);
    }
  }

  lemma Start<T(!new)>(g: Graph<T>, seeds: set<T>, pending: seq<T>)
    requires Lists(pending, seeds)
    ensures Inv(g, seeds, seeds, pending)
  {
    forall x | x in seeds ensures Reached(g, seeds, x) {
      SeedReached(g, seeds, x);
    }
  }

  lemma Finish<T(!new)>(g: Graph<T>, seeds: set<T>, related: set<T>, x: T)
    requires Inv(g, seeds, related, [])
    ensures x in related <==> Reached(g, seeds, x)
  {
    if Reached(g, seeds, x) {
      var path: seq<T> :| Walk(g, seeds, path) && path[|path| - 1] == x;
      Least(g, seeds, related, path);
    }
  }

  /** `related` is exactly what the seeds reach, on cyclic graphs too. */
  method Closure<T(==, !new)>(g: Graph<T>, seeds: set<T>) returns (related: set<T>)
    ensures forall x :: x in related <==> Reached(g, seeds, x)
  {
    related := seeds;
    var pending := Listed(seeds);
    Start(g, seeds, pending);
    while pending != []
      invariant Inv(g, seeds, related, pending)
      decreases |seeds + Targets(g) - related|, |pending|
    {
      var x := pending[|pending| - 1];
      var rest := pending[..|pending| - 1];
      SplitLast(pending);
      var larger, added := Extend(g, x, related);
      InvKept(g, seeds, x, related, rest, larger, added);
      related, pending := larger, rest + added;
    }
    forall x ensures x in related <==> Reached(g, seeds, x) {
      Finish(g, seeds, related, x);
    }
  }
}
