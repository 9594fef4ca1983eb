/** Facts about finite sets and sequences, and the listing of a set. */
module Sets {

  lemma NonEmpty<T>(s: set<T>)
    requires s != {}
    ensures exists x :: x in s
  {
  }

  lemma Pick<T>(s: set<T>) returns (x: T)
    requires s != {}
    ensures x in s
  {
    x :| x in s;
  }

  lemma SplitLast<T>(s: seq<T>)
    requires s != []
    ensures s == s[..|s| - 1] + [s[|s| - 1]]
  {
  }

  lemma Shrinks<T>(all: set<T>, before: set<T>, after: set<T>)
    requires before <= after <= all && before != after
    ensures |all - after| < |all - before|
  {
    var x :| x in after && x !in before;
    assert x in all - before && x !in all - after;
    Smaller(all - after, all - before - {x});
  }

  lemma Smaller<T>(a: set<T>, b: set<T>)
    requires a <= b
    ensures |a| <= |b|
  {
    assert b == a + (b - a);
  }

  predicate Lists<T(==)>(list: seq<T>, s: set<T>) {
    (forall x | x in list :: x in s) && (forall x | x in s :: x in list)
  }

  method Listed<T(==)>(s: set<T>) returns (list: seq<T>)
    ensures Lists(list, s)
  {
    list := [];
    var rest := s;
    while rest != {}
      invariant rest <= s && Lists(list, s - rest)
    {
      var x :| x in rest;
      list, rest := list + [x], rest - {x};
    }
  }
}
