/**
 A bounded list of the most recently named items: naming an item moves it to the
 end, and the oldest item falls out when there are more than `limit`.
 */
module Recency {

  predicate NoRepeats<T(==)>(items: seq<T>) {
    forall i, j | 0 <= i < j < |items| :: items[i] != items[j]
  }

  function Without<T(==)>(items: seq<T>, x: T): seq<T> {
    if items == [] then []
    else (if items[0] == x then [] else [items[0]]) + Without(items[1..], x)
  }

  /** The program's step: drop the earlier entry, append, and delete the first entry past the limit. */
  function Remember<T(==)>(items: seq<T>, x: T, limit: nat): seq<T> {
    var longer := Without(items, x) + [x];
    if |longer| > limit then longer[1..] else longer
  }

  /** The distinct items of a whole history, ordered by when each was named last. */
  function Distinct<T(==)>(history: seq<T>): seq<T> {
    if history == [] then []
    else
      var front, last := history[..|history| - 1], history[|history| - 1];
      Without(Distinct(front), last) + [last]
  }

  function Suffix<T>(items: seq<T>, limit: nat): seq<T> {
    if |items| > limit then items[|items| - limit..] else items
  }

  /** The `limit` most recently named distinct items, oldest first. */
  function Recent<T(==)>(history: seq<T>, limit: nat): seq<T> {
    Suffix(Distinct(history), limit)
  }

  lemma {:induction false} WithoutFacts<T>(items: seq<T>, x: T)
    ensures forall y :: y in Without(items, x) <==> y in items && y != x
    ensures x !in items ==> Without(items, x) == items
  {
    if items != [] {
      WithoutFacts(items[1..], x);
      assert items == [items[0]] + items[1..];
    }
  }

  lemma {:induction false} WithoutOnce<T>(items: seq<T>, x: T)
    requires NoRepeats(items)
    ensures NoRepeats(Without(items, x))
    ensures |Without(items, x)| == if x in items then |items| - 1 else |items|
  {
    if items != [] {
      var rest := items[1..];
      assert forall i | 0 <= i < |rest| :: rest[i] == items[i + 1];
      assert items == [items[0]] + rest && items[0] !in rest;
      WithoutOnce(rest, x);
      WithoutFacts(rest, x);
    }
  }

  lemma {:induction false} WithoutConcat<T>(a: seq<T>, b: seq<T>, x: T)
    ensures Without(a + b, x) == Without(a, x) + Without(b, x)
  {
    if a == [] {
      assert a + b == b;
    } else {
      var head := if a[0] == x then [] else [a[0]];
      assert (a + b)[0] == a[0] && (a + b)[1..] == a[1..] + b;
      WithoutConcat(a[1..], b, x);
      assert head + (Without(a[1..], x) + Without(b, x)) == (head + Without(a[1..], x)) + Without(b, x);
    }
  }

  lemma {:induction false} DistinctFacts<T>(history: seq<T>)
    ensures NoRepeats(Distinct(history))
    ensures forall x :: x in Distinct(history) <==> x in history
  {
    if history != [] {
      var front, last := history[..|history| - 1], history[|history| - 1];
      assert history == front + [last];
      DistinctFacts(front);
      WithoutFacts(Distinct(front), last);
      WithoutOnce(Distinct(front), last);
    }
  }

  lemma SuffixOfConcat<T>(a: seq<T>, b: seq<T>, limit: nat)
    requires |b| >= limit
    ensures Suffix(a + b, limit) == Suffix(b, limit)
  {
  }

  /** Deleting the first entry past the limit is taking the suffix. */
  lemma RememberIsSuffix<T>(items: seq<T>, x: T, limit: nat)
    requires NoRepeats(items) && |items| <= limit
    ensures Remember(items, x, limit) == Suffix(Without(items, x) + [x], limit)
  {
    WithoutOnce(items, x);
  }

  /** Remembering in the bounded list follows remembering in the unbounded one. */
  lemma RememberFollows<T>(d: seq<T>, x: T, limit: nat)
    requires NoRepeats(d)
    ensures Remember(Suffix(d, limit), x, limit) == Suffix(Without(d, x) + [x], limit)
  {
    var kept := Suffix(d, limit);
    RememberIsSuffix(kept, x, limit);
    if |d| > limit {
      var dropped := d[..|d| - limit];
      assert d == dropped + kept;
      WithoutConcat(dropped, kept, x);
      WithoutOnce(kept, x);
      var longer := Without(kept, x) + [x];
      assert Without(d, x) + [x] == Without(dropped, x) + longer;
      SuffixOfConcat(Without(dropped, x), longer, limit);
    }
  }

  /** The bounded list is always the most recent part of the history. */
  lemma RecentStep<T>(history: seq<T>, x: T, limit: nat)
    ensures Remember(Recent(history, limit), x, limit) == Recent(history + [x], limit)
  {
    assert (history + [x])[..|history|] == history;
    DistinctFacts(history);
    RememberFollows(Distinct(history), x, limit);
  }

  lemma {:induction false} DistinctEndsWith<T>(before: seq<T>, after: seq<T>) returns (front: seq<T>)
    ensures Distinct(before + after) == front + Distinct(after)
  {
    if after == [] {
      assert before + after == before;
      front := Distinct(before);
    } else {
      var start, last := after[..|after| - 1], after[|after| - 1];
      var whole := before + after;
      assert whole[..|whole| - 1] == before + start && whole[|whole| - 1] == last;
      var f := DistinctEndsWith(before, start);
      WithoutConcat(f, Distinct(start), last);
      front := Without(f, last);
      var middle := Without(Distinct(start), last);
      assert Distinct(after) == middle + [last];
      assert Distinct(whole) == (front + middle) + [last] by {
        assert Distinct(whole) == Without(Distinct(before + start), last) + [last];
      }
      assert (front + middle) + [last] == front + (middle + [last]);
    }
  }

  /** The distinct items from the last naming of `x` on: `x`, then those named after it. */
  lemma {:induction false} DistinctFrom<T>(x: T, after: seq<T>)
    requires x !in after
    ensures Distinct([x] + after) == [x] + Distinct(after)
  {
    if after == [] {
      assert [x] + after == [x];
    } else {
      var front, last := after[..|after| - 1], after[|after| - 1];
      var whole := [x] + after;
      assert whole[..|whole| - 1] == [x] + front && whole[|whole| - 1] == last;
      DistinctFrom(x, front);
      WithoutConcat([x], Distinct(front), last);
      WithoutFacts([x], last);
    }
  }

  lemma InSuffix<T>(items: seq<T>, at: nat, limit: nat)
    requires NoRepeats(items) && at < |items|
    ensures items[at] in Suffix(items, limit) <==> |items| - at <= limit
  {
    var kept := Suffix(items, limit);
    var cut := |items| - |kept|;
    if at >= cut {
      assert kept[at - cut] == items[at];
    }
    forall i | 0 <= i < |kept| && at < cut ensures kept[i] != items[at] {
      assert kept[i] == items[cut + i];
    }
  }

  /** An item stays in the bounded list exactly until `limit` other distinct items were named after it. */
  lemma RecentUntilPushedOut<T>(before: seq<T>, x: T, after: seq<T>, limit: nat)
    requires x !in after
    ensures x in Recent(before + ([x] + after), limit) <==> |Distinct(after)| < limit
  {
    var d := Distinct(before + ([x] + after));
    DistinctFacts(before + ([x] + after));
    DistinctFrom(x, after);
    var front := DistinctEndsWith(before, [x] + after);
    assert d == front + ([x] + Distinct(after));
    assert d[|front|] == x;
    InSuffix(d, |front|, limit);
  }
}
