/** Numbers and their digits, most significant first, in any base. */
module Positional {

  function Pow(b: nat, k: nat): (p: nat)
    ensures b > 0 ==> p > 0
  {
    if k == 0 then 1 else
      var p := Pow(b, k - 1);
      if b > 0 then Grow(p, b); p * b else 0
  }

  lemma Grow(p: nat, b: nat)
    requires p > 0 && b > 0
    ensures p * b > 0
  {
  }

  predicate Digits(b: nat, s: seq<nat>) {
    forall i | 0 <= i < |s| :: s[i] < b
  }

  /** The number that the digits spell. */
  function Number(b: nat, s: seq<nat>): nat {
    if s == [] then 0 else Number(b, s[..|s| - 1]) * b + s[|s| - 1]
  }

  /** The digits of `n` without leading zeros. */
  function Minimal(b: nat, n: nat): (s: seq<nat>)
    requires b > 1
    ensures Digits(b, s)
    ensures n > 0 ==> |s| > 0 && s[0] > 0
  {
    if n == 0 then [] else Quotient(n, b); Minimal(b, n / b) + [n % b]
  }

  /** Exactly `k` digits of `n`. */
  function Fixed(b: nat, n: nat, k: nat): (s: seq<nat>)
    requires b > 1
    ensures |s| == k && Digits(b, s)
  {
    if k == 0 then [] else Quotient(n, b); Fixed(b, n / b, k - 1) + [n % b]
  }

  lemma Quotient(n: nat, b: nat)
    requires b > 1
    ensures n / b >= 0 && 0 <= n % b < b
    ensures n > 0 ==> n / b < n
    ensures n / b == 0 <==> n < b
    ensures n == n / b * b + n % b
  {
    var q := n / b;
    if q > 0 {
      Product(q, 2, b);
      Product(q, 1, b);
      assert q * b >= b by { Monotone(1, q, b); }
    }
  }

  lemma Product(x: nat, y: nat, b: nat)
    requires y <= b
    ensures x * y <= x * b
  {
  }

  lemma Join(q: nat, d: nat, b: nat)
    requires d < b
    ensures (q * b + d) / b == q && (q * b + d) % b == d
  {
    var r := (q * b + d) / b;
    assert q * b + d == r * b + (q * b + d) % b;
    if r < q {
      Monotone(r + 1, q, b);
    } else if r > q {
      Monotone(q + 1, r, b);
    }
  }

  lemma Monotone(x: nat, y: nat, b: nat)
    requires x <= y
    ensures x * b <= y * b
  {
  }

  lemma {:induction false} NumberOfMinimal(b: nat, n: nat)
    requires b > 1
    ensures Number(b, Minimal(b, n)) == n
  {
    if n > 0 {
      Quotient(n, b);
      NumberOfMinimal(b, n / b);
      assert Minimal(b, n)[..|Minimal(b, n)| - 1] == Minimal(b, n / b);
    }
  }

  lemma {:induction false} MinimalOfNumber(b: nat, s: seq<nat>)
    requires b > 1 && Digits(b, s) && (s != [] ==> s[0] > 0)
    ensures Minimal(b, Number(b, s)) == s
    ensures s != [] ==> Number(b, s) > 0
  {
    if s != [] {
      var front, last := s[..|s| - 1], s[|s| - 1];
      MinimalOfNumber(b, front);
      Join(Number(b, front), last, b);
      assert s == front + [last];
      if front != [] {
        Grow(Number(b, front), b);
      }
    }
  }

  lemma {:induction false} NumberOfFixed(b: nat, n: nat, k: nat)
    requires b > 1 && n < Pow(b, k)
    ensures Number(b, Fixed(b, n, k)) == n
  {
    if k > 0 {
      Quotient(n, b);
      Under(n, b, Pow(b, k - 1));
      NumberOfFixed(b, n / b, k - 1);
      assert Fixed(b, n, k)[..k - 1] == Fixed(b, n / b, k - 1);
    }
  }

  lemma Under(n: nat, b: nat, p: nat)
    requires b > 1 && n < p * b
    ensures n / b < p
  {
    Quotient(n, b);
    if p <= n / b {
      Monotone(p, n / b, b);
    }
  }

  lemma {:induction false} FixedOfNumber(b: nat, s: seq<nat>)
    requires b > 1 && Digits(b, s)
    ensures Fixed(b, Number(b, s), |s|) == s
    ensures Number(b, s) < Pow(b, |s|)
  {
    if s != [] {
      var front, last := s[..|s| - 1], s[|s| - 1];
      FixedOfNumber(b, front);
      Join(Number(b, front), last, b);
      assert s == front + [last];
      Below(Number(b, front), last, Pow(b, |front|), b);
    }
  }

  lemma Below(x: nat, d: nat, p: nat, b: nat)
    requires x < p && d < b
    ensures x * b + d < p * b
  {
    Monotone(x + 1, p, b);
  }

  lemma {:induction false} PowSum(b: nat, i: nat, j: nat)
    requires b > 0
    ensures Pow(b, i + j) == Pow(b, i) * Pow(b, j)
  {
    if j > 0 {
      PowSum(b, i, j - 1);
      Distribute(Pow(b, i), Pow(b, j - 1), 0, b);
    }
  }

  lemma {:induction false} NumberOfConcat(b: nat, s: seq<nat>, t: seq<nat>)
    requires b > 0
    ensures Number(b, s + t) == Number(b, s) * Pow(b, |t|) + Number(b, t)
  {
    if t == [] {
      assert s + t == s;
    } else {
      var front := t[..|t| - 1];
      NumberOfConcat(b, s, front);
      assert (s + t)[..|s + t| - 1] == s + front;
      Distribute(Number(b, s), Pow(b, |front|), Number(b, front), b);
    }
  }

  lemma Distribute(x: nat, p: nat, y: nat, b: nat)
    ensures (x * p + y) * b == x * (p * b) + y * b
  {
  }

  /** The leading digits of a number between two multiples of a power are those of the multiplier. */
  lemma MinimalPrefix(b: nat, q: nat, r: nat, j: nat)
    requires b > 1 && q > 0 && r < Pow(b, j)
    ensures Minimal(b, q * Pow(b, j) + r) == Minimal(b, q) + Fixed(b, r, j)
  {
    var s, t := Minimal(b, q), Fixed(b, r, j);
    NumberOfMinimal(b, q);
    NumberOfFixed(b, r, j);
    NumberOfConcat(b, s, t);
    MinimalOfNumber(b, s + t);
  }

  /** A number with these leading digits lies between two multiples of a power, and conversely. */
  lemma NumberBetween(b: nat, s: seq<nat>, t: seq<nat>)
    requires b > 1 && Digits(b, t)
    ensures Number(b, s) * Pow(b, |t|) <= Number(b, s + t) < (Number(b, s) + 1) * Pow(b, |t|)
  {
    NumberOfConcat(b, s, t);
    FixedOfNumber(b, t);
    Room(Number(b, s), Pow(b, |t|), Number(b, t));
  }

  lemma Room(x: nat, p: nat, r: nat)
    requires r < p
    ensures x * p <= x * p + r < (x + 1) * p
  {
  }

  lemma PrefixBetween(b: nat, q: nat, n: nat, j: nat)
    requires b > 1 && q > 0 && q * Pow(b, j) <= n < (q + 1) * Pow(b, j)
    ensures Minimal(b, n) == Minimal(b, q) + Fixed(b, n - q * Pow(b, j), j)
  {
    var r := n - q * Pow(b, j);
    assert r < Pow(b, j);
    MinimalPrefix(b, q, r, j);
  }
}
