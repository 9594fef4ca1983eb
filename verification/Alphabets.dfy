/** The alphabets of the encodings, and text as digits over an alphabet. */
module Alphabets {
  import opened Wrappers
  import opened Positional

  /** The characters from one to another. */
  function Span(low: char, high: char): (s: string)
    requires low <= high < 128 as char
    ensures Distinct(s) && Within(s, low, high)
  {
    seq(high as int - low as int + 1, i requires 0 <= i <= high as int - low as int => (low as int + i) as char)
  }

  const BASE58 := Span('1', '9') + Span('A', 'H') + Span('J', 'N') + Span('P', 'Z') + Span('a', 'k') + Span('m', 'z')
  const BASE32 := Span('a', 'z') + Span('2', '7')
  const DECIMAL := Span('0', '9')

  predicate Distinct(a: string) {
    forall i, j | 0 <= i < j < |a| :: a[i] != a[j]
  }

  predicate Within(a: string, low: char, high: char) {
    forall i | 0 <= i < |a| :: low <= a[i] <= high
  }

  /** What the proofs use of the two alphabets. */
  predicate IsBase58(a: string) {
    Distinct(a) && |a| == 58 && a[0] == '1' && a[23] == 'Q' && a[44] == 'm'
  }

  predicate IsBase32(a: string) {
    Distinct(a) && |a| == 32
  }

  lemma Base58Facts()
    ensures IsBase58(BASE58)
  {
    var figures, capitals, lowers := Span('1', '9'), Span('A', 'H') + Span('J', 'N') + Span('P', 'Z'), Span('a', 'k') + Span('m', 'z');
    Apart(Span('A', 'H'), 'A', 'H', Span('J', 'N'), 'J', 'N');
    Apart(Span('A', 'H') + Span('J', 'N'), 'A', 'N', Span('P', 'Z'), 'P', 'Z');
    Apart(Span('a', 'k'), 'a', 'k', Span('m', 'z'), 'm', 'z');
    Apart(figures, '1', '9', capitals, 'A', 'Z');
    Apart(figures + capitals, '1', 'Z', lowers, 'a', 'z');
    assert BASE58 == figures + capitals + lowers;
  }

  lemma Base32Facts()
    ensures IsBase32(BASE32)
  {
    Apart(Span('a', 'z'), 'a', 'z', Span('2', '7'), '2', '7');
  }

  /** The digits of the first alphabet are the ASCII letters and figures in their order, without the four that look alike. */
  lemma Base58Exactly()
    ensures forall i, j | 0 <= i < j < |BASE58| :: BASE58[i] < BASE58[j]
    ensures forall c: char :: c in BASE58 <==> ('1' <= c <= '9' || 'A' <= c <= 'Z' || 'a' <= c <= 'z') && c !in "IOl"
  {
    forall c: char
      ensures c in BASE58 <==> ('1' <= c <= '9' || 'A' <= c <= 'Z' || 'a' <= c <= 'z') && c !in "IOl"
    {
      InSpan('1', '9', c);
      InSpan('A', 'H', c);
      InSpan('J', 'N', c);
      InSpan('P', 'Z', c);
      InSpan('a', 'k', c);
      InSpan('m', 'z', c);
    }
  }

  /** Those of the second are the small letters, and behind them the figures from 2 to 7. */
  lemma Base32Exactly(i: nat)
    requires i < 32
    ensures BASE32[i] as int == if i < 26 then 'a' as int + i else '2' as int + i - 26
  {
  }

  lemma InSpan(low: char, high: char, c: char)
    requires low <= high < 128 as char
    ensures c in Span(low, high) <==> low <= c <= high
  {
    if low <= c <= high {
      assert Span(low, high)[c as int - low as int] == c;
    }
  }

  lemma Apart(a: string, low: char, high: char, b: string, low2: char, high2: char)
    requires Distinct(a) && Distinct(b) && Within(a, low, high) && Within(b, low2, high2)
    requires high < low2 || high2 < low
    ensures Distinct(a + b)
    ensures low <= low2 && high <= high2 ==> Within(a + b, low, high2)
  {
  }

  /** The place of the character's first occurrence. */
  function IndexOf(a: string, c: char): (i: Option<nat>)
    ensures i.Some? ==> i.value < |a| && a[i.value] == c
    ensures i.None? <==> c !in a
  {
    if a == "" then None else if a[0] == c then Some(0) else
      match IndexOf(a[1..], c)
      case None => None
      case Some(i) => Some(i + 1)
  }

  predicate Over(a: string, s: string) {
    forall i | 0 <= i < |s| :: s[i] in a
  }

  function Text(a: string, ds: seq<nat>): (s: string)
    requires Digits(|a|, ds)
    ensures |s| == |ds|
  {
    seq(|ds|, i requires 0 <= i < |ds| => a[ds[i]])
  }

  /** The text's digits, if all its characters are in the alphabet. */
  function Read(a: string, s: string): (ds: Option<seq<nat>>)
    ensures ds.Some? ==> Digits(|a|, ds.value) && Text(a, ds.value) == s
    ensures ds.Some? <==> Over(a, s)
  {
    if s == "" then Some([]) else
      var n := |s| - 1;
      match (Read(a, s[..n]), IndexOf(a, s[n]))
      case (Some(ds), Some(d)) => Some(ds + [d])
      case _ => None
  }

  lemma ReadText(a: string, ds: seq<nat>)
    requires Distinct(a) && Digits(|a|, ds)
    ensures Read(a, Text(a, ds)) == Some(ds)
  {
    var s := Text(a, ds);
    assert Over(a, s);
    var got := Read(a, s).value;
    assert Text(a, got) == s;
    forall i | 0 <= i < |ds| ensures got[i] == ds[i] {
      assert a[got[i]] == Text(a, got)[i] == s[i] == a[ds[i]];
    }
    assert got == ds;
  }
}
