/**
 The check of an image selector: a content identifier, a SHA-256 checksum and a size. What it
 accepts is stated from the encoder's side: the identifiers are the Base58 and Base32 forms of
 a digest, the sizes the decimal forms of a number.
 */
module ImageCid {
  import opened Wrappers
  import opened Positional
  import opened Alphabets

  type Bytes = s: seq<nat> | Digits(256, s)
  type Digest = s: seq<nat> | Digits(256, s) && |s| == 32 witness seq(32, _ => 0)

  // Base58 of bytes without a leading zero byte: the number that they spell.

  function Base58(a: string, bytes: Bytes): string
    requires |a| == 58 && bytes != [] && bytes[0] != 0
  {
    Text(a, Minimal(58, Number(256, bytes)))
  }

  const MULTIHASH: Bytes := [0x12, 0x20]

  // Base32 (section 6 of RFC 4648), lower case and without padding.

  /** The digits that carry 0 to 4 bytes, and back. */
  function Carrying(bytes: nat): nat {
    match bytes case 0 => 0 case 1 => 2 case 2 => 4 case 3 => 5 case _ => 7
  }

  function Carried(digits: nat): Option<nat> {
    match digits
    case 0 => Some(0) case 2 => Some(1) case 4 => Some(2) case 5 => Some(3) case 7 => Some(4)
    case _ => None
  }

  function Zeros(k: nat): (z: seq<nat>)
    ensures |z| == k && Digits(2, z)
  {
    seq(k, _ => 0)
  }

  /** Five bytes at a time become eight digits; what is left is filled up with zero bytes. */
  function Encode32(bytes: Bytes): (ds: seq<nat>)
    ensures Digits(32, ds)
  {
    if |bytes| >= 5 then Fixed(32, Number(256, bytes[..5]), 8) + Encode32(bytes[5..])
    else Fixed(32, Number(256, bytes + Zeros(5 - |bytes|)), 8)[..Carrying(|bytes|)]
  }

  /** Eight digits at a time become five bytes; what is left is filled up with zero bits. */
  function Decode32(ds: seq<nat>): (bytes: Option<Bytes>)
    requires Digits(32, ds)
  {
    if |ds| >= 8 then
      match Decode32(ds[8..])
      case None => None
      case Some(rest) => Some(Fixed(256, Number(32, ds[..8]), 5) + rest)
    else
      match Carried(|ds|)
      case None => None
      case Some(k) => Some(Fixed(256, Number(32, ds) * Pow(32, 8 - |ds|), 5)[..k])
  }

  lemma Powers()
    ensures Pow(32, 8) == Pow(256, 5) == 0x100_0000_0000
    ensures Pow(32, 6) == 0x4000_0000 && Pow(32, 4) == 0x10_0000 && Pow(32, 3) == 0x8000 && Pow(32, 1) == 0x20
    ensures Pow(256, 4) == 0x1_0000_0000 && Pow(256, 3) == 0x100_0000 && Pow(256, 2) == 0x1_0000 && Pow(256, 1) == 0x100
    ensures Pow(32, 2) == 0x400 && Pow(32, 5) == 0x200_0000 && Pow(32, 7) == 0x8_0000_0000
  {
    assert Pow(32, 1) == 32 && Pow(256, 1) == 256;
    assert Pow(32, 2) == 1024 && Pow(256, 2) == 65536;
    assert Pow(32, 3) == 32768 && Pow(256, 3) == 16777216;
    assert Pow(32, 4) == 1048576 && Pow(256, 4) == 4294967296;
    assert Pow(32, 5) == 33554432;
    assert Pow(32, 6) == 1073741824;
    assert Pow(32, 7) == 34359738368;
  }

  lemma {:induction false} NumberOfZeros(b: nat, k: nat)
    ensures Number(b, Zeros(k)) == 0
  {
    if k > 0 {
      NumberOfZeros(b, k - 1);
      assert Zeros(k)[..k - 1] == Zeros(k - 1);
    }
  }

  lemma NumberWithZeros(b: nat, s: seq<nat>, k: nat, v: nat)
    requires b > 0 && v == Number(b, s) * Pow(b, k)
    ensures Number(b, s + Zeros(k)) == v
  {
    NumberOfZeros(b, k);
    NumberOfConcat(b, s, Zeros(k));
  }

  /** The number of the bytes with their zero bytes is that of the digits with their zero digits. */
  predicate Scaled(bytes: Bytes, m: nat) {
    && |bytes| < 5
    && m < Pow(32, Carrying(|bytes|))
    && Number(256, bytes) * Pow(256, 5 - |bytes|) == m * Pow(32, 8 - Carrying(|bytes|))
  }

  /** Filling up with zero bytes fills up with zero digits. */
  lemma EncodeTail(bytes: Bytes, m: nat)
    requires Scaled(bytes, m)
    ensures Encode32(bytes) == Fixed(32, m, Carrying(|bytes|))
  {
    var k := Carrying(|bytes|);
    var s, v := Fixed(32, m, k), m * Pow(32, 8 - k);
    NumberWithZeros(256, bytes, 5 - |bytes|, v);
    NumberOfFixed(32, m, k);
    NumberWithZeros(32, s, 8 - k, v);
    FixedOfNumber(32, s + Zeros(8 - k));
  }

  lemma DecodeTail(bytes: Bytes, m: nat)
    requires Scaled(bytes, m)
    ensures Decode32(Fixed(32, m, Carrying(|bytes|))) == Some(bytes)
  {
    var full := bytes + Zeros(5 - |bytes|);
    NumberOfFixed(32, m, Carrying(|bytes|));
    NumberWithZeros(256, bytes, 5 - |bytes|, Number(256, bytes) * Pow(256, 5 - |bytes|));
    FixedOfNumber(256, full);
    assert full[..|bytes|] == bytes;
  }

  lemma ScaleNumber(r: nat, x: nat) returns (m: nat)
    requires r < 5 && x < Pow(256, r)
    ensures m < Pow(32, Carrying(r)) && x * Pow(256, 5 - r) == m * Pow(32, 8 - Carrying(r))
  {
    Powers();
    match r
    case 0 => m := 0;
    case 1 => m := x * 4;
    case 2 => m := x * 16;
    case 3 => m := x * 2;
    case _ => m := x * 8;
  }

  lemma Scale(bytes: Bytes) returns (m: nat)
    requires |bytes| < 5
    ensures Scaled(bytes, m)
  {
    FixedOfNumber(256, bytes);
    m := ScaleNumber(|bytes|, Number(256, bytes));
  }

  lemma TailRoundTrip(bytes: Bytes)
    requires |bytes| < 5
    ensures Decode32(Encode32(bytes)) == Some(bytes)
  {
    var m := Scale(bytes);
    EncodeTail(bytes, m);
    DecodeTail(bytes, m);
  }

  lemma Quantum(five: Bytes)
    requires |five| == 5
    ensures Fixed(256, Number(32, Fixed(32, Number(256, five), 8)), 5) == five
  {
    Powers();
    FixedOfNumber(256, five);
    NumberOfFixed(32, Number(256, five), 8);
  }

  lemma {:induction false} DecodeEncode(bytes: Bytes)
    ensures Decode32(Encode32(bytes)) == Some(bytes)
  {
    if |bytes| >= 5 {
      var five, ds := bytes[..5], Encode32(bytes);
      Quantum(five);
      DecodeEncode(bytes[5..]);
      assert ds[..8] == Fixed(32, Number(256, five), 8) && ds[8..] == Encode32(bytes[5..]);
      assert bytes == five + bytes[5..];
    } else {
      TailRoundTrip(bytes);
    }
  }

  const RAW: Bytes := [0x01, 0x55, 0x12, 0x20]
  const UNIXFS: Bytes := [0x01, 0x70, 0x12, 0x20]

  function CidV0(a: string, digest: Digest): string
    requires IsBase58(a)
  {
    Base58(a, [0x12, 0x20] + digest)
  }

  function CidV1(a: string, header: Bytes, digest: Digest): string
    requires IsBase32(a)
  {
    "b" + Text(a, Encode32(header + digest))
  }

  /** The three identifiers of a digest. */
  predicate Names(a: string, b: string, cid: string, digest: Digest)
    requires IsBase58(a) && IsBase32(b)
  {
    cid == CidV0(a, digest) || cid == CidV1(b, [0x01, 0x55, 0x12, 0x20], digest) || cid == CidV1(b, [0x01, 0x70, 0x12, 0x20], digest)
  }

  // The numeric bound: "Qm" are the digits 23 and 44, and 23 * 58 + 44 == 1378.

  lemma Power58(j: nat)
    requires j == 44
    ensures Pow(58, j) == 389790918707373377135528568990913592653094657612049369038476873218241589149696
  {
    assert Pow(58, 11) == 24986644000165537792;
    PowSum(58, 11, 11);
    PowSum(58, 22, 22);
  }

  lemma Power256(k: nat)
    requires k == 32
    ensures Pow(256, k) == 115792089237316195423570985008687907853269984665640564039457584007913129639936
  {
    assert Pow(256, 8) == 0x1_0000_0000_0000_0000;
    PowSum(256, 8, 8);
    assert Pow(256, 16) == 0x1_0000_0000_0000_0000_0000_0000_0000_0000;
    PowSum(256, 16, 16);
  }

  lemma Bound(j: nat, k: nat)
    requires j == 44 && k == 32
    ensures 1378 * Pow(58, j) <= 0x1220 * Pow(256, k)
    ensures 0x1221 * Pow(256, k) <= 1379 * Pow(58, j)
  {
    Power58(j);
    Power256(k);
  }

  lemma Lead()
    ensures Number(256, MULTIHASH) == 0x1220 && Minimal(58, 1378) == [23, 44]
  {
    assert MULTIHASH[..1] == [0x12];
    assert Number(256, [0x12]) == 0x12;
    assert Minimal(58, 23) == [23];
  }

  /** Every Base58 form of a SHA-256 multihash has 46 digits, and 23 and 44 are the first two. */
  lemma DigitsV0(digest: Digest) returns (ds: seq<nat>)
    ensures ds == Minimal(58, Number(256, MULTIHASH + digest))
    ensures Digits(58, ds) && |ds| == 46 && ds[0] == 23 && ds[1] == 44
  {
    hide Number, Pow, Minimal;
    var n, j := Number(256, MULTIHASH + digest), 46 - 2;
    NumberBetween(256, MULTIHASH, digest);
    Lead();
    Bound(j, |digest|);
    PrefixBetween(58, 1378, n, j);
    ds := Minimal(58, n);
  }

  /** Hence "Qm" starts every such form, and the form can be read back. */
  lemma FormV0(a: string, digest: Digest) returns (ds: seq<nat>)
    requires IsBase58(a)
    ensures |CidV0(a, digest)| == 46 && "Qm" <= CidV0(a, digest)
    ensures Read(a, CidV0(a, digest)) == Some(ds)
    ensures Minimal(256, Number(58, ds)) == MULTIHASH + digest
  {
    ds := DigitsV0(digest);
    assert CidV0(a, digest) == Text(a, ds);
    ReadText(a, ds);
    NumberOfMinimal(58, Number(256, MULTIHASH + digest));
    MinimalOfNumber(256, MULTIHASH + digest);
  }

  predicate GoodV0(cid: string, raw: Bytes) {
    |cid| == 46 && |raw| == 34 && raw[..2] == MULTIHASH
  }

  /** What the Base58 branch accepts. */
  lemma AcceptsV0(a: string, cid: string, ds: seq<nat>, raw: Bytes) returns (digest: Digest)
    requires IsBase58(a) && "Qm" <= cid && Read(a, cid) == Some(ds) && raw == Minimal(256, Number(58, ds))
    requires GoodV0(cid, raw)
    ensures cid == CidV0(a, digest)
  {
    digest := raw[2..];
    assert raw == MULTIHASH + digest;
    NumberOfMinimal(256, Number(58, ds));
    assert a[ds[0]] == Text(a, ds)[0] == cid[0];
    MinimalOfNumber(58, ds);
  }

  predicate GoodV1(ds: seq<nat>, raw: Bytes)
    requires Digits(32, ds)
  {
    |raw| == 36 && (raw[..4] == RAW || raw[..4] == UNIXFS) && Encode32(raw) == ds
  }

  lemma FormV1(a: string, header: Bytes, digest: Digest)
    requires IsBase32(a)
    ensures CidV1(a, header, digest)[0] == 'b'
    ensures Read(a, CidV1(a, header, digest)[1..]) == Some(Encode32(header + digest))
    ensures Decode32(Encode32(header + digest)) == Some(header + digest)
  {
    assert CidV1(a, header, digest)[1..] == Text(a, Encode32(header + digest));
    ReadText(a, Encode32(header + digest));
    DecodeEncode(header + digest);
  }

  /** What the Base32 branch accepts. */
  lemma AcceptsV1(a: string, cid: string, ds: seq<nat>, raw: Bytes) returns (digest: Digest)
    requires IsBase32(a) && cid != "" && cid[0] == 'b' && Read(a, cid[1..]) == Some(ds) && GoodV1(ds, raw)
    ensures cid == CidV1(a, RAW, digest) || cid == CidV1(a, UNIXFS, digest)
  {
    digest := raw[4..];
    assert raw == raw[..4] + digest;
    assert cid == CidV1(a, raw[..4], digest);
  }

  lemma SameV1(a: string, h1: Bytes, d1: Digest, h2: Bytes, d2: Digest)
    requires IsBase32(a) && |h1| == |h2| && CidV1(a, h1, d1) == CidV1(a, h2, d2)
    ensures h1 == h2 && d1 == d2
  {
    FormV1(a, h1, d1);
    FormV1(a, h2, d2);
    assert (h1 + d1)[|h1|..] == d1 && (h2 + d2)[|h2|..] == d2;
    assert (h1 + d1)[..|h1|] == h1 && (h2 + d2)[..|h2|] == h2;
  }

  /** No identifier names two digests. */
  lemma OneDigest(a: string, b: string, cid: string, digest: Digest, other: Digest)
    requires IsBase58(a) && IsBase32(b) && Names(a, b, cid, digest) && Names(a, b, cid, other)
    ensures digest == other
  {
    var ds := FormV0(a, digest);
    var es := FormV0(a, other);
    if cid == CidV0(a, digest) {
      assert cid[0] == 'Q';
      assert digest == (MULTIHASH + digest)[2..] && other == (MULTIHASH + other)[2..];
    } else {
      assert cid[0] == 'b';
      var h1 := if cid == CidV1(b, RAW, digest) then RAW else UNIXFS;
      var h2 := if cid == CidV1(b, RAW, other) then RAW else UNIXFS;
      SameV1(b, h1, digest, h2, other);
    }
  }

  const LIMIT := 16 * 1024 * 1024 * 1024

  predicate IsChecksum(checksum: string) {
    |checksum| == 64 && forall i | 0 <= i < 64 :: '0' <= checksum[i] <= '9' || 'a' <= checksum[i] <= 'f'
  }

  /** The 64 digits are hexadecimal ones, in small letters. */
  lemma ChecksumExactly(checksum: string)
    ensures IsChecksum(checksum) <==> |checksum| == 64 && forall c | c in checksum :: c in DECIMAL + Span('a', 'f')
  {
    forall c: char
      ensures c in DECIMAL + Span('a', 'f') <==> '0' <= c <= '9' || 'a' <= c <= 'f'
    {
      InSpan('0', '9', c);
      InSpan('a', 'f', c);
    }
    forall i | 0 <= i < |checksum|
      ensures checksum[i] in checksum
    {
    }
  }

  /** The decimal form of a size within the limit. */
  ghost predicate IsSize(size: string) {
    exists n: nat :: 0 < n <= 17_179_869_184 && SizeOf(size, n)
  }

  predicate SizeOf(size: string, n: nat) {
    |DECIMAL| == 10 && size == Text(DECIMAL, Minimal(10, n))
  }

  ghost predicate IsSelector(cid: string) {
    IsBase58(BASE58) && IsBase32(BASE32) && (exists digest: Digest :: Names(BASE58, BASE32, cid, digest))
  }

  lemma DecimalFacts()
    ensures |DECIMAL| == 10 && Distinct(DECIMAL) && DECIMAL[0] == '0'
  {
  }

  /** The decimal form of a positive number is read back. */
  lemma SizeIsRead(size: string, n: nat)
    requires n > 0 && SizeOf(size, n)
    ensures Read(DECIMAL, size) == Some(Minimal(10, n)) && Number(10, Minimal(10, n)) == n && size != "" && size[0] != '0'
  {
    hide Read;
    DecimalFacts();
    ReadText(DECIMAL, Minimal(10, n));
    NumberOfMinimal(10, n);
    assert size[0] == DECIMAL[Minimal(10, n)[0]];
  }

  /** Digits without a leading zero are the decimal form of their number. */
  lemma ReadIsSize(size: string, ds: seq<nat>)
    requires Read(DECIMAL, size) == Some(ds) && size != "" && size[0] != '0'
    ensures Digits(10, ds) && SizeOf(size, Number(10, ds))
  {
    hide Span;
    DecimalFacts();
    assert size[0] == Text(DECIMAL, ds)[0] == DECIMAL[ds[0]];
    MinimalOfNumber(10, ds);
  }

  /** The size as the program reads it: the digits it admits, and their value. */
  method ValidSize(size: string) returns (ok: bool)
    ensures ok <==> IsSize(size)
  {
    var ds := Read(DECIMAL, size);
    ok := ds.Some? && size != "" && size[0] != '0' && 0 < Number(10, ds.value) <= LIMIT;
    if n: nat :| 0 < n <= LIMIT && SizeOf(size, n) {
      SizeIsRead(size, n);
    }
    if ok {
      ReadIsSize(size, ds.value);
    }
  }

  /** The loop over the characters; `None` for one that is not in the alphabet. */
  method Value58(a: string, cid: string) returns (number: Option<nat>)
    requires IsBase58(a)
    ensures number == (match Read(a, cid) case None => None case Some(ds) => Some(Number(58, ds)))
  {
    var value := 0;
    ghost var ds: seq<nat> := [];
    var i := 0;
    while i < |cid|
      invariant i <= |cid|
      invariant Read(a, cid[..i]) == Some(ds) && value == Number(58, ds)
    {
      assert cid[..i + 1][..i] == cid[..i];
      var digit := IndexOf(a, cid[i]);
      if digit.None? {
        assert !Over(a, cid);
        return None;
      }
      value := value * 58 + digit.value;
      assert (ds + [digit.value])[..|ds|] == ds;
      ds := ds + [digit.value];
      i := i + 1;
    }
    assert cid[..|cid|] == cid;
    number := Some(value);
  }

  /** A named identifier that starts with "Qm" is a Base58 form, and the branch takes it. */
  lemma KnownV0(a: string, b: string, cid: string, digest: Digest)
    requires IsBase58(a) && IsBase32(b) && "Qm" <= cid && Names(a, b, cid, digest)
    ensures Read(a, cid).Some? && GoodV0(cid, Minimal(256, Number(58, Read(a, cid).value)))
  {
    FormV1(b, RAW, digest);
    FormV1(b, UNIXFS, digest);
    assert cid[0] == 'Q';
    var ds := FormV0(a, digest);
    assert (MULTIHASH + digest)[..2] == MULTIHASH;
  }

  /** Every other one is a Base32 form, and the branch takes it. */
  lemma KnownV1(a: string, b: string, cid: string, digest: Digest)
    requires IsBase58(a) && IsBase32(b) && !("Qm" <= cid) && Names(a, b, cid, digest)
    ensures cid != "" && cid[0] == 'b' && Read(b, cid[1..]).Some? && Read(b, cid[1..]).value != []
    ensures var raw := Decode32(Read(b, cid[1..]).value); raw.Some? && GoodV1(Read(b, cid[1..]).value, raw.value)
  {
    var ds := FormV0(a, digest);
    var header := if cid == CidV1(b, RAW, digest) then RAW else UNIXFS;
    FormV1(b, header, digest);
    assert (header + digest)[..4] == header;
  }

  method ValidSelector(a: string, b: string, cid: string) returns (ok: bool)
    requires IsBase58(a) && IsBase32(b)
    ensures ok <==> exists digest: Digest :: Names(a, b, cid, digest)
  {
    if "Qm" <= cid {
      var number := Value58(a, cid);
      ok := number.Some? && GoodV0(cid, Minimal(256, number.value));
      if digest: Digest :| Names(a, b, cid, digest) {
        KnownV0(a, b, cid, digest);
      }
      if ok {
        ghost var digest := AcceptsV0(a, cid, Read(a, cid).value, Minimal(256, number.value));
        assert Names(a, b, cid, digest);
      }
    } else {
      var ds := if cid != "" && cid[0] == 'b' then Read(b, cid[1..]) else None;
      var raw := if ds.Some? && ds.value != [] then Decode32(ds.value) else None;
      ok := raw.Some? && GoodV1(ds.value, raw.value);
      if digest: Digest :| Names(a, b, cid, digest) {
        KnownV1(a, b, cid, digest);
      }
      if ok {
        ghost var digest := AcceptsV1(b, cid, ds.value, raw.value);
        assert Names(a, b, cid, digest);
      }
    }
  }

  method Validate(cid: string, checksum: string, size: string) returns (ok: bool)
    ensures ok <==> IsChecksum(checksum) && IsSize(size) && IsSelector(cid)
  {
    ok := IsChecksum(checksum);
    if ok {
      ok := ValidSize(size);
    }
    if ok {
      Base58Facts();
      Base32Facts();
      ok := ValidSelector(BASE58, BASE32, cid);
    }
  }
}
