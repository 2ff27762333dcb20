/** The canonical bytes of a prekey bundle (presidium-crypto/src/identity.rs), byte by byte. */
module BundleEncoding {
  import opened Results
  import opened Terms

  type Array32 = b: Bytes | |b| == 32 witness seq(32, i => 0)
  type Array1568 = b: Bytes | |b| == 1568 witness seq(1568, i => 0)
  type Array2592 = b: Bytes | |b| == 2592 witness seq(2592, i => 0)
  type U32 = n: nat | n < 0x1_0000_0000
  type U64 = n: nat | n < 0x1_0000_0000_0000_0000

  datatype IdentityBytes = IdentityBytes(classical: Array32, pq: Array2592)
  datatype KemBytes = KemBytes(classical: Array32, pq: Array1568)
  datatype SignedBytes = SignedBytes(keyId: U32, publicKey: KemBytes, timestamp: U64)
  datatype OneTimeBytes = OneTimeBytes(keyId: U32, publicKey: KemBytes)
  datatype Bundle = Bundle(identity: IdentityBytes, kem: KemBytes, signed: SignedBytes, oneTime: seq<OneTimeBytes>)

  // ---------------------------------------------------------------- little-endian integers

  function LittleEndian(n: nat, width: nat): Bytes {
    if width == 0 then [] else [n % 256] + LittleEndian(n / 256, width - 1)
  }

  function FromLittleEndian(b: Bytes): nat {
    if b == [] then 0 else b[0] + 256 * FromLittleEndian(b[1..])
  }

  function Pow256(width: nat): (p: nat)
    ensures p > 0
  {
    if width == 0 then 1 else 256 * Pow256(width - 1)
  }

  lemma {:induction false} LittleEndianRoundTrip(n: nat, width: nat)
    requires n < Pow256(width)
    ensures |LittleEndian(n, width)| == width
    ensures FromLittleEndian(LittleEndian(n, width)) == n
  {
    if width == 0 {
    } else {
      LittleEndianRoundTrip(n / 256, width - 1);
    }
  }

  lemma Widths()
    ensures Pow256(4) == 0x1_0000_0000 && Pow256(8) == 0x1_0000_0000_0000_0000
  {
    assert Pow256(2) == 65536;
    assert Pow256(4) == 256 * (256 * Pow256(2));
    assert Pow256(8) == 256 * (256 * (256 * (256 * Pow256(4))));
  }

  // ---------------------------------------------------------------- the encoding

  function EncodeKem(k: KemBytes): Bytes {
    k.classical + k.pq
  }

  function EncodeOneTime(o: OneTimeBytes): Bytes {
    LittleEndian(o.keyId, 4) + EncodeKem(o.publicKey)
  }

  function EncodeSigned(s: SignedBytes): Bytes {
    LittleEndian(s.keyId, 4) + EncodeKem(s.publicKey) + LittleEndian(s.timestamp, 8)
  }

  function EncodeAll(list: seq<OneTimeBytes>): Bytes {
    if list == [] then [] else EncodeAll(list[..|list| - 1]) + EncodeOneTime(list[|list| - 1])
  }

  function Encode(b: Bundle): Bytes {
    b.identity.classical + b.identity.pq + EncodeKem(b.kem) + EncodeSigned(b.signed) + EncodeAll(b.oneTime)
  }

  /** The source's buffer, filled field by field. */
  method BundleBytes(b: Bundle) returns (bytes: Bytes)
    ensures bytes == Encode(b)
  {
    bytes := [];
    bytes := bytes + b.identity.classical;
    bytes := bytes + b.identity.pq;
    bytes := bytes + b.kem.classical;
    bytes := bytes + b.kem.pq;
    bytes := bytes + LittleEndian(b.signed.keyId, 4);
    bytes := bytes + b.signed.publicKey.classical;
    bytes := bytes + b.signed.publicKey.pq;
    bytes := bytes + LittleEndian(b.signed.timestamp, 8);
    ghost var fixedPart := bytes;
    assert fixedPart == b.identity.classical + b.identity.pq + EncodeKem(b.kem) + EncodeSigned(b.signed);
    for i := 0 to |b.oneTime|
      invariant bytes == fixedPart + EncodeAll(b.oneTime[..i])
    {
      var o := b.oneTime[i];
      assert b.oneTime[..i + 1][..i] == b.oneTime[..i];
      assert EncodeAll(b.oneTime[..i + 1]) == EncodeAll(b.oneTime[..i]) + EncodeOneTime(o);
      bytes := bytes + LittleEndian(o.keyId, 4);
      bytes := bytes + o.publicKey.classical;
      bytes := bytes + o.publicKey.pq;
    }
    assert b.oneTime[..|b.oneTime|] == b.oneTime;
  }

  // ---------------------------------------------------------------- injectivity

  lemma SplitFront(a: Bytes, b: Bytes, c: Bytes, d: Bytes)
    requires a + b == c + d && |a| == |c|
    ensures a == c && b == d
  {
    assert (a + b)[..|a|] == a && (c + d)[..|c|] == c;
    assert (a + b)[|a|..] == b && (c + d)[|c|..] == d;
  }

  lemma SplitBack(a: Bytes, b: Bytes, c: Bytes, d: Bytes)
    requires a + b == c + d && |b| == |d|
    ensures a == c && b == d
  {
    assert |a| == |a + b| - |b| && |c| == |c + d| - |d|;
    SplitFront(a, b, c, d);
  }

  lemma KemInjective(x: KemBytes, y: KemBytes)
    requires EncodeKem(x) == EncodeKem(y)
    ensures x == y
  {
    SplitFront(x.classical, x.pq, y.classical, y.pq);
  }

  lemma OneTimeInjective(x: OneTimeBytes, y: OneTimeBytes)
    ensures |EncodeOneTime(x)| == 1604
    ensures EncodeOneTime(x) == EncodeOneTime(y) ==> x == y
  {
    Widths();
    LittleEndianRoundTrip(x.keyId, 4);
    LittleEndianRoundTrip(y.keyId, 4);
    if EncodeOneTime(x) == EncodeOneTime(y) {
      SplitFront(LittleEndian(x.keyId, 4), EncodeKem(x.publicKey), LittleEndian(y.keyId, 4), EncodeKem(y.publicKey));
      KemInjective(x.publicKey, y.publicKey);
    }
  }

  lemma SignedInjective(x: SignedBytes, y: SignedBytes)
    ensures |EncodeSigned(x)| == 1612
    ensures EncodeSigned(x) == EncodeSigned(y) ==> x == y
  {
    Widths();
    LittleEndianRoundTrip(x.keyId, 4);
    LittleEndianRoundTrip(y.keyId, 4);
    LittleEndianRoundTrip(x.timestamp, 8);
    LittleEndianRoundTrip(y.timestamp, 8);
    if EncodeSigned(x) == EncodeSigned(y) {
      var front := LittleEndian(x.keyId, 4) + EncodeKem(x.publicKey);
      var back := LittleEndian(y.keyId, 4) + EncodeKem(y.publicKey);
      SplitBack(front, LittleEndian(x.timestamp, 8), back, LittleEndian(y.timestamp, 8));
      SplitFront(LittleEndian(x.keyId, 4), EncodeKem(x.publicKey), LittleEndian(y.keyId, 4), EncodeKem(y.publicKey));
      KemInjective(x.publicKey, y.publicKey);
    }
  }

  lemma {:induction false} ListInjective(xs: seq<OneTimeBytes>, ys: seq<OneTimeBytes>)
    requires EncodeAll(xs) == EncodeAll(ys)
    ensures xs == ys
  {
    if xs == [] || ys == [] {
      if xs != [] { OneTimeInjective(xs[|xs| - 1], xs[|xs| - 1]); }
      if ys != [] { OneTimeInjective(ys[|ys| - 1], ys[|ys| - 1]); }
    } else {
      var x, y := xs[|xs| - 1], ys[|ys| - 1];
      OneTimeInjective(x, y);
      OneTimeInjective(y, x);
      SplitBack(EncodeAll(xs[..|xs| - 1]), EncodeOneTime(x), EncodeAll(ys[..|ys| - 1]), EncodeOneTime(y));
      ListInjective(xs[..|xs| - 1], ys[..|ys| - 1]);
      assert xs == xs[..|xs| - 1] + [x] && ys == ys[..|ys| - 1] + [y];
    }
  }

  /** The canonical bytes determine the bundle: identity keys, KEM keys, the signed prekey with its id
      and timestamp, and the whole list of one-time prekeys, whatever its length. */
  lemma EncodingIsInjective(x: Bundle, y: Bundle)
    requires Encode(x) == Encode(y)
    ensures x == y
  {
    SignedInjective(x.signed, y.signed);
    SignedInjective(y.signed, x.signed);
    var xi, yi := x.identity.classical + x.identity.pq, y.identity.classical + y.identity.pq;
    var xf, yf := xi + EncodeKem(x.kem), yi + EncodeKem(y.kem);
    SplitFront(xf + EncodeSigned(x.signed), EncodeAll(x.oneTime), yf + EncodeSigned(y.signed), EncodeAll(y.oneTime));
    SplitFront(xf, EncodeSigned(x.signed), yf, EncodeSigned(y.signed));
    SplitFront(xi, EncodeKem(x.kem), yi, EncodeKem(y.kem));
    SplitFront(x.identity.classical, x.identity.pq, y.identity.classical, y.identity.pq);
    KemInjective(x.kem, y.kem);
    ListInjective(x.oneTime, y.oneTime);
  }

  // ---------------------------------------------------------------- the layout

  /** Byte `i` of a little-endian integer is its digit of weight 256 to the `i`. */
  lemma {:induction false} LittleEndianDigit(n: nat, width: nat, i: nat)
    requires i < width
    ensures |LittleEndian(n, width)| == width
    ensures LittleEndian(n, width)[i] == n / Pow256(i) % 256
  {
    if i == 0 {
      LengthOf(n, width);
    } else {
      LittleEndianDigit(n / 256, width - 1, i - 1);
      DivideTwice(n, Pow256(i - 1));
    }
  }

  lemma {:induction false} LengthOf(n: nat, width: nat)
    ensures |LittleEndian(n, width)| == width
  {
    if width == 0 {
    } else {
      LengthOf(n / 256, width - 1);
    }
  }

  lemma DivideTwice(n: nat, d: nat)
    requires d > 0
    ensures n / 256 / d == n / (256 * d)
  {
    var q := n / 256 / d;
    var r := n / 256 % d;
    assert n / 256 == q * d + r;
    var low := 256 * r + n % 256;
    assert n == 256 * (q * d + r) + n % 256;
    assert n == q * (256 * d) + low;
    assert low < 256 * d;
    QuotientIs(n, 256 * d, q, low);
  }

  lemma OneMoreTime(a: nat, b: nat, d: nat)
    requires a < b
    ensures a * d + d <= b * d
  {
    assert b * d == a * d + (b - a) * d;
    assert (b - a) * d == d + (b - a - 1) * d;
  }

  lemma QuotientIs(n: nat, d: nat, q: nat, r: nat)
    requires d > 0 && n == q * d + r && r < d
    ensures n / d == q
  {
    var other := n / d;
    assert n == other * d + n % d;
    if other < q {
      OneMoreTime(other, q, d);
      assert false;
    } else if other > q {
      OneMoreTime(q, other, d);
      assert false;
    }
  }

  lemma {:induction false} ListLayout(list: seq<OneTimeBytes>, i: nat)
    requires i < |list|
    ensures |EncodeAll(list)| == 1604 * |list|
    ensures EncodeAll(list)[1604 * i..1604 * (i + 1)] == EncodeOneTime(list[i])
  {
    var n := |list| - 1;
    var front := EncodeAll(list[..n]);
    OneTimeInjective(list[n], list[n]);
    if n == 0 {
      assert list[..0] == [];
      assert EncodeAll(list) == [] + EncodeOneTime(list[0]);
    } else if i < n {
      ListLayout(list[..n], i);
      assert EncodeAll(list)[1604 * i..1604 * (i + 1)] == front[1604 * i..1604 * (i + 1)];
    } else {
      ListLayout(list[..n], 0);
      assert EncodeAll(list)[1604 * n..1604 * n + 1604] == EncodeOneTime(list[n]);
    }
  }

  /** Where each field of a bundle stands: the identity keys, the identity's KEM keys, the signed prekey's id, KEM
      keys and timestamp, and from byte 5836 on the one-time prekeys, 1604 bytes each, in their order. */
  lemma BundleLayout(b: Bundle)
    ensures var bytes, one := Encode(b), EncodeAll(b.oneTime);
      && |bytes| == 5836 + |one| && bytes[5836..] == one
      && bytes[0..32] == b.identity.classical && bytes[32..2624] == b.identity.pq
      && bytes[2624..2656] == b.kem.classical && bytes[2656..4224] == b.kem.pq
      && bytes[4224..4228] == LittleEndian(b.signed.keyId, 4)
      && bytes[4228..4260] == b.signed.publicKey.classical && bytes[4260..5828] == b.signed.publicKey.pq
      && bytes[5828..5836] == LittleEndian(b.signed.timestamp, 8)
  {
    var bytes, one := Encode(b), EncodeAll(b.oneTime);
    var id, time := LittleEndian(b.signed.keyId, 4), LittleEndian(b.signed.timestamp, 8);
    LengthOf(b.signed.keyId, 4);
    LengthOf(b.signed.timestamp, 8);
    var a1 := b.identity.classical;
    var a2 := a1 + b.identity.pq;
    var a3 := a2 + b.kem.classical;
    var a4 := a3 + b.kem.pq;
    var a5 := a4 + id;
    var a6 := a5 + b.signed.publicKey.classical;
    var a7 := a6 + b.signed.publicKey.pq;
    var a8 := a7 + time;
    assert bytes == a8 + one;
    assert a8[5828..5836] == time && a8[..5828] == a7;
    assert a7[4260..5828] == b.signed.publicKey.pq && a7[..4260] == a6;
    assert a6[4228..4260] == b.signed.publicKey.classical && a6[..4228] == a5;
    assert a5[4224..4228] == id && a5[..4224] == a4;
    assert a4[2656..4224] == b.kem.pq && a4[..2656] == a3;
    assert a3[2624..2656] == b.kem.classical && a3[..2624] == a2;
    assert a2[32..2624] == b.identity.pq && a2[..32] == a1;
  }

  // ---------------------------------------------------------------- hybrid KEM public keys

  datatype ParseError = TooShort | WrongPqSize

  function KemFromBytes(bytes: Bytes): Result<KemBytes, ParseError> {
    if |bytes| < 32 then Failure(TooShort)
    else if |bytes[32..]| != 1568 then Failure(WrongPqSize)
    else Success(KemBytes(bytes[..32], bytes[32..]))
  }

  /** Parsing succeeds exactly on 1600 bytes, and parsing and printing undo each other. */
  lemma KemBytesRoundTrip(k: KemBytes, bytes: Bytes)
    ensures KemFromBytes(EncodeKem(k)) == Success(k)
    ensures KemFromBytes(bytes).Success? <==> |bytes| == 1600
    ensures KemFromBytes(bytes) == Failure(TooShort) <==> |bytes| < 32
    ensures KemFromBytes(bytes).Success? ==> KemFromBytes(bytes).value.classical == bytes[..32]
    ensures KemFromBytes(bytes).Success? ==> EncodeKem(KemFromBytes(bytes).value) == bytes
  {
    assert EncodeKem(k)[..32] == k.classical && EncodeKem(k)[32..] == k.pq;
  }
}
