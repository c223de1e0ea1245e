/**
 * Database keys (BlobMetaOffsetKey in src/volumeserver/VolumeMetaDb.cpp): two 64-bit words in
 * little-endian byte order, compared by the database byte by byte.
 */
module BlobKeys {
  import opened Common

  type Byte = x: int | 0 <= x < 256
  type Bytes = seq<Byte>
  type Key = k: Bytes | |k| == 16 witness seq(16, _ => 0)

  // ---------- little-endian words ----------

  function Pow256(n: nat): (p: nat)
    ensures p > 0
  {
    if n == 0 then 1 else 256 * Pow256(n - 1)
  }

  function ToLE(u: nat, n: nat): (bs: Bytes)
    ensures |bs| == n
  {
    if n == 0 then [] else [u % 256] + ToLE(u / 256, n - 1)
  }

  function FromLE(bs: Bytes): (u: nat)
    ensures u < Pow256(|bs|)
  {
    if bs == [] then 0 else bs[0] + 256 * FromLE(bs[1..])
  }

  lemma {:induction false} FromToLE(u: nat, n: nat)
    requires u < Pow256(n)
    ensures FromLE(ToLE(u, n)) == u
  {
    if n > 0 {
      FromToLE(u / 256, n - 1);
    }
  }

  lemma {:induction false} ToFromLE(bs: Bytes)
    ensures ToLE(FromLE(bs), |bs|) == bs
  {
    if bs != [] {
      var high := FromLE(bs[1..]);
      ToFromLE(bs[1..]);
      assert (bs[0] + 256 * high) % 256 == bs[0] && (bs[0] + 256 * high) / 256 == high;
      assert bs == [bs[0]] + bs[1..];
    }
  }

  function Unsigned(x: Int64): (u: nat)
    ensures u < TWO_TO_THE_64
  {
    if x >= 0 then x else x + TWO_TO_THE_64
  }

  function Signed(u: nat): (x: Int64)
    requires u < TWO_TO_THE_64
    ensures Unsigned(x) == u
  {
    if u < TWO_TO_THE_63 then u else u - TWO_TO_THE_64
  }

  function WordBytes(x: Int64): (bs: Bytes)
    ensures |bs| == 8
  {
    ToLE(Unsigned(x), 8)
  }

  lemma {:induction false} WordRange()
    ensures Pow256(8) == TWO_TO_THE_64
  {
    assert Pow256(4) == 0x1_0000_0000;
    assert Pow256(8) == 256 * 256 * 256 * 256 * Pow256(4);
  }

  function BytesWord(bs: Bytes): (x: Int64)
    requires |bs| == 8
  {
    WordRange();
    Signed(FromLE(bs))
  }

  /** Every 64-bit integer survives encoding, and every 8 bytes survive decoding. */
  lemma {:induction false} WordRoundTrip(x: Int64, bs: Bytes)
    requires |bs| == 8
    ensures BytesWord(WordBytes(x)) == x
    ensures WordBytes(BytesWord(bs)) == bs
  {
    WordRange();
    FromToLE(Unsigned(x), 8);
    ToFromLE(bs);
  }

  // ---------- keys ----------

  function EncodeKey(blobId: Int64, offset: Int64): Key {
    WordBytes(blobId) + WordBytes(offset)
  }

  function BlobIdOf(k: Key): Int64 { BytesWord(k[..8]) }

  function OffsetOf(k: Key): Int64 { BytesWord(k[8..]) }

  /** Keys and (blob, offset) pairs correspond one to one. */
  lemma {:induction false} KeyRoundTrip(blobId: Int64, offset: Int64, k: Key)
    ensures BlobIdOf(EncodeKey(blobId, offset)) == blobId
    ensures OffsetOf(EncodeKey(blobId, offset)) == offset
    ensures EncodeKey(BlobIdOf(k), OffsetOf(k)) == k
  {
    var e := EncodeKey(blobId, offset);
    assert e[..8] == WordBytes(blobId) && e[8..] == WordBytes(offset);
    WordRoundTrip(blobId, k[..8]);
    WordRoundTrip(offset, k[8..]);
    assert k[..8] + k[8..] == k;
  }

  lemma {:induction false} KeyInjective(b1: Int64, o1: Int64, b2: Int64, o2: Int64)
    ensures EncodeKey(b1, o1) == EncodeKey(b2, o2) <==> b1 == b2 && o1 == o2
  {
    KeyRoundTrip(b1, o1, EncodeKey(b1, o1));
    KeyRoundTrip(b2, o2, EncodeKey(b2, o2));
  }

  // ---------- bytewise order ----------

  predicate Less(a: Bytes, b: Bytes) {
    b != [] && (a == [] || a[0] < b[0] || (a[0] == b[0] && Less(a[1..], b[1..])))
  }

  predicate AtMost(a: Bytes, b: Bytes) {
    a == b || Less(a, b)
  }

  lemma {:induction false} LessIsStrictTotal(a: Bytes, b: Bytes)
    ensures !(Less(a, b) && Less(b, a))
    ensures !Less(a, a)
    ensures a == b || Less(a, b) || Less(b, a)
  {
    if a != [] {
      LessIsStrictTotal(a[1..], a[1..]);
      if b != [] && a[0] == b[0] {
        LessIsStrictTotal(a[1..], b[1..]);
        assert a == [a[0]] + a[1..] && b == [b[0]] + b[1..];
      }
    }
  }

  lemma {:induction false} LessTransitive(a: Bytes, b: Bytes, c: Bytes)
    requires Less(a, b) && Less(b, c)
    ensures Less(a, c)
  {
    if a != [] && a[0] == b[0] == c[0] {
      LessTransitive(a[1..], b[1..], c[1..]);
    }
  }

  /** A common prefix does not matter to the order. */
  lemma {:induction false} LessCommonPrefix(p: Bytes, a: Bytes, b: Bytes)
    ensures Less(p + a, p + b) <==> Less(a, b)
  {
    if p == [] {
      assert p + a == a && p + b == b;
    } else {
      LessCommonPrefix(p[1..], a, b);
      assert (p + a)[1..] == p[1..] + a && (p + b)[1..] == p[1..] + b;
    }
  }

  /** Different prefixes of one length decide the order. */
  lemma {:induction false} LessDifferentPrefix(p: Bytes, q: Bytes, a: Bytes, b: Bytes)
    requires |p| == |q| && p != q
    ensures Less(p + a, q + b) <==> Less(p, q)
  {
    if p[0] == q[0] {
      assert p == [p[0]] + p[1..] && q == [q[0]] + q[1..];
      LessDifferentPrefix(p[1..], q[1..], a, b);
      assert (p + a)[1..] == p[1..] + a && (q + b)[1..] == q[1..] + b;
    }
  }

  /** Keys of one blob are ordered by the bytes of their offsets, and no other blob's key lies between two of them. */
  lemma {:induction false} BlobKeysAdjacent(blobId: Int64, s: Int64, o: Int64, k: Key)
    ensures Less(EncodeKey(blobId, s), EncodeKey(blobId, o)) <==> Less(WordBytes(s), WordBytes(o))
    ensures AtMost(EncodeKey(blobId, s), k) && AtMost(k, EncodeKey(blobId, o)) ==> BlobIdOf(k) == blobId
  {
    var p := WordBytes(blobId);
    LessCommonPrefix(p, WordBytes(s), WordBytes(o));
    KeyRoundTrip(blobId, s, k);
    KeyRoundTrip(blobId, o, k);
    var q := k[..8];
    assert k == q + k[8..];
    if q == p {
      WordRoundTrip(blobId, q);
    } else {
      LessDifferentPrefix(p, q, WordBytes(s), k[8..]);
      LessDifferentPrefix(q, p, k[8..], WordBytes(o));
      LessIsStrictTotal(p, q);
      assert EncodeKey(blobId, s)[..8] == p && EncodeKey(blobId, o)[..8] == p;
    }
  }

  // ---------- byte order against numeric order ----------

  lemma {:induction false} ZeroIsLeast(n: nat, a: Bytes)
    requires |a| == n
    ensures AtMost(ToLE(0, n), a)
  {
    if n > 0 {
      ZeroIsLeast(n - 1, a[1..]);
      var z := ToLE(0, n);
      assert z[0] == 0 && z[1..] == ToLE(0, n - 1);
      if z[1..] == a[1..] && a[0] == 0 {
        assert a == [a[0]] + a[1..];
      }
    }
  }

  lemma {:induction false} UnsignedBlock(a: Int64)
    ensures Unsigned(a) % 256 == a % 256
    ensures Unsigned(a) / 256 == a / 256 + if a >= 0 then 0 else TWO_TO_THE_64 / 256
  {
  }

  /** Within one block of 256 offsets the byte order is the numeric order. */
  lemma {:induction false} SameBlockOrder(a: Int64, b: Int64)
    requires a / 256 == b / 256
    ensures Less(WordBytes(a), WordBytes(b)) <==> a < b
  {
    var x: int, y: int := Unsigned(a), Unsigned(b);
    UnsignedBlock(a);
    UnsignedBlock(b);
    var rest := ToLE(x / 256, 7);
    LessIsStrictTotal(rest, rest);
    assert WordBytes(a) == [x % 256] + rest && WordBytes(b) == [y % 256] + rest;
  }

  /** Across blocks it need not be: 256 comes before 1. */
  lemma {:induction false} OrderFailsAcrossBlocks()
    ensures Less(WordBytes(256), WordBytes(1))
  {
    assert WordBytes(256)[0] == 0;
    assert WordBytes(1)[0] == 1;
  }

  /** The bytes of -1 are all 255, so nothing follows them. */
  lemma {:induction false} AllOnesIsGreatest(n: nat, a: Bytes)
    requires |a| == n
    ensures AtMost(a, ToLE(Pow256(n) - 1, n))
  {
    if n > 0 {
      var u := Pow256(n) - 1;
      assert u == 255 + 256 * (Pow256(n - 1) - 1);
      assert u / 256 == Pow256(n - 1) - 1 && u % 256 == 255;
      AllOnesIsGreatest(n - 1, a[1..]);
      var z := ToLE(u, n);
      assert z[0] == 255 && z[1..] == ToLE(Pow256(n - 1) - 1, n - 1);
      if a[1..] == z[1..] && a[0] == 255 {
        assert a == [a[0]] + a[1..];
      }
    }
  }

  lemma {:induction false} MinusOneIsGreatest(x: Int64)
    ensures AtMost(WordBytes(x), WordBytes(-1))
  {
    WordRange();
    AllOnesIsGreatest(8, WordBytes(x));
  }
}
