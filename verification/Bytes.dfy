/**
 Little-endian integers inside byte buffers: what a store through a
 reinterpreted pointer writes and what a load through one reads.
 */
module Bytes {
  import opened Arithmetic

  type Byte = x: int | 0 <= x < 256

  /** `bats_iperf_magic_code`, which opens every block and every control message. */
  const MAGIC: nat := 0xa1b2_c3d4_a5b6_c7d8

  /** The same, as its bytes stand in memory. */
  const MAGIC_BYTES: seq<Byte> := [0xd8, 0xc7, 0xb6, 0xa5, 0xd4, 0xc3, 0xb2, 0xa1]

  lemma MagicBytes()
    ensures ToLE(MAGIC, 8) == MAGIC_BYTES && FromLE(MAGIC_BYTES) == MAGIC
  {
    var w := MAGIC_BYTES;
    assert FromLE(w[8..]) == 0;
    assert FromLE(w[7..]) == 0xa1 by { assert w[7..][1..] == w[8..]; }
    assert FromLE(w[6..]) == 0xa1b2 by { assert w[6..][1..] == w[7..]; }
    assert FromLE(w[5..]) == 0xa1_b2c3 by { assert w[5..][1..] == w[6..]; }
    assert FromLE(w[4..]) == 0xa1b2_c3d4 by { assert w[4..][1..] == w[5..]; }
    assert FromLE(w[3..]) == 0xa1_b2c3_d4a5 by { assert w[3..][1..] == w[4..]; }
    assert FromLE(w[2..]) == 0xa1b2_c3d4_a5b6 by { assert w[2..][1..] == w[3..]; }
    assert FromLE(w[1..]) == 0xa1_b2c3_d4a5_b6c7 by { assert w[1..][1..] == w[2..]; }
    assert w[0..] == w;
    LEInverse(w);
  }

  /** The number of values `n` bytes can hold. */
  function Limit(n: nat): (r: int)
    ensures r > 0
  {
    if n == 0 then 1 else 256 * Limit(n - 1)
  }

  /** The low `n` bytes of `v`, lowest first; higher bytes are cut off as in the store. */
  function ToLE(v: nat, n: nat): (s: seq<Byte>)
    ensures |s| == n
  {
    if n == 0 then [] else [v % 256] + ToLE(v / 256, n - 1)
  }

  function FromLE(s: seq<Byte>): nat {
    if s == [] then 0 else s[0] + 256 * FromLE(s[1..])
  }

  /** Byte `i` of a stored number counts 256 to the power `i`: the lowest byte comes first. */
  lemma {:induction false} ByteAt(v: nat, n: nat, i: nat)
    requires i < n
    ensures ToLE(v, n)[i] == v / Limit(i) % 256
  {
    if i > 0 {
      ByteAt(v / 256, n - 1, i - 1);
      DivTwice(v, Limit(i - 1));
    }
  }

  lemma DivTwice(v: nat, m: int)
    requires m > 0
    ensures v / 256 / m == v / (256 * m)
  {
    var q := v / 256;
    var a, r := q / m, q % m;
    assert q == a * m + r;
    assert v == a * (256 * m) + (256 * r + v % 256) by {
      assert v == 256 * q + v % 256;
      assert 256 * (a * m) == a * (256 * m);
    }
    DivModUnique(v, 256 * m, a, 256 * r + v % 256);
  }

  lemma {:induction false} LERoundTrip(v: nat, n: nat)
    ensures FromLE(ToLE(v, n)) == v % Limit(n)
  {
    if n > 0 {
      LERoundTrip(v / 256, n - 1);
      assert ToLE(v, n)[1..] == ToLE(v / 256, n - 1);
      ModDigit(v, Limit(n - 1));
    }
  }

  /** Taking the low digit off first does not change the remainder. */
  lemma ModDigit(v: nat, m: int)
    requires m > 0
    ensures v % 256 + 256 * ((v / 256) % m) == v % (256 * m)
  {
    var q, d := v / 256, v % 256;
    var a, r := q / m, q % m;
    assert q == a * m + r;
    assert v == a * (256 * m) + (256 * r + d) by {
      assert v == 256 * q + d;
      assert 256 * (a * m) == a * (256 * m);
    }
    DivModUnique(v, 256 * m, a, 256 * r + d);
  }

  /** Reading bytes and storing the number again gives the same bytes. */
  lemma {:induction false} LEInverse(s: seq<Byte>)
    ensures ToLE(FromLE(s), |s|) == s
  {
    if s != [] {
      LEInverse(s[1..]);
      assert FromLE(s) / 256 == FromLE(s[1..]);
    }
  }

  /** A one-bit field. */
  function Bit(b: bool): (r: int)
    ensures 0 <= r <= 1
  {
    if b then 1 else 0
  }

  const U16: int := 0x1_0000
  const U32: int := 0x1_0000_0000
  const U64: int := 0x1_0000_0000_0000_0000

  lemma Limits()
    ensures Limit(1) == 256 && Limit(2) == U16 && Limit(4) == U32 && Limit(8) == U64
  {
    assert Limit(3) == 256 * Limit(2);
    assert Limit(4) == 256 * Limit(3);
    assert Limit(5) == 256 * Limit(4);
    assert Limit(6) == 256 * Limit(5);
    assert Limit(7) == 256 * Limit(6);
  }

  /** `s` with the bytes from `off` on replaced by `b`. */
  function Splice(s: seq<Byte>, off: nat, b: seq<Byte>): (r: seq<Byte>)
    requires off + |b| <= |s|
    ensures |r| == |s|
  {
    s[..off] + b + s[off + |b|..]
  }

  /** The `n`-byte number at offset `off`. */
  function NumAt(s: seq<Byte>, off: nat, n: nat): nat
    requires off + n <= |s|
  {
    FromLE(s[off..off + n])
  }

  /** `s` with an `n`-byte store of `v` at offset `off`. */
  function Store(s: seq<Byte>, off: nat, n: nat, v: nat): (r: seq<Byte>)
    requires off + n <= |s|
    ensures |r| == |s|
  {
    Splice(s, off, ToLE(v, n))
  }

  lemma LoadStored(s: seq<Byte>, off: nat, n: nat, v: nat)
    requires off + n <= |s|
    ensures NumAt(Store(s, off, n, v), off, n) == v % Limit(n)
  {
    LERoundTrip(v, n);
    assert Store(s, off, n, v)[off..off + n] == ToLE(v, n);
  }

  lemma LoadElsewhere(s: seq<Byte>, off: nat, n: nat, v: nat, at: nat, k: nat)
    requires off + n <= |s| && at + k <= |s|
    requires at + k <= off || off + n <= at
    ensures NumAt(Store(s, off, n, v), at, k) == NumAt(s, at, k)
  {
    assert Store(s, off, n, v)[at..at + k] == s[at..at + k];
  }

  /** Writing one piece after the other is writing both. */
  lemma SpliceAppend(s: seq<Byte>, off: nat, a: seq<Byte>, b: seq<Byte>)
    requires off + |a| + |b| <= |s|
    ensures Splice(Splice(s, off, a), off + |a|, b) == Splice(s, off, a + b)
  {
    var t := Splice(s, off, a);
    assert t[..off + |a|] == s[..off] + a;
    assert t[off + |a| + |b|..] == s[off + |a| + |b|..];
    assert s[..off] + (a + b) == s[..off] + a + b;
  }

  /** What was spliced in is what stands there. */
  lemma SplicedPart(s: seq<Byte>, off: nat, b: seq<Byte>)
    requires off + |b| <= |s|
    ensures Splice(s, off, b)[off..off + |b|] == b
    ensures Splice(s, off, b)[..off] == s[..off]
  {
  }

  /** A store through a pointer into a buffer. */
  method StoreAt(a: array<Byte>, off: nat, n: nat, v: nat)
    requires off + n <= a.Length
    modifies a
    ensures a[..] == Store(old(a[..]), off, n, v)
  {
    var bytes := ToLE(v, n);
    forall i | 0 <= i < n {
      a[off + i] := bytes[i];
    }
  }

  /** A load through a pointer into a buffer. */
  method LoadAt(a: array<Byte>, off: nat, n: nat) returns (v: nat)
    requires off + n <= a.Length
    ensures v == NumAt(a[..], off, n)
  {
    assert a[off..off + n] == a[..][off..off + n];
    v := FromLE(a[off..off + n]);
  }
}
