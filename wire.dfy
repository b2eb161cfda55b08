/**
 * Fixed-width integers of the C++ core (`uint8_t` .. `uint64_t`, `int`) and
 * their byte images on the wire.  The core copies integers to and from
 * streams in native byte order; the model fixes that order to little-endian,
 * the order of the x86 targets the program is built for.
 */
module Wire {

  /** One octet of a stream. */
  type byte = b: int | 0 <= b < 0x100

  type U8 = x: int | 0 <= x < 0x100
  type U16 = x: int | 0 <= x < 0x1_0000
  type U32 = x: int | 0 <= x < 0x1_0000_0000
  type U64 = x: int | 0 <= x < 0x1_0000_0000_0000_0000

  /** The C++ `int` (32-bit two's complement). */
  type Int32 = x: int | -0x8000_0000 <= x < 0x8000_0000

  /** Widths in bytes of the primitive types that cross the wire. */
  const SIZE_T: nat := 8
  const CONTENT_LEN_SIZE: nat := 8
  const WCHAR_SIZE: nat := 2

  function Pow256(n: nat): (r: nat)
    ensures r >= 1
    ensures n > 0 ==> r >= 256
  {
    if n == 0 then 1 else 256 * Pow256(n - 1)
  }

  /** The n-byte little-endian image of x, reduced modulo 256^n as a store into an n-byte integer does. */
  function LE(x: nat, n: nat): (bs: seq<byte>)
    ensures |bs| == n
  {
    if n == 0 then [] else [x % 256] + LE(x / 256, n - 1)
  }

  /** The unsigned value of a little-endian byte sequence. */
  function FromLE(bs: seq<byte>): (x: nat)
    ensures x < Pow256(|bs|)
  {
    if bs == [] then 0 else bs[0] + 256 * FromLE(bs[1..])
  }

  lemma MulAtLeast(m: nat, k: int)
    requires k >= 1
    ensures m * k >= m
  {
  }

  /** Quotient and remainder are unique: the division identity pins them down. */
  lemma ModOfSplit(x: nat, m: nat, q: int, c: nat)
    requires m > 0 && x == m * q + c && c < m
    ensures x % m == c && x / m == q
  {
    var q', c' := x / m, x % m;
    assert x == m * q' + c';
    assert m * (q - q') == c' - c;
    if q > q' {
      MulAtLeast(m, q - q');
    } else if q' > q {
      MulAtLeast(m, q' - q);
    }
  }

  lemma MulLess(b: nat, p: nat)
    requires b < p
    ensures 256 * b + 256 <= 256 * p
  {
  }

  lemma Regroup(x: nat, q: nat, r: nat, p: nat, a: int, b: nat)
    requires x == 256 * q + r && q == p * a + b
    ensures x == (256 * p) * a + (256 * b + r)
  {
    assert 256 * q == 256 * (p * a) + 256 * b;
    assert 256 * (p * a) == (256 * p) * a;
  }

  /** Reducing modulo 256p keeps the low byte and reduces the rest modulo p. */
  lemma ModOfByteSplit(x: nat, p: nat)
    requires p > 0
    ensures x % (256 * p) == x % 256 + 256 * ((x / 256) % p)
  {
    var q, r := x / 256, x % 256;
    var b := q % p;
    Regroup(x, q, r, p, q / p, b);
    assert 256 * b + r < 256 * p by { MulLess(b, p); }
    ModOfSplit(x, 256 * p, q / p, 256 * b + r);
  }

  /** Reading back an n-byte image yields the value reduced to n bytes. */
  lemma {:induction false} FromLEOfLE(x: nat, n: nat)
    ensures FromLE(LE(x, n)) == x % Pow256(n)
  {
    if n > 0 {
      var p := Pow256(n - 1);
      FromLEOfLE(x / 256, n - 1);
      assert LE(x, n)[1..] == LE(x / 256, n - 1);
      assert FromLE(LE(x, n)) == x % 256 + 256 * ((x / 256) % p);
      ModOfByteSplit(x, p);
    }
  }

  /** A value below 256^n survives the round trip unchanged. */
  lemma LERoundTrip(x: nat, n: nat)
    requires x < Pow256(n)
    ensures FromLE(LE(x, n)) == x
  {
    FromLEOfLE(x, n);
  }

  /** Every byte sequence is the image of its own value. */
  lemma {:induction false} LEOfFromLE(bs: seq<byte>)
    ensures LE(FromLE(bs), |bs|) == bs
  {
    if bs != [] {
      var v := FromLE(bs[1..]);
      ModOfSplit(FromLE(bs), 256, v, bs[0]);
      LEOfFromLE(bs[1..]);
    }
  }

  /** Two's complement conversions between `int` and its 32-bit pattern. */
  function I32Bits(i: Int32): (u: U32)
    ensures i >= 0 ==> u == i
    ensures i < 0 ==> u == i + 0x1_0000_0000
  {
    if i < 0 then i + 0x1_0000_0000 else i
  }

  function I32OfBits(u: U32): (i: Int32)
    ensures I32Bits(i) == u
  {
    if u < 0x8000_0000 then u else u - 0x1_0000_0000
  }

  lemma I32BitsRoundTrip(i: Int32)
    ensures I32OfBits(I32Bits(i)) == i
  {
  }

  /** Reduction of an arbitrary integer into `int`, as a 32-bit register wraps. */
  function Wrap32(x: int): (i: Int32)
    ensures (i - x) % 0x1_0000_0000 == 0
    ensures -0x8000_0000 <= x < 0x8000_0000 ==> i == x
  {
    I32OfBits(x % 0x1_0000_0000)
  }

  /** Reduction into `uint64_t` (unsigned arithmetic wraps modulo 2^64). */
  function Wrap64(x: int): (u: U64)
    ensures (u - x) % 0x1_0000_0000_0000_0000 == 0
    ensures 0 <= x < 0x1_0000_0000_0000_0000 ==> u == x
  {
    x % 0x1_0000_0000_0000_0000
  }

  lemma Pow256Values()
    ensures Pow256(1) == 0x100 && Pow256(2) == 0x1_0000 && Pow256(4) == 0x1_0000_0000
    ensures Pow256(8) == 0x1_0000_0000_0000_0000
  {
    assert Pow256(2) == 0x1_0000;
    assert Pow256(4) == 0x1_0000_0000 by { assert Pow256(3) == 0x100_0000; }
    assert Pow256(8) == 0x1_0000_0000_0000_0000 by {
      assert Pow256(5) == 0x100_0000_0000;
      assert Pow256(6) == 0x1_0000_0000_0000;
      assert Pow256(7) == 0x100_0000_0000_0000;
    }
  }

  function Zeros(n: nat): (z: seq<byte>)
    ensures |z| == n && forall i :: 0 <= i < n ==> z[i] == 0
  {
    seq(n, _ => 0)
  }
}
