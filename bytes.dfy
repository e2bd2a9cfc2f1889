/**
 * Byte buffers holding fixed-width big-endian integers, and JavaScript's
 * 32-bit integer conversion.
 */
module Bytes {
  type Byte = b: int | 0 <= b < 256

  function Pow256(n: nat): (p: nat)
    ensures p >= 1
  {
    if n == 0 then 1 else 256 * Pow256(n - 1)
  }

  /**
   * The `width` low-order bytes of `n`, most significant first; for a
   * negative `n` this is its two's complement.
   */
  function BigEndian(n: int, width: nat): (b: seq<Byte>)
    ensures |b| == width
    decreases width
  {
    if width == 0 then [] else BigEndian(n / 256, width - 1) + [n % 256]
  }

  /** The unsigned integer a big-endian buffer holds. */
  function BytesValue(b: seq<Byte>): (v: nat)
    ensures v < Pow256(|b|)
  {
    if b == [] then 0 else BytesValue(b[..|b| - 1]) * 256 + b[|b| - 1]
  }

  /** The remainder is the only one in range: `n == m * a + c` with `0 <= c < m` gives `n % m == c`. */
  lemma ModOfDecomposition(n: int, m: int, a: int, c: int)
    requires m > 0 && 0 <= c < m && n == m * a + c
    ensures n % m == c && n / m == a
  {
    var q, r := n / m, n % m;
    assert n == m * q + r;
    var d := a - q;
    assert m * d == r - c;
    if d > 0 {
      assert m * d == m * (d - 1) + m;
      NonNegativeProduct(m, d - 1);
    } else if d < 0 {
      assert m * -d == m * (-d - 1) + m;
      NonNegativeProduct(m, -d - 1);
    }
  }

  lemma NonNegativeProduct(x: int, y: int)
    requires x >= 0 && y >= 0
    ensures x * y >= 0
  {
  }

  /** Encoding then reading back keeps `n` modulo the width. */
  lemma {:induction false} BigEndianValue(n: int, width: nat)
    ensures BytesValue(BigEndian(n, width)) == n % Pow256(width)
    decreases width
  {
    if width == 0 {
      assert n % 1 == 0;
    } else {
      var b := BigEndian(n, width);
      var p := Pow256(width - 1);
      BigEndianValue(n / 256, width - 1);
      assert b[..|b| - 1] == BigEndian(n / 256, width - 1);
      LowByteSplit(n, p);
    }
  }

  /** Splitting off the low byte: `n % (256 * p)` is the low byte below `(n / 256) % p`. */
  lemma LowByteSplit(n: int, p: int)
    requires p >= 1
    ensures ((n / 256) % p) * 256 + n % 256 == n % (256 * p)
  {
    var q, r := n / 256, n % 256;
    var a, c := q / p, q % p;
    assert q == p * a + c;
    assert n == 256 * q + r;
    assert n == (256 * p) * a + (256 * c + r);
    assert 0 <= 256 * c + r < 256 * p;
    ModOfDecomposition(n, 256 * p, a, 256 * c + r);
  }

  /** Reading a buffer and writing the value back gives the same buffer. */
  lemma {:induction false} ValueBigEndian(b: seq<Byte>)
    ensures BigEndian(BytesValue(b), |b|) == b
  {
    if b != [] {
      var init := b[..|b| - 1];
      ValueBigEndian(init);
      var v := BytesValue(b);
      ModOfDecomposition(v, 256, BytesValue(init), b[|b| - 1]);
      assert init + [b[|b| - 1]] == b;
    }
  }

  /** ToInt32: the signed 32-bit integer congruent to `x` modulo 2^32. */
  function ToInt32(x: int): (r: int)
    ensures -0x8000_0000 <= r < 0x8000_0000
    ensures (x - r) % 0x1_0000_0000 == 0
  {
    ((x + 0x8000_0000) % 0x1_0000_0000) - 0x8000_0000
  }
}
