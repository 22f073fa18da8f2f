/**
 * Bit-level arithmetic on unbounded naturals.
 *
 * Shifts and masks by a power of two are written with `/` and `%`:
 * `x >> k` is `x / 2^k` and `x & (2^k - 1)` is `x % 2^k`. For a positive
 * divisor Dafny's `/` and `%` are floor division and a non-negative
 * remainder, which is also what Python's `>>` and `&` compute on negative
 * ints, so the same expressions serve both SDKs. The bitwise `|` is `Or`,
 * defined bit by bit; `OrDisjoint` turns it into `+` when the operands occupy
 * different bits, as in every identifier and payload layout of J1939.
 */
module Bits {

  /** One byte, as C's uint8_t and as an element of a Python bytes object. */
  type Byte = x: int | 0 <= x < 0x100

  /** C's uint16_t. */
  type U16 = x: int | 0 <= x < 0x1_0000

  /** C's uint32_t. */
  type U32 = x: int | 0 <= x < 0x1_0000_0000

  function Pow2(n: nat): (r: nat)
    ensures r >= 1
  {
    if n == 0 then 1 else 2 * Pow2(n - 1)
  }

  /** Bitwise OR of two naturals. */
  function Or(a: nat, b: nat): (r: nat)
    decreases a + b
  {
    if a == 0 then b
    else if b == 0 then a
    else 2 * Or(a / 2, b / 2) + (if a % 2 == 1 || b % 2 == 1 then 1 else 0)
  }

  lemma {:induction false} OrComm(a: nat, b: nat)
    ensures Or(a, b) == Or(b, a)
    decreases a + b
  {
    if a != 0 && b != 0 {
      OrComm(a / 2, b / 2);
    }
  }

  /** OR never loses a set bit, so it is at least as large as either operand. */
  lemma {:induction false} OrAtLeast(a: nat, b: nat)
    ensures Or(a, b) >= a && Or(a, b) >= b
    decreases a + b
  {
    if a != 0 && b != 0 {
      OrAtLeast(a / 2, b / 2);
    }
  }

  lemma {:induction false} Pow2Add(m: nat, n: nat)
    ensures Pow2(m + n) == Pow2(m) * Pow2(n)
    decreases m
  {
    if m > 0 {
      Pow2Add(m - 1, n);
      assert Pow2(m + n) == 2 * Pow2(m - 1 + n);
    }
  }

  lemma Pow2Values()
    ensures Pow2(8) == 0x100 && Pow2(16) == 0x1_0000 && Pow2(17) == 0x2_0000 && Pow2(24) == 0x100_0000
  {
    assert Pow2(8) == 0x100;
    Pow2Add(8, 8);
    Pow2Add(16, 8);
    assert Pow2(17) == 2 * Pow2(16);
  }

  /**
   * When `a` has no bit below position k and `b` has no bit at or above it,
   * `a | b` is `a + b`; `a` is written `c * 2^k`.
   */
  lemma {:induction false} OrDisjoint(c: nat, b: nat, k: nat)
    requires b < Pow2(k)
    ensures Or(c * Pow2(k), b) == c * Pow2(k) + b
    decreases k
  {
    var a := c * Pow2(k);
    if a != 0 && b != 0 {
      var p := Pow2(k - 1);
      var half := c * p;
      assert a == 2 * half;
      OrDisjoint(c, b / 2, k - 1);
      assert Or(a / 2, b / 2) == half + b / 2;
    }
  }

  /**
   * OrDisjoint at the shifts the J1939 layouts use, with the power of two
   * written out: when x is `c << k` and b fits below bit k, `x | b` and
   * `b | x` are `x + b`.
   */
  lemma OrAdd(x: nat, c: nat, b: nat, m: nat)
    requires m in {0x100, 0x1_0000, 0x2_0000, 0x100_0000} && b < m && x == c * m
    ensures Or(x, b) == x + b && Or(b, x) == x + b
  {
    Pow2Values();
    var k := if m == 0x100 then 8 else if m == 0x1_0000 then 16 else if m == 0x2_0000 then 17 else 24;
    assert Pow2(k) == m;
    OrDisjoint(c, b, k);
    OrComm(b, x);
  }

  /** Adding a multiple of d moves the quotient by that multiple and leaves the remainder. */
  lemma DivModAdd(q: int, r: int, d: int)
    requires d > 0
    ensures (q * d + r) / d == q + r / d
    ensures (q * d + r) % d == r % d
  {
    var x := q * d + r;
    assert x == (q + r / d) * d + r % d;
    DivModUnique(x, q + r / d, r % d, d);
  }

  /** Division is determined by any quotient and remainder that rebuild the dividend. */
  lemma DivModUnique(x: int, a: int, b: int, d: int)
    requires d > 0 && 0 <= b < d && x == a * d + b
    ensures x / d == a && x % d == b
  {
    var a2, b2 := x / d, x % d;
    assert x == a2 * d + b2;
    var k := a - a2;
    assert k * d == a * d - a2 * d;
    if k >= 1 {
      MulAtLeast(k, d);
    } else if k <= -1 {
      MulAtLeast(-k, d);
    }
  }

  lemma MulAtLeast(k: int, d: int)
    requires k >= 1 && d > 0
    ensures k * d >= d
  {
    assert k * d == (k - 1) * d + d;
  }

  /**
   * A field `x / d % m` of `x = q * (k * d) + r` does not see q when m
   * divides k: bits above the field do not reach it.
   */
  lemma HighBitsField(x: int, q: int, r: int, k: int, d: int, m: int)
    requires d > 0 && m > 0 && k % m == 0 && x == q * k * d + r
    ensures x / d % m == r / d % m
  {
    DivModAdd(q * k, r, d);
    assert q * k == q * (k / m) * m;
    DivModAdd(q * (k / m), r / d, m);
  }

  /** `x & 0xFF` and `(x >> 8) & 0xFF` of any int rebuild it modulo 2^16. */
  lemma TwoBytes(p: int)
    ensures p % 0x100 + 0x100 * (p / 0x100 % 0x100) == p % 0x1_0000
  {
    var q, r := p / 0x1_0000, p % 0x1_0000;
    HighBitsField(p, q, r, 0x100, 0x100, 0x100);
    HighBitsField(p, q, r, 0x1_0000, 1, 0x100);
    var b0, t := r % 0x100, r / 0x100;
    assert r == t * 0x100 + b0;
    assert t < 0x100;
  }

  /** `x & 0xFF`, `(x >> 8) & 0xFF` and `(x >> 16) & 0xFF` of any int rebuild it modulo 2^24. */
  lemma ThreeBytes(p: int)
    ensures p % 0x100 + 0x100 * (p / 0x100 % 0x100) + 0x1_0000 * (p / 0x1_0000 % 0x100) == p % 0x100_0000
  {
    var q, r := p / 0x100_0000, p % 0x100_0000;
    HighBitsField(p, q, r, 0x1_0000, 0x100, 0x100);
    HighBitsField(p, q, r, 0x100, 0x1_0000, 0x100);
    HighBitsField(p, q, r, 0x100_0000, 1, 0x100);
    var b0, t := r % 0x100, r / 0x100;
    var b1, b2 := t % 0x100, t / 0x100;
    assert r == t * 0x100 + b0 && t == b2 * 0x100 + b1;
    DivModUnique(r, b2, b1 * 0x100 + b0, 0x1_0000);
    assert b2 < 0x100;
  }

  /** `lo | (hi << 8)`: two bytes read little-endian. */
  function Le16(lo: Byte, hi: Byte): (r: U16)
    ensures r == lo + 0x100 * hi
    ensures r % 0x100 == lo && r / 0x100 == hi
  {
    var top := hi * 0x100;
    OrAdd(top, hi, lo, 0x100);
    DivModUnique(lo + 0x100 * hi, hi, lo, 0x100);
    Or(lo, top)
  }

  /** `b0 | (b1 << 8) | (b2 << 16)`: three bytes read little-endian. */
  function Le24(b0: Byte, b1: Byte, b2: Byte): (r: nat)
    ensures r == b0 + 0x100 * b1 + 0x1_0000 * b2
    ensures r < 0x100_0000
    ensures r % 0x100 == b0 && r / 0x100 % 0x100 == b1 && r / 0x1_0000 == b2
  {
    var low := Le16(b0, b1);
    var top := b2 * 0x1_0000;
    OrAdd(top, b2, low, 0x1_0000);
    var r := b0 + 0x100 * b1 + 0x1_0000 * b2;
    DivModUnique(r, b2, low, 0x1_0000);
    DivModUnique(r, b1 + 0x100 * b2, b0, 0x100);
    DivModUnique(b1 + 0x100 * b2, b2, b1, 0x100);
    Or(low, top)
  }
}
