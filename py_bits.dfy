/**
 * Python's integer bit operators, as the SBUS encoder and decoders use them.
 *
 * Python integers are unbounded and behave as infinite two's-complement bit
 * strings, so:
 *   - `x >> n` is floor division by 2^n (Dafny's `/` with a positive divisor
 *     is floor division as well, also for negative `x`);
 *   - `x & m` with `m == 2^n - 1` keeps the low n bits, i.e. `x mod 2^n`
 *     (Dafny's `%` with a positive modulus agrees, also for negative `x`);
 *   - `x << n` is multiplication by 2^n;
 *   - `x | y` on non-negative operands is the bitwise or, given here
 *     bit by bit.
 */
module PyBits {

  function Pow2(n: nat): (r: nat)
    ensures r >= 1
  {
    if n == 0 then 1 else 2 * Pow2(n - 1)
  }

  /** Python `x >> n`. */
  function Shr(x: int, n: nat): (r: int)
    ensures x >= 0 ==> r >= 0
  {
    if x >= 0 then DivNonNegative(x, Pow2(n)); x / Pow2(n) else x / Pow2(n)
  }

  /** Shifting by nothing leaves the operand as it is. */
  lemma ShrZero(x: int)
    ensures Shr(x, 0) == x
  {
    DivModUnique(x, 1, x, 0);
  }

  /** Python `x << n` on a non-negative operand: it never shrinks `x`, and grows it unless nothing moves. */
  function Shl(x: nat, n: nat): (r: nat)
    ensures x <= r
    ensures r == x <==> n == 0 || x == 0
  {
    if n > 0 && x > 0 then MulMonotone(2, Pow2(n), x); x * Pow2(n) else x * Pow2(n)
  }

  /** `>> n` undoes `<< n`, and `x << n` has its low n bits clear. */
  lemma ShrUndoesShl(x: nat, n: nat)
    ensures Shr(Shl(x, n), n) == x && Shl(x, n) % Pow2(n) == 0
  {
    DivModUnique(x * Pow2(n), Pow2(n), x, 0);
  }

  /** The masks `2^n - 1` that the source applies with `&`. */
  predicate IsLowMask(m: nat)
  {
    m in {0x01, 0x03, 0x07, 0x0F, 0x1F, 0x3F, 0x7F, 0xFF, 0x07FF}
  }

  /** Python `x & m` for a low mask `m`: the low bits of `x`. */
  function And(x: int, m: nat): (r: nat)
    requires IsLowMask(m)
    ensures r <= m
  {
    x % (m + 1)
  }

  /** Python `x | y` on non-negative integers, one bit at a time. */
  function Or(x: nat, y: nat): nat
    decreases x + y
  {
    if x == 0 then y
    else if y == 0 then x
    else 2 * Or(x / 2, y / 2) + (if x % 2 == 1 || y % 2 == 1 then 1 else 0)
  }

  /** `x | y` is never below either operand and never above their sum. */
  lemma {:induction false} OrBounds(x: nat, y: nat)
    ensures x <= Or(x, y) && y <= Or(x, y) <= x + y
    decreases x + y
  {
    if x != 0 && y != 0 {
      OrBounds(x / 2, y / 2);
    }
  }

  /** Bit `k` (weight 2^k) of the two's-complement integer `x`. */
  predicate Bit(x: int, k: nat)
  {
    (x / Pow2(k)) % 2 == 1
  }

  /** The powers of two that the SBUS field widths use. */
  lemma Pow2Table()
    ensures Pow2(1) == 2 && Pow2(2) == 4 && Pow2(3) == 8 && Pow2(4) == 16
    ensures Pow2(5) == 32 && Pow2(6) == 64 && Pow2(7) == 128 && Pow2(8) == 256
    ensures Pow2(11) == 2048
  {
    assert Pow2(8) == 256;
    assert Pow2(11) == 2048;
  }

  lemma {:induction false} Pow2Add(a: nat, b: nat)
    ensures Pow2(a + b) == Pow2(a) * Pow2(b)
  {
    if a > 0 {
      Pow2Add(a - 1, b);
    }
  }

  lemma MulDistributes(a: int, b: int, c: int)
    ensures a * (b + c) == a * b + a * c
  {
  }

  lemma MulAssociates(a: int, b: int, c: int)
    ensures a * (b * c) == (a * b) * c
  {
  }

  lemma MulMonotone(a: int, b: int, c: int)
    requires 0 <= c && a <= b
    ensures c * a <= c * b
  {
    MulDistributes(c, a, b - a);
  }

  lemma DivNonNegative(x: int, d: int)
    requires x >= 0 && d > 0
    ensures x / d >= 0
  {
    if x / d < 0 {
      MulMonotone(x / d, -1, d);
    }
  }

  /** Euclidean division is determined by its defining equation. */
  lemma DivModUnique(x: int, d: int, q: int, r: int)
    requires d > 0 && 0 <= r < d && x == d * q + r
    ensures x / d == q && x % d == r
  {
    var k := q - x / d;
    MulDistributes(d, x / d, k);
    if k >= 1 {
      MulMonotone(1, k, d);
    } else if k <= -1 {
      MulMonotone(k, -1, d);
    }
  }

  /**
   * Dividing by `a` and then by `b` is dividing by `a * b`, and the
   * remainder modulo `a * b` splits into the two remainders.
   */
  lemma DivModNested(x: int, a: int, b: int)
    requires a > 0 && b > 0
    ensures a * b > 0
    ensures x / a / b == x / (a * b)
    ensures x % (a * b) == x % a + a * ((x / a) % b)
  {
    var q1, r1 := x / a, x % a;
    var q2, r2 := q1 / b, q1 % b;
    MulMonotone(1, b, a);
    MulDistributes(a, b * q2, r2);
    MulAssociates(a, b, q2);
    MulMonotone(r2, b - 1, a);
    MulDistributes(a, b, -1);
    DivModUnique(x, a * b, q2, a * r2 + r1);
  }

  /** The bit of `x` at `k + 1` is the bit of `x / 2` at `k`. */
  lemma BitOfHalf(x: int, k: nat)
    ensures Bit(x, k + 1) == Bit(x / 2, k)
  {
    DivModNested(x, 2, Pow2(k));
  }

  /** Or of operands whose bits do not overlap is their sum. */
  lemma {:induction false} OrDisjoint(x: nat, y: nat, n: nat)
    requires x < Pow2(n)
    ensures Or(x, Shl(y, n)) == x + Shl(y, n)
  {
    if n == 0 || x == 0 || y == 0 {
    } else {
      var z := Shl(y, n);
      assert z == 2 * Shl(y, n - 1);
      assert z % 2 == 0 && z / 2 == Shl(y, n - 1);
      OrDisjoint(x / 2, y, n - 1);
      calc {
        Or(x, z);
        2 * Or(x / 2, z / 2) + x % 2;
        2 * (x / 2 + Shl(y, n - 1)) + x % 2;
        x + z;
      }
    }
  }
}
