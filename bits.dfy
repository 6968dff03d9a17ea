/** Unsigned integers of a fixed width and their bitwise exclusive or,
  * stated on `nat` so that they mix with the arithmetic of the hashes. */
module Bits {
  function Pow2(n: nat): (p: nat)
    ensures p >= 1
  {
    if n == 0 then 1 else 2 * Pow2(n - 1)
  }

  /** The exclusive or of the low n bits of a and b. */
  function Xor(a: nat, b: nat, n: nat): (r: nat)
    ensures r < Pow2(n)
  {
    if n == 0 then 0
    else 2 * Xor(a / 2, b / 2, n - 1) + (if a % 2 == b % 2 then 0 else 1)
  }

  lemma {:induction false} DivMod2(a: nat, k: nat)
    requires k >= 1
    ensures (a % Pow2(k)) / 2 == (a / 2) % Pow2(k - 1)
    ensures (a % Pow2(k)) % 2 == a % 2
  {
    var m := Pow2(k - 1);
    assert Pow2(k) == 2 * m;
    var q, r := a / 2, a % 2;
    assert a == 2 * q + r;
    var q1, r1 := q / m, q % m;
    assert q == m * q1 + r1;
    assert a == (2 * m) * q1 + (2 * r1 + r);
    assert 0 <= 2 * r1 + r < 2 * m;
    DivModUnique(a, 2 * m, q1, 2 * r1 + r);
  }

  lemma DivModUnique(a: nat, d: nat, q: nat, r: nat)
    requires d >= 1 && a == d * q + r && r < d
    ensures a % d == r && a / d == q
  {
    var q0, r0 := a / d, a % d;
    assert a == d * q0 + r0;
    if q > q0 {
      MulAtLeast(d, q - q0);
    } else if q < q0 {
      MulAtLeast(d, q0 - q);
    }
  }

  lemma MulAtLeast(d: nat, k: nat)
    requires k >= 1
    ensures d * k >= d
  {
  }

  /** Only the low n bits of the operands matter. */
  lemma {:induction false} XorLowOperands(a: nat, b: nat, n: nat)
    ensures Xor(a, b, n) == Xor(a % Pow2(n), b % Pow2(n), n)
  {
    if n >= 1 {
      DivMod2(a, n);
      DivMod2(b, n);
      XorLowOperands(a / 2, b / 2, n - 1);
    }
  }

  /** The low k bits of an n-bit exclusive or are the k-bit exclusive or. */
  lemma {:induction false} XorLowBits(a: nat, b: nat, n: nat, k: nat)
    requires k <= n
    ensures Xor(a, b, n) % Pow2(k) == Xor(a, b, k)
  {
    if k >= 1 {
      XorLowBits(a / 2, b / 2, n - 1, k - 1);
      var bit := if a % 2 == b % 2 then 0 else 1;
      ShiftInBit(Xor(a / 2, b / 2, n - 1), bit, k);
    }
  }

  /** Appending a low bit commutes with keeping the low bits. */
  lemma ShiftInBit(x: nat, bit: nat, k: nat)
    requires bit < 2 && k >= 1
    ensures (2 * x + bit) % Pow2(k) == 2 * (x % Pow2(k - 1)) + bit
  {
    var m := Pow2(k - 1);
    assert x == m * (x / m) + x % m;
    assert 2 * x + bit == (2 * m) * (x / m) + (2 * (x % m) + bit);
    DivModUnique(2 * x + bit, 2 * m, x / m, 2 * (x % m) + bit);
  }

  /** With one operand fixed, exclusive or is one-to-one on n-bit values. */
  lemma {:induction false} XorInjective(x: nat, a: nat, b: nat, n: nat)
    requires a < Pow2(n) && b < Pow2(n)
    requires Xor(x, a, n) == Xor(x, b, n)
    ensures a == b
  {
    if n >= 1 {
      var ba := if x % 2 == a % 2 then 0 else 1;
      var bb := if x % 2 == b % 2 then 0 else 1;
      assert 2 * Xor(x / 2, a / 2, n - 1) + ba == 2 * Xor(x / 2, b / 2, n - 1) + bb;
      assert ba == bb;
      XorInjective(x / 2, a / 2, b / 2, n - 1);
    }
  }

  lemma {:induction false} Pow2Add(a: nat, b: nat)
    ensures Pow2(a + b) == Pow2(a) * Pow2(b)
  {
    if a >= 1 {
      Pow2Add(a - 1, b);
      assert Pow2(a + b) == 2 * Pow2(a - 1 + b);
    }
  }

  /** The widths the source uses. */
  lemma Pow2Widths()
    ensures Pow2(8) == 0x100
    ensures Pow2(32) == 0x1_0000_0000
    ensures Pow2(64) == 0x1_0000_0000_0000_0000
  {
    assert Pow2(4) == 16;
    Pow2Add(4, 4);
    Pow2Add(8, 8);
    Pow2Add(16, 16);
    Pow2Add(32, 32);
  }

  /** (x mod d) * p and x * p agree modulo d. */
  lemma ModMulLeft(x: nat, p: nat, d: nat)
    requires d >= 1
    ensures ((x % d) * p) % d == (x * p) % d
  {
    var r := x % d;
    DivModParts(x, d);
    DivModParts(r * p, d);
    ModMulSteps(x, p, d, x / d, r, (r * p) / d, (r * p) % d);
  }

  lemma ModMulSteps(x: nat, p: nat, d: nat, q: nat, r: nat, q2: nat, r2: nat)
    requires d >= 1 && x == d * q + r && r * p == d * q2 + r2 && r2 < d
    ensures (x * p) % d == r2
  {
    Distribute(d, q, r, p);
    Regroup(d, q * p, q2, r2);
    DivModUnique(x * p, d, q * p + q2, r2);
  }

  /** The Euclidean division of a by d. */
  lemma DivModParts(a: nat, d: nat)
    requires d >= 1
    ensures a == d * (a / d) + a % d && a % d < d
  {
  }

  lemma Distribute(d: nat, q: nat, r: nat, p: nat)
    ensures (d * q + r) * p == d * (q * p) + r * p
  {
  }

  lemma Regroup(d: nat, a: nat, b: nat, r: nat)
    ensures d * a + (d * b + r) == d * (a + b) + r
  {
  }

  lemma Associate(d: nat, k: nat, q: nat)
    ensures (d * k) * q == d * (k * q)
  {
  }

  /** Reducing modulo a multiple of d first does not change the remainder. */
  lemma ModOfMultiple(y: nat, d: nat, k: nat)
    requires d >= 1 && k >= 1
    ensures (y % (d * k)) % d == y % d
  {
    MulAtLeast(d, k);
    var q, r := y / (d * k), y % (d * k);
    var q2, r2 := r / d, r % d;
    DivModParts(y, d * k);
    DivModParts(r, d);
    Associate(d, k, q);
    Regroup(d, k * q, q2, r2);
    DivModUnique(y, d, k * q + q2, r2);
  }
}
