/** C's bitwise operators on unsigned integers, defined bit by bit on `nat`.
    A left shift by k of a 32-bit word is `(x * Pow2(k)) % TWO32`, a right shift
    is `x / Pow2(k)`. The lemmas turn the masks and disjunctions that the
    repository's code uses into arithmetic. */
module Bits {
  const TWO32: nat := 0x1_0000_0000

  function Pow2(k: nat): (p: nat)
    ensures p > 0
  {
    if k == 0 then 1 else 2 * Pow2(k - 1)
  }

  predicate Bit(x: nat, d: nat) {
    if d == 0 then x % 2 == 1 else Bit(x / 2, d - 1)
  }

  /** `x >> k`. */
  function Shr(x: nat, k: nat): nat {
    if k == 0 then x else Shr(x / 2, k - 1)
  }

  function And(x: nat, y: nat): nat
    decreases x
  {
    if x == 0 then 0 else 2 * And(x / 2, y / 2) + (x % 2) * (y % 2)
  }

  function Or(x: nat, y: nat): nat
    decreases x + y
  {
    if x == 0 then y else 2 * Or(x / 2, y / 2) + (if x % 2 == 1 || y % 2 == 1 then 1 else 0)
  }

  function Xor(x: nat, y: nat): nat
    decreases x + y
  {
    if x == 0 && y == 0 then 0 else 2 * Xor(x / 2, y / 2) + (if x % 2 == y % 2 then 0 else 1)
  }

  lemma {:induction false} Pow2Add(j: nat, k: nat)
    ensures Pow2(j + k) == Pow2(j) * Pow2(k)
  {
    if j > 0 { Pow2Add(j - 1, k); }
  }

  lemma Pow2Values()
    ensures Pow2(4) == 0x10 && Pow2(6) == 0x40 && Pow2(8) == 0x100 && Pow2(12) == 0x1000 && Pow2(14) == 0x4000
    ensures Pow2(16) == 0x1_0000 && Pow2(18) == 0x4_0000 && Pow2(20) == 0x10_0000
    ensures Pow2(24) == 0x100_0000 && Pow2(26) == 0x400_0000 && Pow2(32) == TWO32
  {
    assert Pow2(8) == 0x100;
    Pow2Add(8, 8);
    Pow2Add(16, 2); Pow2Add(16, 4); Pow2Add(16, 8); Pow2Add(18, 8); Pow2Add(16, 16);
    assert Pow2(2) == 4 && Pow2(4) == 16;
  }

  // Facts about single bits

  lemma {:induction false} OrBit(x: nat, y: nat, d: nat)
    ensures Bit(Or(x, y), d) <==> Bit(x, d) || Bit(y, d)
    decreases d
  {
    if x == 0 { ZeroBit(d); } else if d > 0 { OrBit(x / 2, y / 2, d - 1); }
  }

  lemma {:induction false} ZeroBit(d: nat)
    ensures !Bit(0, d)
  {
    if d > 0 { ZeroBit(d - 1); }
  }

  lemma {:induction false} Pow2Bit(k: nat, d: nat)
    ensures Bit(Pow2(k), d) <==> d == k
  {
    if k == 0 { if d > 0 { ZeroBit(d - 1); } } else if d > 0 { Pow2Bit(k - 1, d - 1); }
  }

  lemma {:induction false} TimesPow2Bit(x: nat, k: nat, d: nat)
    ensures Bit(x * Pow2(k), d) <==> d >= k && Bit(x, d - k)
    decreases k
  {
    if k > 0 {
      assert x * Pow2(k) == 2 * (x * Pow2(k - 1));
      if d > 0 { TimesPow2Bit(x, k - 1, d - 1); }
    }
  }

  lemma {:induction false} ModHalf(x: nat, m: nat)
    requires m > 0
    ensures (x % (2 * m)) % 2 == x % 2
    ensures (x % (2 * m)) / 2 == (x / 2) % m
  {
    var q, r := x / (2 * m), x % (2 * m);
    assert x == 2 * (m * q) + r;
    assert x / 2 == m * q + r / 2;
    ModUnique(x / 2, m, q, r / 2);
  }

  lemma {:induction false} ModUnique(x: int, m: int, q: int, r: int)
    requires m > 0 && 0 <= r < m && x == m * q + r
    ensures x % m == r && x / m == q
  {
    var d := q - x / m;
    assert m * d == x % m - r by { assert m * d == m * q - m * (x / m); }
    MulAway(m, d);
  }

  lemma MulAway(m: int, d: int)
    requires m > 0
    ensures d >= 1 ==> m * d >= m
    ensures d <= -1 ==> m * d <= -m
  {
    if d >= 1 { assert m * (d - 1) >= 0; }
    if d <= -1 { assert m * (-1 - d) >= 0; }
  }

  lemma {:induction false} ModPow2Bit(x: nat, n: nat, d: nat)
    ensures Bit(x % Pow2(n), d) <==> d < n && Bit(x, d)
    decreases n
  {
    if n == 0 {
      ZeroBit(d);
    } else {
      var h := Pow2(n - 1);
      ModHalf(x, h);
      if d > 0 { ModPow2Bit(x / 2, n - 1, d - 1); }
    }
  }

  // Masks and disjoint disjunctions as arithmetic

  /** `x & (2^k - 1)` is the remainder modulo 2^k. */
  lemma {:induction false} AndLowMask(x: nat, k: nat)
    ensures And(x, Pow2(k) - 1) == x % Pow2(k)
    decreases k
  {
    if k == 0 {
      AndZero(x);
    } else if x == 0 {
      ModUnique(0, Pow2(k), 0, 0);
    } else {
      var h := Pow2(k - 1);
      AndLowMask(x / 2, k - 1);
      AndStep(x, 2 * h - 1);
      assert (2 * h - 1) / 2 == h - 1 && (2 * h - 1) % 2 == 1;
      ModHalf(x, h);
    }
  }

  lemma {:induction false} AndStep(x: nat, y: nat)
    ensures And(x, y) == 2 * And(x / 2, y / 2) + (x % 2) * (y % 2)
  {
  }

  lemma {:induction false} AndZero(x: nat)
    ensures And(x, 0) == 0
  {
    if x > 0 { AndZero(x / 2); }
  }

  lemma {:induction false} DivPow2(x: nat, k: nat)
    ensures x / Pow2(k) == Shr(x, k)
  {
    if k > 0 {
      var h := Pow2(k - 1);
      DivPow2(x / 2, k - 1);
      DivDiv(x, h);
    }
  }

  lemma DivDiv(x: nat, h: nat)
    requires h > 0
    ensures (x / 2) / h == x / (2 * h)
  {
    ModHalf(x, h);
    var q, r := x / (2 * h), x % (2 * h);
    assert x == 2 * (h * q) + r;
    ModUnique(x / 2, h, q, r / 2);
  }

  /** A mask splits at any bit position. */
  lemma {:induction false} AndSplit(x: nat, y: nat, high: nat, low: nat, k: nat)
    requires low < Pow2(k) && y == high * Pow2(k) + low
    ensures And(x, y) == And(Shr(x, k), high) * Pow2(k) + And(x % Pow2(k), low)
    decreases k
  {
    if k == 0 {
      AndZero(0);
    } else {
      var h := Pow2(k - 1);
      HalfSum(high, h, low);
      AndSplit(x / 2, y / 2, high, low / 2, k - 1);
      AndSplitStep(x, y, low, h);
      MulDouble(And(Shr(x, k), high), h);
    }
  }

  lemma MulDouble(a: nat, h: nat)
    ensures a * (2 * h) == 2 * (a * h)
  {
  }

  lemma AndSplitStep(x: nat, y: nat, low: nat, h: nat)
    requires h > 0 && y % 2 == low % 2
    ensures And(x, y) - 2 * And(x / 2, y / 2) == And(x % (2 * h), low) - 2 * And((x / 2) % h, low / 2)
  {
    ModHalf(x, h);
    AndStep(x, y);
    AndStep(x % (2 * h), low);
  }

  lemma HalfSum(high: nat, h: nat, low: nat)
    ensures (high * (2 * h) + low) / 2 == high * h + low / 2
    ensures (high * (2 * h) + low) % 2 == low % 2
  {
    var t := high * h;
    assert high * (2 * h) == 2 * t;
  }

  /** Disjoint bit ranges: `|` is `+`. */
  lemma {:induction false} OrDisjoint(low: nat, high: nat, k: nat)
    requires low < Pow2(k)
    ensures Or(low, high * Pow2(k)) == low + high * Pow2(k)
    decreases k
  {
    if k > 0 && low > 0 {
      var h := Pow2(k - 1);
      assert high * Pow2(k) == 2 * (high * h);
      OrDisjoint(low / 2, high, k - 1);
    }
  }

  lemma {:induction false} OrZero(x: nat)
    ensures Or(x, 0) == x
  {
    if x > 0 { OrZero(x / 2); }
  }

  lemma {:induction false} AndOnes(x: nat, k: nat)
    requires x < Pow2(k)
    ensures And(x, Pow2(k) - 1) == x
  {
    AndLowMask(x, k);
    ModUnique(x, Pow2(k), 0, x);
  }

  // Exclusive or

  lemma {:induction false} XorCancel(x: nat, y: nat)
    ensures Xor(Xor(x, y), y) == x
    decreases x + y
  {
    if x > 0 || y > 0 {
      XorCancel(x / 2, y / 2);
      XorHalves(x, y);
      XorHalves(Xor(x, y), y);
    }
  }

  lemma {:induction false} XorHalves(x: nat, y: nat)
    ensures Xor(x, y) / 2 == Xor(x / 2, y / 2)
    ensures Xor(x, y) % 2 == if x % 2 == y % 2 then 0 else 1
  {
  }

  lemma {:induction false} XorBound(x: nat, y: nat, k: nat)
    requires x < Pow2(k) && y < Pow2(k)
    ensures Xor(x, y) < Pow2(k)
    decreases k
  {
    if k > 0 { XorBound(x / 2, y / 2, k - 1); }
  }

  lemma {:induction false} OrBound(x: nat, y: nat, k: nat)
    requires x < Pow2(k) && y < Pow2(k)
    ensures Or(x, y) < Pow2(k)
    decreases k
  {
    if k > 0 && x > 0 { OrBound(x / 2, y / 2, k - 1); }
  }

  lemma {:induction false} XorZeroIff(x: nat, y: nat)
    ensures Xor(x, y) == 0 <==> x == y
    decreases x + y
  {
    if x > 0 || y > 0 { XorZeroIff(x / 2, y / 2); }
  }

  lemma {:induction false} OrZeroIff(x: nat, y: nat)
    ensures Or(x, y) == 0 <==> x == 0 && y == 0
    decreases x
  {
    if x > 0 { OrZeroIff(x / 2, y / 2); }
  }
}
