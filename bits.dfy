/** Python's bitwise operators, defined bit by bit (the lowest bit, then the
    rest shifted right): `&` for any `x` with a non-negative mask, and `|`,
    `^`, `<<`, `>>` on non-negative integers, which is all the scripts use;
    with the facts about them that the scripts rely on. Python's `//` and `%`
    by a positive number floor, as Dafny's `/` and `%` do for a positive
    divisor, so `x / 2` and `x % 2` are the bits of an unbounded
    two's-complement `x`, negative or not. */
module Bits {
  import opened Base

  /** `x & mask` for a non-negative mask. */
  function And(x: int, mask: nat): (r: nat)
    ensures r <= mask
    decreases mask
  {
    if mask == 0 then 0
    else And(x / 2, mask / 2) * 2 + (if x % 2 == 1 && mask % 2 == 1 then 1 else 0)
  }

  /** `x | y` on non-negative integers. */
  function Or(x: nat, y: nat): nat
    decreases x + y
  {
    if x == 0 && y == 0 then 0
    else Or(x / 2, y / 2) * 2 + (if x % 2 == 1 || y % 2 == 1 then 1 else 0)
  }

  /** `x ^ y` on non-negative integers. */
  function Xor(x: nat, y: nat): nat
    decreases x + y
  {
    if x == 0 && y == 0 then 0
    else Xor(x / 2, y / 2) * 2 + (if x % 2 != y % 2 then 1 else 0)
  }

  /** `x << k` for non-negative `x` and count (a negative count raises in Python). */
  function Shl(x: nat, k: nat): nat
  {
    x * Pow2(k)
  }

  /** `x >> k` for a non-negative count: floored division. */
  function Shr(x: int, k: nat): int
  {
    x / Pow2(k)
  }

  /** Bit `i` of `x`, i.e. `(x >> i) & 1 == 1`. */
  predicate Bit(x: int, i: nat)
  {
    (x / Pow2(i)) % 2 == 1
  }

  /** The powers of two that appear as literals in the scripts. */
  lemma Pow2Literals()
    ensures Pow2(3) == 8 && Pow2(8) == 0x100
  {
  }

  /** Halving splits off the lowest bit: `x >> k == (x >> 1) >> (k - 1)`, and
      the remainders agree. */
  lemma HalveDivMod(x: int, k: nat)
    requires k >= 1
    ensures (x / 2) / Pow2(k - 1) == x / Pow2(k)
    ensures x % Pow2(k) == 2 * ((x / 2) % Pow2(k - 1)) + x % 2
  {
    var p := Pow2(k - 1);
    var q, r := (x / 2) / p, (x / 2) % p;
    assert x == 2 * (p * q + r) + x % 2;
    assert x == (2 * p) * q + (2 * r + x % 2);
    DivModUnique(x, 2 * p, q, 2 * r + x % 2);
  }

  lemma DivOne(x: int)
    ensures x / 1 == x && x % 1 == 0
  {
    DivModUnique(x, 1, x, 0);
  }

  /** `x & (2**k - 1)` keeps the low `k` bits: it is `x % 2**k`. */
  lemma {:induction false} AndLowMask(x: int, k: nat)
    ensures And(x, Pow2(k) - 1) == x % Pow2(k)
    decreases k
  {
    if k == 0 {
      DivOne(x);
    } else {
      var p := Pow2(k - 1);
      DivModUnique(2 * p - 1, 2, p - 1, 1);
      calc {
        And(x, Pow2(k) - 1);
      ==
        And(x / 2, p - 1) * 2 + x % 2;
      == { AndLowMask(x / 2, k - 1); }
        ((x / 2) % p) * 2 + x % 2;
      == { HalveDivMod(x, k); }
        x % Pow2(k);
      }
    }
  }

  /** A mask shifted left by `k` selects the same bits of `x >> k`, shifted back. */
  lemma {:induction false} AndShiftedMask(x: int, m: nat, k: nat)
    ensures And(x, m * Pow2(k)) == And(x / Pow2(k), m) * Pow2(k)
    decreases k
  {
    if k == 0 {
      DivOne(x);
    } else if m == 0 {
      assert m * Pow2(k) == 0;
    } else {
      var p := Pow2(k - 1);
      var mp := m * p;
      var a := And(x / Pow2(k), m);
      calc {
        And(x, m * Pow2(k));
      == { assert m * Pow2(k) == 2 * mp; }
        And(x, 2 * mp);
      == { AndEven(x, mp); }
        2 * And(x / 2, mp);
      == { AndShiftedMask(x / 2, m, k - 1); }
        2 * (And((x / 2) / p, m) * p);
      == { HalveDivMod(x, k); }
        2 * (a * p);
      == { MulAssoc2(a, p); }
        a * Pow2(k);
      }
    }
  }

  lemma AndEven(x: int, y: nat)
    requires y > 0
    ensures And(x, 2 * y) == 2 * And(x / 2, y)
  {
    DivModUnique(2 * y, 2, y, 0);
  }

  lemma MulAssoc2(a: int, p: int)
    ensures 2 * (a * p) == a * (2 * p)
  {
  }

  lemma {:induction false} OrZero(x: nat)
    ensures Or(x, 0) == x
    decreases x
  {
    if x > 0 {
      OrZero(x / 2);
    }
  }

  /** When `hi` has no bits below bit `k` and `lo` has none from bit `k` up,
      `hi | lo` is `hi + lo`. */
  lemma {:induction false} OrDisjoint(hi: nat, lo: nat, k: nat)
    requires hi % Pow2(k) == 0 && lo < Pow2(k)
    ensures Or(hi, lo) == hi + lo
  {
    if k == 0 {
      OrZero(hi);
    } else {
      var p := Pow2(k - 1);
      var c := hi / (2 * p);
      assert hi == 2 * (p * c);
      DivModUnique(hi, 2, p * c, 0);
      DivModUnique(p * c, p, c, 0);
      OrDisjoint(hi / 2, lo / 2, k - 1);
    }
  }

  /** Bit `i` of `x` is bit `i - 1` of `x >> 1`. */
  lemma BitOfHalf(x: int, i: nat)
    requires i >= 1
    ensures Bit(x, i) == Bit(x / 2, i - 1)
  {
    HalveDivMod(x, i);
  }

  lemma BitZero(x: int)
    ensures Bit(x, 0) == (x % 2 == 1)
  {
    DivOne(x);
  }

  lemma {:induction false} NoBitOfZero(i: nat)
    ensures !Bit(0, i)
  {
    DivModUnique(0, Pow2(i), 0, 0);
  }

  lemma XorHalves(x: nat, y: nat)
    ensures Xor(x, y) / 2 == Xor(x / 2, y / 2)
    ensures Xor(x, y) % 2 == if x % 2 != y % 2 then 1 else 0
  {
    var b := if x % 2 != y % 2 then 1 else 0;
    DivModUnique(Xor(x, y), 2, Xor(x / 2, y / 2), b);
  }

  /** Each bit of `x ^ y` is set exactly when the two operands differ there. */
  lemma {:induction false} XorBit(x: nat, y: nat, i: nat)
    ensures Bit(Xor(x, y), i) == (Bit(x, i) != Bit(y, i))
  {
    XorHalves(x, y);
    if i == 0 {
      BitZero(Xor(x, y));
      BitZero(x);
      BitZero(y);
    } else {
      BitOfHalf(Xor(x, y), i);
      BitOfHalf(x, i);
      BitOfHalf(y, i);
      XorBit(x / 2, y / 2, i - 1);
    }
  }

  /** `1 << t` has exactly bit `t` set. */
  lemma {:induction false} BitOfPow2(t: nat, i: nat)
    ensures Bit(Pow2(t), i) == (i == t)
  {
    if i == 0 {
      BitZero(Pow2(t));
      if t > 0 {
        DivModUnique(Pow2(t), 2, Pow2(t - 1), 0);
      }
    } else {
      BitOfHalf(Pow2(t), i);
      if t == 0 {
        NoBitOfZero(i - 1);
      } else {
        DivModUnique(Pow2(t), 2, Pow2(t - 1), 0);
        BitOfPow2(t - 1, i - 1);
      }
    }
  }

  /** `2**k - 1` has exactly the bits below `k` set. */
  lemma {:induction false} BitOfLowMask(k: nat, i: nat)
    ensures Bit(Pow2(k) - 1, i) == (i < k)
  {
    if i == 0 {
      BitZero(Pow2(k) - 1);
      if k > 0 {
        DivModUnique(Pow2(k) - 1, 2, Pow2(k - 1) - 1, 1);
      }
    } else {
      BitOfHalf(Pow2(k) - 1, i);
      if k == 0 {
        NoBitOfZero(i - 1);
      } else {
        DivModUnique(Pow2(k) - 1, 2, Pow2(k - 1) - 1, 1);
        BitOfLowMask(k - 1, i - 1);
      }
    }
  }

  /** `^` of two `k`-bit values is a `k`-bit value. */
  lemma {:induction false} XorBound(x: nat, y: nat, k: nat)
    requires x < Pow2(k) && y < Pow2(k)
    ensures Xor(x, y) < Pow2(k)
  {
    if k > 0 && (x > 0 || y > 0) {
      XorBound(x / 2, y / 2, k - 1);
    }
  }

  /** A value with bit `i` set is at least `2**i`. */
  lemma BitIsAtLeast(x: nat, i: nat)
    requires Bit(x, i)
    ensures x >= Pow2(i)
  {
    if x < Pow2(i) {
      DivModUnique(x, Pow2(i), 0, x);
    }
  }

  lemma {:induction false} Pow2Monotone(i: nat, j: nat)
    requires i <= j
    ensures Pow2(i) <= Pow2(j)
    decreases j
  {
    if i < j {
      Pow2Monotone(i, j - 1);
    }
  }
}
