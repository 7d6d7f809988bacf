/** Unsigned 32-bit registers as naturals: shifts, masks and bitwise or. */
module Bits {

  const WORD: nat := 0x1_0000_0000

  /** x times two to the power n */
  function Scale(x: nat, n: nat): (r: nat)
    ensures x > 0 ==> r > 0
    decreases n
  {
    if n == 0 then x else 2 * Scale(x, n - 1)
  }

  function Pow2(n: nat): nat { Scale(1, n) }

  /** `x >> n` */
  function Shr(x: nat, n: nat): nat
    decreases n
  {
    if n == 0 then x else Shr(x / 2, n - 1)
  }

  /** `x << n`, truncated to 32 bits */
  function Shl(x: nat, n: nat): nat
    decreases n
  {
    if n == 0 then x % WORD else (2 * Shl(x, n - 1)) % WORD
  }

  /** `x & makeMask(n)` */
  function Mask(x: nat, n: nat): nat
    decreases n
  {
    if n == 0 then 0 else 2 * Mask(x / 2, n - 1) + x % 2
  }

  /** `a | b` */
  function Or(a: nat, b: nat): nat
    decreases a
  {
    if a == 0 then b
    else 2 * Or(a / 2, b / 2) + (if a % 2 == 1 || b % 2 == 1 then 1 else 0)
  }

  /** `x ^ 1` */
  function FlipLow(x: nat): nat { if x % 2 == 0 then x + 1 else x - 1 }

  predicate IsPowerOf2(n: nat) { n == 1 || (n > 1 && n % 2 == 0 && IsPowerOf2(n / 2)) }

  lemma {:induction false} ScaleAdd(x: nat, m: nat, n: nat)
    ensures Scale(Scale(x, m), n) == Scale(x, m + n)
    decreases n
  {
    if n != 0 { ScaleAdd(x, m, n - 1); }
  }

  lemma {:induction false} ScaleSum(x: nat, y: nat, n: nat)
    ensures Scale(x + y, n) == Scale(x, n) + Scale(y, n)
  {
    if n != 0 { ScaleSum(x, y, n - 1); }
  }

  /** Scaling keeps a strict order, with room for the bits below. */
  lemma {:induction false} ScaleLess(x: nat, y: nat, n: nat)
    requires x < y
    ensures Scale(x, n) + Pow2(n) <= Scale(y, n)
  {
    if n != 0 { ScaleLess(x, y, n - 1); }
  }

  /** Low bits and high bits of a number are what mask and shift give back. */
  lemma {:induction false} MaskShr(low: nat, high: nat, n: nat)
    requires low < Pow2(n)
    ensures Mask(low + Scale(high, n), n) == low && Shr(low + Scale(high, n), n) == high
    decreases n
  {
    if n != 0 {
      var x := low + Scale(high, n);
      assert x / 2 == low / 2 + Scale(high, n - 1) && x % 2 == low % 2;
      MaskShr(low / 2, high, n - 1);
    }
  }

  lemma {:induction false} SplitBits(x: nat, n: nat)
    ensures x == Mask(x, n) + Scale(Shr(x, n), n) && Mask(x, n) < Pow2(n)
    decreases n
  {
    if n != 0 { SplitBits(x / 2, n - 1); }
  }

  lemma {:induction false} ShlIsScale(x: nat, n: nat)
    requires Scale(x, n) < WORD
    ensures Shl(x, n) == Scale(x, n)
  {
    if n != 0 { ShlIsScale(x, n - 1); }
  }

  lemma {:induction false} OrZero(a: nat)
    ensures Or(a, 0) == a
  {
    if a != 0 { OrZero(a / 2); }
  }

  lemma {:induction false} OrCommutes(a: nat, b: nat)
    ensures Or(a, b) == Or(b, a)
    decreases a
  {
    if a == 0 { OrZero(b); } else if b == 0 { OrZero(a); } else { OrCommutes(a / 2, b / 2); }
  }

  lemma {:induction false} OrAssociates(a: nat, b: nat, c: nat)
    ensures Or(Or(a, b), c) == Or(a, Or(b, c))
    decreases a + b
  {
    if a != 0 {
      OrHalves(a, b);
      OrHalves(b, c);
      OrAssociates(a / 2, b / 2, c / 2);
    }
  }

  lemma OrHalves(a: nat, b: nat)
    ensures Or(a, b) / 2 == Or(a / 2, b / 2) && (Or(a, b) % 2 == 1 <==> a % 2 == 1 || b % 2 == 1)
    ensures a != 0 ==> Or(a, b) != 0
  {
  }

  lemma {:induction false} ShrOr(a: nat, b: nat, n: nat)
    ensures Shr(Or(a, b), n) == Or(Shr(a, n), Shr(b, n))
    decreases n
  {
    if n != 0 {
      OrHalves(a, b);
      ShrOr(a / 2, b / 2, n - 1);
    }
  }

  /** Or of numbers that share no bit position is their sum. */
  lemma {:induction false} OrDisjoint(low: nat, high: nat, n: nat)
    requires low < Pow2(n)
    ensures Or(low, Scale(high, n)) == low + Scale(high, n)
    decreases n
  {
    if low != 0 && n != 0 {
      assert Scale(high, n) / 2 == Scale(high, n - 1) && Scale(high, n) % 2 == 0;
      OrDisjoint(low / 2, high, n - 1);
    }
  }

  lemma {:induction false} Pow2Mono(m: nat, n: nat)
    requires m <= n
    ensures Pow2(m) <= Pow2(n)
    decreases n
  {
    if m < n { Pow2Mono(m, n - 1); }
  }

  lemma Pow2Word()
    ensures Pow2(32) == WORD
  {
    assert Pow2(8) == 256;
    ScaleAdd(1, 8, 8);
    assert Scale(256, 8) == 65536;
    ScaleAdd(1, 16, 8);
    assert Scale(65536, 8) == 0x100_0000;
    ScaleAdd(1, 24, 8);
    assert Scale(0x100_0000, 8) == WORD;
  }

  /** The sum of n low bits and high bits that fit above them. */
  lemma SumBelow(low: nat, high: nat, m: nat, n: nat)
    requires low < Pow2(m) && high < Pow2(n)
    ensures low + Scale(high, m) < Pow2(m + n)
  {
    ScaleLess(high, Pow2(n), m);
    ScaleAdd(1, n, m);
  }

  lemma BelowWord(x: nat, n: nat)
    requires x < Pow2(n) && n <= 32
    ensures x < WORD
  {
    Pow2Mono(n, 32);
    Pow2Word();
  }
}
