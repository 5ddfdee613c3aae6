/** Bitwise operators on unsigned numbers of any width, digit by digit. */
module Bits {

  /** `a & b` */
  function And(a: nat, b: nat): nat {
    if a == 0 || b == 0 then 0 else 2 * And(a / 2, b / 2) + (a % 2) * (b % 2)
  }

  /** `a & ~b` */
  function AndNot(a: nat, b: nat): nat {
    if a == 0 then 0 else 2 * AndNot(a / 2, b / 2) + (if a % 2 == 1 && b % 2 == 0 then 1 else 0)
  }

  /** Clearing a mask and keeping it split a number in two. */
  lemma {:induction false} MaskSplits(a: nat, b: nat)
    ensures AndNot(a, b) + And(a, b) == a
    ensures And(a, b) <= b
  {
    if a == 0 {
    } else {
      MaskSplits(a / 2, b / 2);
      if b == 0 { ClearNothing(a / 2); }
    }
  }

  lemma {:induction false} ClearNothing(a: nat)
    ensures AndNot(a, 0) == a
  {
    if a != 0 { ClearNothing(a / 2); }
  }

  function Pow2(k: nat): (p: nat)
    ensures p > 0
  {
    if k == 0 then 1 else 2 * Pow2(k - 1)
  }

  lemma {:induction false} NextMask(a: nat, p: nat)
    requires p > 0
    ensures AndNot(a, 2 * p - 1) == 2 * AndNot(a / 2, p - 1)
  {
    assert (2 * p - 1) / 2 == p - 1 && (2 * p - 1) % 2 == 1;
  }

  lemma {:induction false} DoubleRange(a: nat, low: nat, p: nat)
    requires low <= a / 2 < low + p
    ensures 2 * low <= a < 2 * low + 2 * p
  {
  }

  lemma {:induction false} TwiceProduct(q: nat, p: nat)
    ensures q * (2 * p) == 2 * (q * p)
  {
  }

  /** Clearing the low bits below `2 * p`, once those below `p` of the half are cleared. */
  lemma {:induction false} NextRoundDown(a: nat, q: nat, p: nat)
    requires p > 0 && AndNot(a / 2, p - 1) == q * p && q * p <= a / 2 < q * p + p
    ensures AndNot(a, 2 * p - 1) == q * (2 * p) && q * (2 * p) <= a < q * (2 * p) + 2 * p
  {
    NextMask(a, p);
    DoubleRange(a, q * p, p);
    TwiceProduct(q, p);
  }

  /** Clearing the low `k` bits rounds down to a multiple of their weight. */
  lemma {:induction false} LowBitsRoundDown(a: nat, k: nat) returns (q: nat)
    ensures AndNot(a, Pow2(k) - 1) == q * Pow2(k)
    ensures q * Pow2(k) <= a < q * Pow2(k) + Pow2(k)
  {
    if k == 0 {
      q := a;
      ClearNothing(a);
    } else {
      q := LowBitsRoundDown(a / 2, k - 1);
      NextRoundDown(a, q, Pow2(k - 1));
      assert Pow2(k) == 2 * Pow2(k - 1);
    }
  }
}
