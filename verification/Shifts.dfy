/** Shifts and masks of machine words. */
module Shifts {

  function Pow2(k: nat): (p: nat)
    ensures p > 0
  {
    if k == 0 then 1 else 2 * Pow2(k - 1)
  }

  /** Bitwise conjunction of two words. */
  function And(a: nat, b: nat): nat {
    if a == 0 || b == 0 then 0 else 2 * And(a / 2, b / 2) + if a % 2 == 1 && b % 2 == 1 then 1 else 0
  }

  function ShiftRight(a: nat, k: nat): nat { if k == 0 then a else ShiftRight(a / 2, k - 1) }

  lemma MaskUnfolds(a: nat, k: nat)
    requires k > 0
    ensures And(a, Pow2(k) - 1) == 2 * And(a / 2, Pow2(k - 1) - 1) + a % 2
  {
  }

  /** Shift and mask are quotient and remainder by the power of two. */
  lemma {:induction false} ShiftAndMask(a: nat, k: nat)
    ensures a == ShiftRight(a, k) * Pow2(k) + And(a, Pow2(k) - 1)
    ensures And(a, Pow2(k) - 1) < Pow2(k)
  {
    if k > 0 {
      ShiftAndMask(a / 2, k - 1);
      MaskUnfolds(a, k);
      Doubled(ShiftRight(a, k), Pow2(k - 1));
    }
  }

  lemma Doubled(x: nat, y: nat)
    ensures x * (2 * y) == 2 * (x * y)
  {
  }

  lemma {:induction false} ShiftFurther(n: nat, j: nat, k: nat)
    requires j <= k
    ensures ShiftRight(n, k) <= ShiftRight(n, j)
  {
    if j > 0 {
      ShiftFurther(n / 2, j - 1, k - 1);
    } else if k > 0 {
      ShiftFurther(n / 2, 0, k - 1);
    }
  }

  lemma ShiftsByPower(n: nat, k: nat)
    ensures ShiftRight(n, k) * Pow2(k) <= n < ShiftRight(n, k) * Pow2(k) + Pow2(k)
  {
    ShiftAndMask(n, k);
  }

  lemma ShiftIsZero(n: nat, k: nat)
    ensures ShiftRight(n, k) == 0 <==> n < Pow2(k)
    ensures ShiftRight(n, k) == 1 ==> Pow2(k) <= n < 2 * Pow2(k)
  {
    ShiftsByPower(n, k);
    if ShiftRight(n, k) > 0 { AtLeast(ShiftRight(n, k), Pow2(k)); }
  }

  lemma AtLeast(x: nat, p: nat)
    requires x > 0
    ensures x * p >= p
  {
    assert x * p == (x - 1) * p + p;
  }

  /** The largest shift up to `p` that leaves anything of `n`, or 0. */
  function Rank(n: nat, p: nat): (q: nat)
    ensures q <= p && (q > 0 ==> ShiftRight(n, q) > 0) && (q < p ==> ShiftRight(n, p) == 0)
  {
    if p == 0 || ShiftRight(n, p) > 0 then p else Rank(n, p - 1)
  }

  lemma {:induction false} RankIsLargest(n: nat, p: nat, k: nat)
    requires 0 < k <= p
    ensures ShiftRight(n, k) > 0 <==> k <= Rank(n, p)
  {
    if ShiftRight(n, p) > 0 {
      ShiftFurther(n, k, p);
    } else if k < p {
      RankIsLargest(n, p - 1, k);
    }
  }

  lemma {:induction false} ShiftOnce(n: nat, k: nat)
    ensures ShiftRight(n, k + 1) == ShiftRight(n, k) / 2
  {
    if k > 0 { ShiftOnce(n / 2, k - 1); }
  }

  /** Below the limit, the largest shift leaves one bit. */
  lemma RankLeavesOne(n: nat, p: nat)
    requires Rank(n, p) < p
    ensures ShiftRight(n, Rank(n, p)) <= 1
  {
    RankIsLargest(n, p, Rank(n, p) + 1);
    ShiftOnce(n, Rank(n, p));
  }
}
