/** Powers of two, as used for the blur's integer scale factors (SkIsPow2 and friends). */
module Powers {

  function Pow2(n: nat): (p: int)
    ensures p >= 1
  {
    if n == 0 then 1 else 2 * Pow2(n - 1)
  }

  /** True iff x is 2^n for some n >= 0. */
  predicate IsPow2(x: int)
    decreases if x > 0 then x else 0
  {
    x == 1 || (x > 1 && x % 2 == 0 && IsPow2(x / 2))
  }

  /** The exponent of a power of two. */
  function Log2(x: int): (n: nat)
    requires IsPow2(x)
    ensures Pow2(n) == x
    decreases if x > 0 then x else 0
  {
    if x == 1 then 0 else 1 + Log2(x / 2)
  }

  lemma {:induction false} Pow2IsPow2(n: nat)
    ensures IsPow2(Pow2(n))
  {
    if n > 0 {
      Pow2IsPow2(n - 1);
      assert Pow2(n) / 2 == Pow2(n - 1);
    }
  }

  /** Pow2 is strictly increasing; a larger exponent gives at least twice the value. */
  lemma {:induction false} Pow2Increasing(m: nat, n: nat)
    requires m < n
    ensures 2 * Pow2(m) <= Pow2(n)
  {
    if m + 1 < n {
      Pow2Increasing(m, n - 1);
    }
  }

  lemma Pow2Less(m: nat, n: nat)
    ensures Pow2(m) < Pow2(n) <==> m < n
  {
    if m < n {
      Pow2Increasing(m, n);
    } else if n < m {
      Pow2Increasing(n, m);
    }
  }
}
