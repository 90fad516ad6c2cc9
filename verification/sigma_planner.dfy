/**
 * The sigma planner (adjust_sigma): a requested Gaussian standard deviation becomes a sigma of
 * at most MaxBlurSigma, an integer downscale factor and a kernel radius of ceil(3 * sigma).
 */
module SigmaPlanner {
  import opened Powers

  /** MAX_BLUR_SIGMA: the largest sigma one convolution pass is asked to apply. */
  const MaxBlurSigma: real := 4.0

  /** The smallest integer not below x (ceilf followed by the cast to int). */
  function Ceil(x: real): int
  {
    -((-x).Floor)
  }

  datatype PlannedAxis = PlannedAxis(sigma: real, scaleFactor: int, radius: int)

  /**
   * The loop of adjust_sigma, run from a sigma and a scale factor: double the factor and halve
   * sigma while sigma exceeds MaxBlurSigma; a factor beyond maxTextureSize is clamped to it, and
   * sigma is then clamped to MaxBlurSigma, which ends the loop.
   */
  function HalveUntilSmall(sigma: real, maxTextureSize: int, scaleFactor: int): (real, int)
    decreases if sigma > MaxBlurSigma then sigma.Floor else 0
  {
    if sigma <= MaxBlurSigma then (sigma, scaleFactor)
    else if scaleFactor * 2 > maxTextureSize then (MaxBlurSigma, maxTextureSize)
    else
      assert sigma * 0.5 > MaxBlurSigma ==> (sigma * 0.5).Floor < sigma.Floor;
      HalveUntilSmall(sigma * 0.5, maxTextureSize, scaleFactor * 2)
  }

  /** What adjust_sigma returns for a sigma and a maximum texture size. */
  function Plan(sigma: real, maxTextureSize: int): PlannedAxis
  {
    var t := HalveUntilSmall(sigma, maxTextureSize, 1);
    PlannedAxis(t.0, t.1, Ceil(t.0 * 3.0))
  }

  method AdjustSigma(sigma: real, maxTextureSize: int) returns (newSigma: real, scaleFactor: int, radius: int)
    ensures PlannedAxis(newSigma, scaleFactor, radius) == Plan(sigma, maxTextureSize)
    ensures newSigma <= MaxBlurSigma
    ensures sigma <= MaxBlurSigma ==> newSigma == sigma && scaleFactor == 1
    ensures maxTextureSize >= 1 ==> 1 <= scaleFactor <= maxTextureSize && radius <= 12
  {
    var s := sigma;
    scaleFactor := 1;
    while s > MaxBlurSigma
      invariant HalveUntilSmall(s, maxTextureSize, scaleFactor) == HalveUntilSmall(sigma, maxTextureSize, 1)
      invariant sigma <= MaxBlurSigma ==> s == sigma && scaleFactor == 1
      decreases if s > MaxBlurSigma then s.Floor else 0
    {
      scaleFactor := scaleFactor * 2;
      s := s * 0.5;
      if scaleFactor > maxTextureSize {
        scaleFactor := maxTextureSize;
        s := MaxBlurSigma;
      }
    }
    radius := Ceil(s * 3.0);
    newSigma := s;
    if maxTextureSize >= 1 {
      PlanBounds(sigma, maxTextureSize);
    }
  }

  lemma CeilBounds(x: real)
    ensures x <= Ceil(x) as real < x + 1.0
  {
  }

  /** The loop never raises sigma above the maximum and keeps the factor between its start and the maximum texture size. */
  lemma {:induction false} HalvingBounds(sigma: real, maxTextureSize: int, scaleFactor: int)
    requires 1 <= scaleFactor <= maxTextureSize
    ensures var r := HalveUntilSmall(sigma, maxTextureSize, scaleFactor);
      && r.0 <= MaxBlurSigma
      && scaleFactor <= r.1 <= maxTextureSize
      && (sigma <= MaxBlurSigma ==> r == (sigma, scaleFactor))
      && (sigma > MaxBlurSigma ==> r.0 > 2.0)
    decreases if sigma > MaxBlurSigma then sigma.Floor else 0
  {
    if sigma > MaxBlurSigma && scaleFactor * 2 <= maxTextureSize {
      assert sigma * 0.5 > MaxBlurSigma ==> (sigma * 0.5).Floor < sigma.Floor;
      HalvingBounds(sigma * 0.5, maxTextureSize, scaleFactor * 2);
    }
  }

  /**
   * Bounds of adjust_sigma: sigma at most 4, factor in [1, maxTextureSize], radius ceil(3 sigma)
   * and at most 12; a sigma of at most 4 is returned unchanged with factor 1; a larger one comes
   * back above 2 (radius at least 7); the returned sigma is positive iff the requested one is.
   */
  lemma PlanBounds(sigma: real, maxTextureSize: int)
    requires maxTextureSize >= 1
    ensures var p := Plan(sigma, maxTextureSize);
      && p.sigma <= MaxBlurSigma
      && 1 <= p.scaleFactor <= maxTextureSize
      && 3.0 * p.sigma <= p.radius as real < 3.0 * p.sigma + 1.0
      && p.radius <= 12
      && (sigma <= MaxBlurSigma ==> p.sigma == sigma && p.scaleFactor == 1)
      && (sigma > MaxBlurSigma ==> p.sigma > 2.0 && p.radius >= 7)
      && (p.sigma > 0.0 <==> sigma > 0.0)
      && (p.scaleFactor > 1 ==> sigma > MaxBlurSigma)
  {
    HalvingBounds(sigma, maxTextureSize, 1);
    var p := Plan(sigma, maxTextureSize);
    CeilBounds(p.sigma * 3.0);
  }

  /**
   * The two outcomes of the loop for a requested sigma0, where 2^k is the largest power of two
   * not above maxTextureSize: the clamp fires iff sigma0 > 4 * 2^k, and then the factor is
   * maxTextureSize and sigma is 4; without it the factor is a power of two and sigma times the
   * factor is sigma0.
   */
  predicate ScalingOutcome(r: (real, int), maxTextureSize: int, k: nat, sigma0: real)
  {
    && (sigma0 > MaxBlurSigma * (Pow2(k) as real) ==> r == (MaxBlurSigma, maxTextureSize))
    && (sigma0 <= MaxBlurSigma * (Pow2(k) as real) ==>
          IsPow2(r.1) && r.1 <= Pow2(k) && r.0 * (r.1 as real) == sigma0)
  }

  /** The loop, resumed at factor 2^j with s * 2^j == sigma0, ends in one of the two outcomes. */
  lemma {:induction false} HalvingScaling(s: real, maxTextureSize: int, j: nat, k: nat, sigma0: real)
    requires Pow2(k) <= maxTextureSize < Pow2(k + 1)
    requires j <= k
    requires s * (Pow2(j) as real) == sigma0
    ensures ScalingOutcome(HalveUntilSmall(s, maxTextureSize, Pow2(j)), maxTextureSize, k, sigma0)
    decreases if s > MaxBlurSigma then s.Floor else 0
  {
    var f := Pow2(j);
    Pow2Less(j, k);
    if s <= MaxBlurSigma {
      ScalingDone(s, maxTextureSize, j, k, sigma0);
    } else if f * 2 > maxTextureSize {
      ScalingClamped(s, maxTextureSize, j, k, sigma0);
    } else {
      assert f * 2 == Pow2(j + 1);
      Pow2Less(j + 1, k + 1);
      HalfTimesDouble(s, f);
      assert s * 0.5 > MaxBlurSigma ==> (s * 0.5).Floor < s.Floor;
      HalvingScaling(s * 0.5, maxTextureSize, j + 1, k, sigma0);
    }
  }

  /** The loop's exit without clamping. */
  lemma ScalingDone(s: real, maxTextureSize: int, j: nat, k: nat, sigma0: real)
    requires j <= k
    requires s * (Pow2(j) as real) == sigma0
    requires s <= MaxBlurSigma
    ensures ScalingOutcome(HalveUntilSmall(s, maxTextureSize, Pow2(j)), maxTextureSize, k, sigma0)
  {
    var f := Pow2(j);
    var top := Pow2(k) as real;
    var r := HalveUntilSmall(s, maxTextureSize, f);
    assert r == (s, f);
    Pow2Less(j, k);
    Pow2IsPow2(j);
    ProductBelow(s, f as real, top, sigma0);
    assert IsPow2(r.1) && r.1 <= Pow2(k);
    assert r.0 * (r.1 as real) == sigma0;
  }

  /** The loop's exit through the clamp, which happens only once the factor is the largest power of two below the maximum. */
  lemma ScalingClamped(s: real, maxTextureSize: int, j: nat, k: nat, sigma0: real)
    requires Pow2(k) <= maxTextureSize < Pow2(k + 1)
    requires j <= k
    requires s * (Pow2(j) as real) == sigma0
    requires s > MaxBlurSigma && Pow2(j) * 2 > maxTextureSize
    ensures ScalingOutcome(HalveUntilSmall(s, maxTextureSize, Pow2(j)), maxTextureSize, k, sigma0)
  {
    assert Pow2(j) * 2 == Pow2(j + 1);
    Pow2Less(k, j + 1);
    assert j == k;
    RealMulStrict(MaxBlurSigma, s, Pow2(k) as real);
  }

  lemma ProductBelow(s: real, fr: real, top: real, sigma0: real)
    requires s <= MaxBlurSigma && 0.0 <= fr <= top && sigma0 == s * fr
    ensures sigma0 <= MaxBlurSigma * top
  {
    RealMulMono(s, MaxBlurSigma, fr);
    RealMulMonoLeft(MaxBlurSigma, fr, top);
  }

  lemma RealMulMono(a: real, b: real, c: real)
    requires a <= b && c >= 0.0
    ensures a * c <= b * c
  {
  }

  lemma RealMulMonoLeft(c: real, a: real, b: real)
    requires a <= b && c >= 0.0
    ensures c * a <= c * b
  {
  }

  lemma RealMulStrict(a: real, b: real, c: real)
    requires a < b && c > 0.0
    ensures a * c < b * c
  {
  }

  lemma HalfTimesDouble(s: real, f: int)
    ensures (s * 0.5) * ((f * 2) as real) == s * (f as real)
  {
  }

  /**
   * Scaling of adjust_sigma, with 2^k the largest power of two not above maxTextureSize: if
   * sigma > 4 * 2^k the clamp fires and the result is factor maxTextureSize with sigma exactly 4;
   * otherwise the factor is a power of two not above 2^k and returned sigma times factor equals
   * the requested sigma.
   */
  lemma PlanScaling(sigma: real, maxTextureSize: int, k: nat)
    requires Pow2(k) <= maxTextureSize < Pow2(k + 1)
    ensures var p := Plan(sigma, maxTextureSize);
      && (sigma > MaxBlurSigma * (Pow2(k) as real) ==> p.scaleFactor == maxTextureSize && p.sigma == MaxBlurSigma)
      && (sigma <= MaxBlurSigma * (Pow2(k) as real) ==>
            IsPow2(p.scaleFactor) && p.scaleFactor <= Pow2(k) && p.sigma * (p.scaleFactor as real) == sigma)
  {
    HalvingScaling(sigma, maxTextureSize, 0, k, sigma);
  }

  /** With a power-of-two maximum texture size every scale factor the planner returns is a power of two. */
  lemma PlanFactorIsPow2(sigma: real, maxTextureSize: int)
    requires IsPow2(maxTextureSize)
    ensures IsPow2(Plan(sigma, maxTextureSize).scaleFactor)
  {
    var k := Log2(maxTextureSize);
    assert Pow2(k + 1) == 2 * maxTextureSize;
    PlanScaling(sigma, maxTextureSize, k);
  }

  lemma {:induction false} HalvingMonotone(s1: real, s2: real, maxTextureSize: int, scaleFactor: int)
    requires s1 <= s2
    requires 1 <= scaleFactor <= maxTextureSize
    ensures HalveUntilSmall(s1, maxTextureSize, scaleFactor).1 <= HalveUntilSmall(s2, maxTextureSize, scaleFactor).1
    decreases if s2 > MaxBlurSigma then s2.Floor else 0
  {
    if s2 <= MaxBlurSigma {
    } else if s1 <= MaxBlurSigma {
      HalvingBounds(s2, maxTextureSize, scaleFactor);
    } else if scaleFactor * 2 > maxTextureSize {
    } else {
      assert s2 * 0.5 > MaxBlurSigma ==> (s2 * 0.5).Floor < s2.Floor;
      HalvingMonotone(s1 * 0.5, s2 * 0.5, maxTextureSize, scaleFactor * 2);
    }
  }

  /** Monotonicity: a larger sigma never gets a smaller scale factor. */
  lemma PlanMonotone(sigma1: real, sigma2: real, maxTextureSize: int)
    requires sigma1 <= sigma2
    requires maxTextureSize >= 1
    ensures Plan(sigma1, maxTextureSize).scaleFactor <= Plan(sigma2, maxTextureSize).scaleFactor
  {
    HalvingMonotone(sigma1, sigma2, maxTextureSize, 1);
  }
}
