/**
 * The entry point of the GPU blur (GaussianBlur): plans both axes, then either runs one fused
 * 2-D convolution or the separable pipeline of decimation, an X pass, a Y pass and
 * re-expansion, handing the caller's backing fit only to the stage that produces the result.
 */
module Blur {
  import opened Powers
  import opened Geometry
  import opened SigmaPlanner
  import opened PixelConfigs
  import opened RenderTrace
  import opened Convolver
  import opened Decimator
  import opened Reexpander

  /**
   * What the blur learns from the device: the maximum texture size, the largest number of
   * taps a fused 2-D kernel may have (MAX_KERNEL_SIZE), and the configurations that have a
   * colour type (GrPixelConfigToColorType succeeds).
   */
  datatype Caps = Caps(maxTextureSize: int, maxKernelSize: int, colorTypeConfigs: set<PixelConfig>)

  /** A blur request: the source's configuration and colour space, the bounds and the sigmas. */
  datatype Request = Request(srcConfig: PixelConfig, hasColorSpace: bool, dstBounds: IRect, srcBounds: IRect,
                             sigmaX: real, sigmaY: real, mode: Mode, fit: Fit)

  function BlurConfig(req: Request): PixelConfig
  {
    GetBlurConfig(req.srcConfig, req.hasColorSpace)
  }

  /** The blur produces a target unless the configuration has no colour type or no sigma is positive. */
  predicate BlurRuns(caps: Caps, req: Request)
  {
    BlurConfig(req) in caps.colorTypeConfigs && (req.sigmaX > 0.0 || req.sigmaY > 0.0)
  }

  /** The small-kernel case: both axes blur and the 2-D kernel has at most maxKernelSize taps. */
  predicate Fused(px: PlannedAxis, py: PlannedAxis, maxKernelSize: int)
  {
    px.sigma > 0.0 && py.sigma > 0.0 && (2 * px.radius + 1) * (2 * py.radius + 1) <= maxKernelSize
  }

  predicate Downscaled(px: PlannedAxis, py: PlannedAxis)
  {
    px.scaleFactor > 1 || py.scaleFactor > 1
  }

  /** The content bounds the Y pass and re-expansion read, as the X pass leaves them. */
  function PassesBounds(srcRect: IRect, bounds: IRect, px: PlannedAxis, py: PlannedAxis, mode: Mode): IRect
  {
    if px.sigma > 0.0 then
      (if mode == Clamp then srcRect.OffsetTo(0, 0).Inset(0, py.radius) else srcRect.OffsetTo(0, 0))
    else bounds
  }

  /** The X pass over srcRect, and the clear of radiusY rows below its output when a Y pass follows. */
  function XPassOps(config: PixelConfig, srcRect: IRect, offset: IPoint, bounds: IRect, px: PlannedAxis,
                    py: PlannedAxis, mode: Mode, dstWidth: int, dstHeight: int, xFit: Fit): (ops: seq<Op>)
  {
    ConvolveOps(config, srcRect, offset, X, px.radius, px.sigma, bounds, mode, dstWidth, dstHeight, xFit)
    + (if py.sigma > 0.0 then [AbsClear(MakeXYWH(srcRect.left, srcRect.bottom, srcRect.Width(), py.radius))]
       else [])
  }

  /**
   * The Y pass of the separable pipeline, when sigmaY is positive: over srcRect and from the
   * given offset if there was no X pass, else over the X output from the origin without offset.
   */
  function YPassOps(config: PixelConfig, srcRect: IRect, offset: IPoint, bounds: IRect, px: PlannedAxis,
                    py: PlannedAxis, mode: Mode, dstWidth: int, dstHeight: int, yFit: Fit): (ops: seq<Op>)
  {
    if py.sigma > 0.0 then
      ConvolveOps(config, if px.sigma > 0.0 then srcRect.OffsetTo(0, 0) else srcRect,
                  if px.sigma > 0.0 then IPoint(0, 0) else offset, Y, py.radius, py.sigma,
                  PassesBounds(srcRect, bounds, px, py, mode), mode, dstWidth, dstHeight, yFit)
    else []
  }

  /** The passes of the separable pipeline over srcRect, each only when its sigma is positive. */
  function PassesOps(config: PixelConfig, srcRect: IRect, offset: IPoint, bounds: IRect, px: PlannedAxis,
                     py: PlannedAxis, mode: Mode, dstWidth: int, dstHeight: int, xFit: Fit, yFit: Fit): (ops: seq<Op>)
  {
    (if px.sigma > 0.0 then XPassOps(config, srcRect, offset, bounds, px, py, mode, dstWidth, dstHeight, xFit)
     else [])
    + YPassOps(config, srcRect, offset, bounds, px, py, mode, dstWidth, dstHeight, yFit)
  }

  /**
   * The first half of the downscaled pipeline: decimation, then the passes over srcRect (the
   * destination bounds rounded out to the factors), into approximate-fit targets.
   */
  function DecimatedOps(config: PixelConfig, srcBounds: IRect, srcOffset: IPoint, srcRect: IRect, px: PlannedAxis,
                        py: PlannedAxis, mode: Mode, dstWidth: int, dstHeight: int): (ops: seq<Op>)
    requires IsPow2(px.scaleFactor) && IsPow2(py.scaleFactor)
  {
    var content := RoundOut(SourceRect(mode, srcBounds, srcOffset, dstWidth, dstHeight),
                            px.scaleFactor, py.scaleFactor);
    var offset := if mode == Ignore then srcOffset else IPoint(0, 0);
    DecimateOps(config, srcOffset, srcBounds, px.scaleFactor, py.scaleFactor, px.sigma > 0.0,
                px.radius, py.radius, mode, dstWidth, dstHeight)
    + PassesOps(config, srcRect, offset, content, px, py, mode, dstWidth, dstHeight, Approx, Approx)
  }

  /**
   * The downscaled pipeline: decimation, the passes over the destination bounds rounded out to
   * the factors, and re-expansion to the destination size with the caller's fit.
   */
  function DownscaledOps(config: PixelConfig, srcBounds: IRect, srcOffset: IPoint, px: PlannedAxis,
                         py: PlannedAxis, mode: Mode, dstWidth: int, dstHeight: int, fit: Fit): (ops: seq<Op>)
    requires IsPow2(px.scaleFactor) && IsPow2(py.scaleFactor)
  {
    var srcRect := RoundOut(MakeWH(dstWidth, dstHeight), px.scaleFactor, py.scaleFactor);
    var content := RoundOut(SourceRect(mode, srcBounds, srcOffset, dstWidth, dstHeight),
                            px.scaleFactor, py.scaleFactor);
    DecimatedOps(config, srcBounds, srcOffset, srcRect, px, py, mode, dstWidth, dstHeight)
    + ReexpandOps(config, srcRect.Width(), srcRect.Height(), PassesBounds(srcRect, content, px, py, mode),
                  px.scaleFactor, py.scaleFactor, mode, dstWidth, dstHeight, fit)
  }

  /** The separable pipeline: downscaled when an axis has a factor above 1, else the passes alone. */
  function SeparableOps(config: PixelConfig, srcBounds: IRect, srcOffset: IPoint, px: PlannedAxis,
                        py: PlannedAxis, mode: Mode, dstWidth: int, dstHeight: int, fit: Fit): (ops: seq<Op>)
    requires IsPow2(px.scaleFactor) && IsPow2(py.scaleFactor)
  {
    if Downscaled(px, py) then
      DownscaledOps(config, srcBounds, srcOffset, px, py, mode, dstWidth, dstHeight, fit)
    else
      PassesOps(config, MakeWH(dstWidth, dstHeight), srcOffset, srcBounds, px, py, mode, dstWidth, dstHeight,
                if py.sigma > 0.0 then Approx else fit, fit)
  }

  /**
   * What GaussianBlur asks of the renderer once both axes are planned: the fused 2-D path when
   * fused holds, the separable path otherwise.
   */
  function PlannedOps(config: PixelConfig, srcBounds: IRect, srcOffset: IPoint, px: PlannedAxis, py: PlannedAxis,
                      fused: bool, mode: Mode, dstWidth: int, dstHeight: int, fit: Fit): (ops: seq<Op>)
    requires IsPow2(px.scaleFactor) && IsPow2(py.scaleFactor)
  {
    if fused then
      Convolve2DOps(config, srcBounds, srcOffset, px.radius, py.radius, px.sigma, py.sigma, mode,
                    dstWidth, dstHeight, fit)
    else
      SeparableOps(config, srcBounds, srcOffset, px, py, mode, dstWidth, dstHeight, fit)
  }

  /** Everything GaussianBlur asks of the renderer when no allocation fails. */
  function BlurOps(caps: Caps, req: Request): (ops: seq<Op>)
    requires IsPow2(caps.maxTextureSize)
  {
    if BlurConfig(req) !in caps.colorTypeConfigs then []
    else
      var px, py := Plan(req.sigmaX, caps.maxTextureSize), Plan(req.sigmaY, caps.maxTextureSize);
      PlanFactorIsPow2(req.sigmaX, caps.maxTextureSize);
      PlanFactorIsPow2(req.sigmaY, caps.maxTextureSize);
      PlannedOps(BlurConfig(req), req.srcBounds, req.dstBounds.TopLeft().Negated(), px, py,
                 Fused(px, py, caps.maxKernelSize), req.mode, req.dstBounds.Width(), req.dstBounds.Height(), req.fit)
  }

  /**
   * The fused path never downscales when the kernel limit is below 45 taps: a downscaled axis
   * has radius at least 7 and the other a positive radius, so the kernel has at least 15 * 3 taps.
   */
  lemma FusedIsUnscaled(caps: Caps, req: Request)
    requires caps.maxTextureSize >= 1 && caps.maxKernelSize < 45
    ensures var px, py := Plan(req.sigmaX, caps.maxTextureSize), Plan(req.sigmaY, caps.maxTextureSize);
      Fused(px, py, caps.maxKernelSize) ==> px.scaleFactor == 1 && py.scaleFactor == 1
  {
    var px, py := Plan(req.sigmaX, caps.maxTextureSize), Plan(req.sigmaY, caps.maxTextureSize);
    PlanBounds(req.sigmaX, caps.maxTextureSize);
    PlanBounds(req.sigmaY, caps.maxTextureSize);
    if Fused(px, py, caps.maxKernelSize) && (px.scaleFactor > 1 || py.scaleFactor > 1) {
      assert px.radius >= 1 && py.radius >= 1;
      var a, b := 2 * px.radius + 1, 2 * py.radius + 1;
      if px.scaleFactor > 1 {
        assert a >= 15 && b >= 3;
        KernelTaps(a, b);
      } else {
        assert a >= 3 && b >= 15;
        KernelTaps(b, a);
      }
      assert false;
    }
  }

  lemma KernelTaps(a: int, b: int)
    requires a >= 15 && b >= 3
    ensures a * b >= 45 && b * a >= 45
  {
    assert a * b >= 15 * b;
    assert b * a == a * b;
  }

  /**
   * The X pass of GaussianBlur, when sigmaX is positive: convolves srcRect along X into a
   * target of its size, clears radiusY rows below it when a Y pass follows, and leaves the
   * Y pass reading the whole output from the origin (inset by radiusY rows in Clamp mode).
   */
  method XPass(r: Renderer, srcConfig: PixelConfig, hasColorSpace: bool, srcRect: IRect, srcOffset: IPoint,
               bounds: IRect, px: PlannedAxis, py: PlannedAxis, mode: Mode, dstWidth: int, dstHeight: int,
               xFit: Fit)
    returns (result: Option<Target>, localSrcBounds: IRect)
    requires px.sigma > 0.0
    requires r.Valid()
    modifies r
    ensures r.Valid()
    ensures old(r.attempts) <= r.attempts
    ensures result.Some? <==> NoneFail(r.failures, old(r.attempts), r.attempts)
    ensures Extends(old(r.ops), r.ops,
                    XPassOps(GetBlurConfig(srcConfig, hasColorSpace), srcRect, srcOffset, bounds, px, py, mode,
                             dstWidth, dstHeight, xFit),
                    result.Some?)
    ensures result.Some? ==>
      result.value == Target(xFit, srcRect.Width(), srcRect.Height(), GetBlurConfig(srcConfig, hasColorSpace))
    ensures result.Some? ==> localSrcBounds == PassesBounds(srcRect, bounds, px, py, mode)
  {
    ghost var ops0 := r.ops;
    ghost var clear := if py.sigma > 0.0 then [AbsClear(MakeXYWH(srcRect.left, srcRect.bottom, srcRect.Width(),
                                                                  py.radius))] else [];
    ghost var conv := ConvolveOps(GetBlurConfig(srcConfig, hasColorSpace), srcRect, srcOffset, X, px.radius,
                                  px.sigma, bounds, mode, dstWidth, dstHeight, xFit);
    localSrcBounds := bounds;
    result := ConvolveGaussian(r, srcConfig, hasColorSpace, srcRect, srcOffset, X, px.radius, px.sigma, bounds,
                               mode, dstWidth, dstHeight, xFit);
    if result.None? {
      AbortedBefore(ops0, r.ops, conv, clear);
      return;
    }
    ghost var ops1 := r.ops;
    if py.sigma > 0.0 {
      r.AbsClearRect(MakeXYWH(srcRect.left, srcRect.bottom, srcRect.Width(), py.radius));
    }
    ExtendsThen(ops0, ops1, r.ops, conv, clear, true) by {
      assert r.ops == ops1 + clear;
      assert r.ops[|ops1|..] == clear;
    }
    var rect := srcRect.OffsetTo(0, 0);
    localSrcBounds := rect;
    if mode == Clamp {
      localSrcBounds := localSrcBounds.Inset(0, py.radius);
    }
  }

  /**
   * The Y pass of GaussianBlur, when sigmaY is positive: convolves along Y into a target of
   * srcRect's size, reading the source whose configuration is proxyConfig.
   */
  method YPass(r: Renderer, proxyConfig: PixelConfig, hasColorSpace: bool, rect: IRect, offset: IPoint,
               localSrcBounds: IRect, ghost config: PixelConfig, ghost srcRect: IRect, ghost srcOffset: IPoint,
               ghost bounds: IRect, px: PlannedAxis, py: PlannedAxis, mode: Mode, dstWidth: int, dstHeight: int,
               yFit: Fit)
    returns (result: Option<Target>)
    requires py.sigma > 0.0
    requires GetBlurConfig(proxyConfig, hasColorSpace) == config
    requires rect == (if px.sigma > 0.0 then srcRect.OffsetTo(0, 0) else srcRect)
    requires offset == (if px.sigma > 0.0 then IPoint(0, 0) else srcOffset)
    requires localSrcBounds == PassesBounds(srcRect, bounds, px, py, mode)
    requires r.Valid()
    modifies r
    ensures r.Valid()
    ensures old(r.attempts) <= r.attempts
    ensures result.Some? <==> NoneFail(r.failures, old(r.attempts), r.attempts)
    ensures Extends(old(r.ops), r.ops,
                    YPassOps(config, srcRect, srcOffset, bounds, px, py, mode, dstWidth, dstHeight, yFit),
                    result.Some?)
    ensures result.Some? ==> result.value == Target(yFit, srcRect.Width(), srcRect.Height(), config)
  {
    result := ConvolveGaussian(r, proxyConfig, hasColorSpace, rect, offset, Y, py.radius, py.sigma,
                               localSrcBounds, mode, dstWidth, dstHeight, yFit);
  }

  /**
   * The passes of GaussianBlur over srcRect: the X pass when sigmaX is positive, then the Y
   * pass when sigmaY is positive, reading what the X pass left. The result is the last pass's
   * target, in the blur configuration chosen from the source; None when an allocation fails
   * or neither sigma is positive.
   */
  method SeparablePasses(r: Renderer, srcConfig: PixelConfig, hasColorSpace: bool, srcRect: IRect,
                         srcOffset: IPoint, bounds: IRect, px: PlannedAxis, py: PlannedAxis, mode: Mode,
                         dstWidth: int, dstHeight: int, xFit: Fit, yFit: Fit)
    returns (result: Option<Target>, localSrcBounds: IRect)
    requires r.Valid()
    modifies r
    ensures r.Valid()
    ensures old(r.attempts) <= r.attempts
    ensures (result.Some? || (px.sigma <= 0.0 && py.sigma <= 0.0)) <==> NoneFail(r.failures, old(r.attempts), r.attempts)
    ensures Extends(old(r.ops), r.ops,
                    PassesOps(GetBlurConfig(srcConfig, hasColorSpace), srcRect, srcOffset, bounds, px, py, mode,
                              dstWidth, dstHeight, xFit, yFit),
                    result.Some? || (px.sigma <= 0.0 && py.sigma <= 0.0))
    ensures px.sigma <= 0.0 && py.sigma <= 0.0 ==> result.None?
    ensures result.Some? ==>
      && result.value == Target(if py.sigma > 0.0 then yFit else xFit, srcRect.Width(), srcRect.Height(),
                                GetBlurConfig(srcConfig, hasColorSpace))
      && localSrcBounds == PassesBounds(srcRect, bounds, px, py, mode)
  {
    var config := GetBlurConfig(srcConfig, hasColorSpace);
    ghost var ops0 := r.ops;
    ghost var xOps := if px.sigma > 0.0 then XPassOps(config, srcRect, srcOffset, bounds, px, py, mode,
                                                       dstWidth, dstHeight, xFit) else [];
    ghost var yOps := YPassOps(config, srcRect, srcOffset, bounds, px, py, mode, dstWidth, dstHeight, yFit);
    var rect, offset, proxyConfig := srcRect, srcOffset, srcConfig;
    localSrcBounds := bounds;
    result := None;
    if px.sigma > 0.0 {
      result, localSrcBounds := XPass(r, srcConfig, hasColorSpace, srcRect, srcOffset, bounds, px, py, mode,
                                      dstWidth, dstHeight, xFit);
      if result.None? {
        AbortedBefore(ops0, r.ops, xOps, yOps);
        return;
      }
      proxyConfig := result.value.config;
      rect := rect.OffsetTo(0, 0);
      offset := IPoint(0, 0);
    } else {
      ExtendsNothing(r.ops);
    }
    ghost var ops1 := r.ops;
    ghost var at1 := r.attempts;
    if py.sigma > 0.0 {
      BlurConfigIdempotent(srcConfig, hasColorSpace);
      result := YPass(r, proxyConfig, hasColorSpace, rect, offset, localSrcBounds, config, srcRect, srcOffset,
                      bounds, px, py, mode, dstWidth, dstHeight, yFit);
      NoneFailThen(r.failures, old(r.attempts), at1, r.attempts);
      ExtendsThen(ops0, ops1, r.ops, xOps, yOps, result.Some?);
    } else {
      assert yOps == [];
      ExtendsNothing(r.ops);
      ExtendsThen(ops0, ops1, r.ops, xOps, yOps, true);
      assert xOps + yOps == xOps;
    }
  }

  /**
   * The first half of the downscaled path: decimates the source, then runs the passes over
   * srcRect, the destination bounds rounded out to the factors, into approximate-fit targets.
   * On success the result is the last pass's target and the content bounds it leaves.
   */
  method DecimatedPasses(r: Renderer, srcConfig: PixelConfig, hasColorSpace: bool, srcBounds: IRect,
                         srcOffset: IPoint, srcRect: IRect, px: PlannedAxis, py: PlannedAxis, mode: Mode,
                         dstWidth: int, dstHeight: int)
    returns (result: Option<Target>, localSrcBounds: IRect)
    requires IsPow2(px.scaleFactor) && IsPow2(py.scaleFactor)
    requires Downscaled(px, py) && (px.sigma > 0.0 || py.sigma > 0.0)
    requires r.Valid()
    modifies r
    ensures r.Valid()
    ensures old(r.attempts) <= r.attempts
    ensures result.Some? <==> NoneFail(r.failures, old(r.attempts), r.attempts)
    ensures Extends(old(r.ops), r.ops,
                    DecimatedOps(GetBlurConfig(srcConfig, hasColorSpace), srcBounds, srcOffset, srcRect, px, py,
                                 mode, dstWidth, dstHeight),
                    result.Some?)
    ensures result.Some? ==>
      && result.value.config == GetBlurConfig(srcConfig, hasColorSpace)
      && result.value.width == srcRect.Width() && result.value.height == srcRect.Height()
      && localSrcBounds == PassesBounds(srcRect, RoundOut(SourceRect(mode, srcBounds, srcOffset, dstWidth,
                                                                     dstHeight), px.scaleFactor, py.scaleFactor),
                                        px, py, mode)
  {
    var config := GetBlurConfig(srcConfig, hasColorSpace);
    BlurConfigIdempotent(srcConfig, hasColorSpace);
    ghost var content := RoundOut(SourceRect(mode, srcBounds, srcOffset, dstWidth, dstHeight),
                                  px.scaleFactor, py.scaleFactor);
    ghost var decOps := DecimateOps(config, srcOffset, srcBounds, px.scaleFactor, py.scaleFactor,
                                    px.sigma > 0.0, px.radius, py.radius, mode, dstWidth, dstHeight);
    ghost var passOps := PassesOps(config, srcRect, if mode == Ignore then srcOffset else IPoint(0, 0), content,
                                   px, py, mode, dstWidth, dstHeight, Approx, Approx);

    ghost var ops0 := r.ops;
    var decimated, offset;
    decimated, offset, localSrcBounds :=
      Decimate(r, srcConfig, hasColorSpace, srcOffset, srcBounds, px.scaleFactor, py.scaleFactor,
               px.sigma > 0.0, py.sigma > 0.0, px.radius, py.radius, mode, dstWidth, dstHeight);
    if decimated.None? {
      AbortedBefore(ops0, r.ops, decOps, passOps);
      return None, localSrcBounds;
    }

    ghost var ops1 := r.ops;
    ghost var at1 := r.attempts;
    result, localSrcBounds := SeparablePasses(r, decimated.value.config, hasColorSpace, srcRect, offset,
                                              localSrcBounds, px, py, mode, dstWidth, dstHeight, Approx, Approx);
    StagesThen(ops0, ops1, r.ops, old(r.attempts), at1, r.attempts, r.failures, decOps, passOps, result.Some?);
  }

  /**
   * The downscaled path of GaussianBlur: decimation and the passes over the destination bounds
   * rounded out to the factors, then re-expansion of the last pass's output to the destination
   * size with the caller's fit.
   */
  method DownscaledBlur(r: Renderer, srcConfig: PixelConfig, hasColorSpace: bool, srcBounds: IRect,
                        srcOffset: IPoint, px: PlannedAxis, py: PlannedAxis, mode: Mode,
                        dstWidth: int, dstHeight: int, fit: Fit)
    returns (result: Option<Target>)
    requires IsPow2(px.scaleFactor) && IsPow2(py.scaleFactor)
    requires Downscaled(px, py) && (px.sigma > 0.0 || py.sigma > 0.0)
    requires r.Valid()
    modifies r
    ensures r.Valid()
    ensures old(r.attempts) <= r.attempts
    ensures result.Some? <==> NoneFail(r.failures, old(r.attempts), r.attempts)
    ensures Extends(old(r.ops), r.ops,
                    DownscaledOps(GetBlurConfig(srcConfig, hasColorSpace), srcBounds, srcOffset, px, py, mode,
                                  dstWidth, dstHeight, fit),
                    result.Some?)
    ensures result.Some? ==> result.value == Target(fit, dstWidth, dstHeight, GetBlurConfig(srcConfig, hasColorSpace))
  {
    var config := GetBlurConfig(srcConfig, hasColorSpace);
    BlurConfigIdempotent(srcConfig, hasColorSpace);
    var srcRect := ScaleIRectRoundOut(MakeWH(dstWidth, dstHeight), px.scaleFactor, py.scaleFactor);
    ghost var content := RoundOut(SourceRect(mode, srcBounds, srcOffset, dstWidth, dstHeight),
                                  px.scaleFactor, py.scaleFactor);
    ghost var firstOps := DecimatedOps(config, srcBounds, srcOffset, srcRect, px, py, mode, dstWidth, dstHeight);
    ghost var reOps := ReexpandOps(config, srcRect.Width(), srcRect.Height(),
                                   PassesBounds(srcRect, content, px, py, mode), px.scaleFactor, py.scaleFactor,
                                   mode, dstWidth, dstHeight, fit);
    assert DownscaledOps(config, srcBounds, srcOffset, px, py, mode, dstWidth, dstHeight, fit) == firstOps + reOps;

    ghost var ops0 := r.ops;
    var last, localSrcBounds := DecimatedPasses(r, srcConfig, hasColorSpace, srcBounds, srcOffset, srcRect,
                                                px, py, mode, dstWidth, dstHeight);
    if last.None? {
      AbortedBefore(ops0, r.ops, firstOps, reOps);
      return None;
    }
    ghost var ops1 := r.ops;
    ghost var at1 := r.attempts;
    result := Reexpand(r, last.value, hasColorSpace, localSrcBounds, px.scaleFactor, py.scaleFactor, mode,
                       dstWidth, dstHeight, fit);
    StagesThen(ops0, ops1, r.ops, old(r.attempts), at1, r.attempts, r.failures, firstOps, reOps, result.Some?);
  }

  /**
   * The separable path of GaussianBlur: the downscaled path when an axis has a factor above 1,
   * else the passes over the destination bounds, the last of them with the caller's fit. On
   * success the result is a target of the destination's size with the caller's fit.
   */
  method SeparableBlur(r: Renderer, srcConfig: PixelConfig, hasColorSpace: bool, srcBounds: IRect,
                       srcOffset: IPoint, px: PlannedAxis, py: PlannedAxis, mode: Mode,
                       dstWidth: int, dstHeight: int, fit: Fit)
    returns (result: Option<Target>)
    requires IsPow2(px.scaleFactor) && IsPow2(py.scaleFactor)
    requires Downscaled(px, py) ==> px.sigma > 0.0 || py.sigma > 0.0
    requires r.Valid()
    modifies r
    ensures r.Valid()
    ensures old(r.attempts) <= r.attempts
    ensures (result.Some? || (px.sigma <= 0.0 && py.sigma <= 0.0)) <==> NoneFail(r.failures, old(r.attempts), r.attempts)
    ensures Extends(old(r.ops), r.ops,
                    SeparableOps(GetBlurConfig(srcConfig, hasColorSpace), srcBounds, srcOffset, px, py, mode,
                                 dstWidth, dstHeight, fit),
                    result.Some? || (px.sigma <= 0.0 && py.sigma <= 0.0))
    ensures px.sigma <= 0.0 && py.sigma <= 0.0 ==> result.None?
    ensures result.Some? ==> result.value == Target(fit, dstWidth, dstHeight, GetBlurConfig(srcConfig, hasColorSpace))
  {
    if px.scaleFactor > 1 || py.scaleFactor > 1 {
      result := DownscaledBlur(r, srcConfig, hasColorSpace, srcBounds, srcOffset, px, py, mode,
                               dstWidth, dstHeight, fit);
      return;
    }
    var srcRect := ScaleIRectRoundOut(MakeWH(dstWidth, dstHeight), px.scaleFactor, py.scaleFactor);
    assert srcRect == MakeWH(dstWidth, dstHeight);
    var xFit := if py.sigma > 0.0 then Approx else fit;
    var localSrcBounds;
    result, localSrcBounds := SeparablePasses(r, srcConfig, hasColorSpace, srcRect, srcOffset, srcBounds, px, py, mode,
                                              dstWidth, dstHeight, xFit, fit);
  }

  /**
   * GaussianBlur once both axes are planned: the fused 2-D path when fused holds (both axes
   * blur and the 2-D kernel is small enough), the separable path otherwise. On success the
   * result is a target of the destination's size with the caller's fit.
   */
  method PlannedBlur(r: Renderer, srcConfig: PixelConfig, hasColorSpace: bool, srcBounds: IRect, srcOffset: IPoint,
                     px: PlannedAxis, py: PlannedAxis, fused: bool, mode: Mode, dstWidth: int, dstHeight: int,
                     fit: Fit)
    returns (result: Option<Target>)
    requires IsPow2(px.scaleFactor) && IsPow2(py.scaleFactor)
    requires Downscaled(px, py) ==> px.sigma > 0.0 || py.sigma > 0.0
    requires fused ==> px.sigma > 0.0 && py.sigma > 0.0
    requires r.Valid()
    modifies r
    ensures r.Valid()
    ensures old(r.attempts) <= r.attempts
    ensures (result.Some? || (px.sigma <= 0.0 && py.sigma <= 0.0)) <==> NoneFail(r.failures, old(r.attempts), r.attempts)
    ensures Extends(old(r.ops), r.ops,
                    PlannedOps(GetBlurConfig(srcConfig, hasColorSpace), srcBounds, srcOffset, px, py, fused, mode,
                               dstWidth, dstHeight, fit),
                    result.Some? || (px.sigma <= 0.0 && py.sigma <= 0.0))
    ensures px.sigma <= 0.0 && py.sigma <= 0.0 ==> result.None?
    ensures result.Some? ==> result.value == Target(fit, dstWidth, dstHeight, GetBlurConfig(srcConfig, hasColorSpace))
  {
    if fused {
      result := ConvolveGaussian2D(r, srcConfig, hasColorSpace, srcBounds, srcOffset, px.radius, py.radius,
                                   px.sigma, py.sigma, mode, dstWidth, dstHeight, fit);
    } else {
      result := SeparableBlur(r, srcConfig, hasColorSpace, srcBounds, srcOffset, px, py, mode,
                              dstWidth, dstHeight, fit);
    }
  }

  /**
   * GaussianBlur: chooses the blur configuration and gives up without a colour type, plans
   * both axes, and takes the fused 2-D path for small kernels on both axes, the separable path
   * otherwise. On success the result is a target of the destination's size, in the blur
   * configuration, with the caller's fit.
   */
  method GaussianBlur(r: Renderer, caps: Caps, req: Request) returns (result: Option<Target>)
    requires IsPow2(caps.maxTextureSize)
    requires r.Valid()
    modifies r
    ensures r.Valid()
    ensures old(r.attempts) <= r.attempts
    ensures (result.Some? || !BlurRuns(caps, req)) <==> NoneFail(r.failures, old(r.attempts), r.attempts)
    ensures Extends(old(r.ops), r.ops, BlurOps(caps, req), result.Some? || !BlurRuns(caps, req))
    ensures !BlurRuns(caps, req) ==> result.None?
    ensures result.Some? ==>
      result.value == Target(req.fit, req.dstBounds.Width(), req.dstBounds.Height(), BlurConfig(req))
  {
    var config := GetBlurConfig(req.srcConfig, req.hasColorSpace);
    if config !in caps.colorTypeConfigs {
      ExtendsNothing(r.ops);
      return None;
    }
    var sigmaX, scaleFactorX, radiusX := AdjustSigma(req.sigmaX, caps.maxTextureSize);
    var sigmaY, scaleFactorY, radiusY := AdjustSigma(req.sigmaY, caps.maxTextureSize);
    SeparablePlan(req.sigmaX, caps.maxTextureSize);
    SeparablePlan(req.sigmaY, caps.maxTextureSize);
    var px, py := PlannedAxis(sigmaX, scaleFactorX, radiusX), PlannedAxis(sigmaY, scaleFactorY, radiusY);
    var fused := sigmaX > 0.0 && sigmaY > 0.0 && (2 * radiusX + 1) * (2 * radiusY + 1) <= caps.maxKernelSize;
    var srcOffset := req.dstBounds.TopLeft().Negated();
    assert fused == Fused(px, py, caps.maxKernelSize);
    result := PlannedBlur(r, req.srcConfig, req.hasColorSpace, req.srcBounds, srcOffset, px, py, fused, req.mode,
                          req.dstBounds.Width(), req.dstBounds.Height(), req.fit);
  }

  /**
   * GaussianBlur on a fresh renderer none of whose allocations fail: it performs exactly BlurOps
   * and produces the destination-sized result whenever it runs.
   */
  method BlurWithoutFailures(caps: Caps, req: Request) returns (result: Option<Target>, ops: seq<Op>)
    requires IsPow2(caps.maxTextureSize)
    ensures ops == BlurOps(caps, req)
    ensures result.Some? <==> BlurRuns(caps, req)
    ensures result.Some? ==>
      result.value == Target(req.fit, req.dstBounds.Width(), req.dstBounds.Height(), BlurConfig(req))
  {
    var r := new Renderer({});
    result := GaussianBlur(r, caps, req);
    NoneFailWithout(0, r.attempts);
    ExtendedBy([], r.ops, BlurOps(caps, req));
    ops := r.ops;
  }

  /**
   * What GaussianBlur needs of a planned axis: a power-of-two factor, above 1 only for a
   * positive sigma, and a positive planned sigma exactly when the requested one is positive.
   */
  lemma SeparablePlan(sigma: real, maxTextureSize: int)
    requires IsPow2(maxTextureSize)
    ensures var p := Plan(sigma, maxTextureSize);
      && IsPow2(p.scaleFactor)
      && (p.scaleFactor > 1 ==> p.sigma > 0.0)
      && (p.sigma > 0.0 <==> sigma > 0.0)
  {
    Pow2IsPow2(0);
    assert maxTextureSize >= 1 by {
      assert Pow2(Log2(maxTextureSize)) == maxTextureSize;
    }
    PlanFactorIsPow2(sigma, maxTextureSize);
    PlanBounds(sigma, maxTextureSize);
  }

  /** The targets of a complete run: intermediates in the given configuration, then t, the result, last. */
  predicate ResultLast(a: seq<Target>, config: PixelConfig, t: Target)
  {
    |a| >= 1 && Intermediates(a[..|a| - 1], config) && a[|a| - 1] == t
  }

  /**
   * The passes allocate the X pass's target with xFit when sigmaX is positive, then the Y pass's
   * with yFit when sigmaY is positive, both of srcRect's size; they ask nothing when neither is.
   */
  lemma PassesAllocate(config: PixelConfig, srcRect: IRect, offset: IPoint, bounds: IRect, px: PlannedAxis,
                       py: PlannedAxis, mode: Mode, dstWidth: int, dstHeight: int, xFit: Fit, yFit: Fit)
    ensures Allocated(PassesOps(config, srcRect, offset, bounds, px, py, mode, dstWidth, dstHeight, xFit, yFit))
            == (if px.sigma > 0.0 then [Target(xFit, srcRect.Width(), srcRect.Height(), config)] else [])
               + (if py.sigma > 0.0 then [Target(yFit, srcRect.Width(), srcRect.Height(), config)] else [])
    ensures PassesOps(config, srcRect, offset, bounds, px, py, mode, dstWidth, dstHeight, xFit, yFit) == []
            <==> px.sigma <= 0.0 && py.sigma <= 0.0
  {
    var xOps := if px.sigma > 0.0 then XPassOps(config, srcRect, offset, bounds, px, py, mode, dstWidth, dstHeight,
                                                 xFit) else [];
    var yOps := YPassOps(config, srcRect, offset, bounds, px, py, mode, dstWidth, dstHeight, yFit);
    AllocatedAppend(xOps, yOps);
    if px.sigma > 0.0 {
      var conv := ConvolveOps(config, srcRect, offset, X, px.radius, px.sigma, bounds, mode, dstWidth, dstHeight,
                              xFit);
      var clear := if py.sigma > 0.0 then [AbsClear(MakeXYWH(srcRect.left, srcRect.bottom, srcRect.Width(),
                                                               py.radius))] else [];
      ConvolveAllocates(config, srcRect, offset, X, px.radius, px.sigma, bounds, mode, dstWidth, dstHeight, xFit);
      AllocatedAppend(conv, clear);
      NoAllocAllocated(clear);
    }
    if py.sigma > 0.0 {
      ConvolveAllocates(config, if px.sigma > 0.0 then srcRect.OffsetTo(0, 0) else srcRect,
                        if px.sigma > 0.0 then IPoint(0, 0) else offset, Y, py.radius, py.sigma,
                        PassesBounds(srcRect, bounds, px, py, mode), mode, dstWidth, dstHeight, yFit);
    }
  }

  /**
   * The downscaled path allocates intermediates only (the halvings and the passes), then the
   * destination-sized result with the caller's fit.
   */
  lemma DownscaledAllocations(config: PixelConfig, srcBounds: IRect, srcOffset: IPoint, px: PlannedAxis,
                              py: PlannedAxis, mode: Mode, dstWidth: int, dstHeight: int, fit: Fit)
    requires IsPow2(px.scaleFactor) && IsPow2(py.scaleFactor)
    ensures var a := Allocated(DownscaledOps(config, srcBounds, srcOffset, px, py, mode, dstWidth, dstHeight, fit));
      ResultLast(a, config, Target(fit, dstWidth, dstHeight, config))
  {
    var dec := DecimateOps(config, srcOffset, srcBounds, px.scaleFactor, py.scaleFactor, px.sigma > 0.0,
                           px.radius, py.radius, mode, dstWidth, dstHeight);
    DecimateAllocations(config, srcOffset, srcBounds, px.scaleFactor, py.scaleFactor, px.sigma > 0.0,
                        px.radius, py.radius, mode, dstWidth, dstHeight);
    PassesThenReexpandAllocations(dec, config, RoundOut(MakeWH(dstWidth, dstHeight), px.scaleFactor, py.scaleFactor),
                                  if mode == Ignore then srcOffset else IPoint(0, 0),
                                  RoundOut(SourceRect(mode, srcBounds, srcOffset, dstWidth, dstHeight),
                                           px.scaleFactor, py.scaleFactor),
                                  px, py, mode, dstWidth, dstHeight, fit);
  }

  /**
   * After stages that allocate intermediates only, the passes into approximate-fit targets and
   * re-expansion leave the destination-sized result, with the caller's fit, as the last target.
   */
  lemma PassesThenReexpandAllocations(before: seq<Op>, config: PixelConfig, srcRect: IRect, offset: IPoint,
                                      content: IRect, px: PlannedAxis, py: PlannedAxis, mode: Mode,
                                      dstWidth: int, dstHeight: int, fit: Fit)
    requires Intermediates(Allocated(before), config)
    ensures ResultLast(Allocated(before
                                 + PassesOps(config, srcRect, offset, content, px, py, mode, dstWidth, dstHeight,
                                             Approx, Approx)
                                 + ReexpandOps(config, srcRect.Width(), srcRect.Height(),
                                               PassesBounds(srcRect, content, px, py, mode), px.scaleFactor,
                                               py.scaleFactor, mode, dstWidth, dstHeight, fit)),
                       config, Target(fit, dstWidth, dstHeight, config))
  {
    var passes := PassesOps(config, srcRect, offset, content, px, py, mode, dstWidth, dstHeight, Approx, Approx);
    var re := ReexpandOps(config, srcRect.Width(), srcRect.Height(), PassesBounds(srcRect, content, px, py, mode),
                          px.scaleFactor, py.scaleFactor, mode, dstWidth, dstHeight, fit);
    PassesIntermediates(config, srcRect, offset, content, px, py, mode, dstWidth, dstHeight);
    ReexpandAllocates(config, srcRect.Width(), srcRect.Height(), PassesBounds(srcRect, content, px, py, mode),
                      px.scaleFactor, py.scaleFactor, mode, dstWidth, dstHeight, fit);
    IntermediatesThenResult(before, passes, re, config, Target(fit, dstWidth, dstHeight, config));
  }

  /** Passes into approximate-fit targets allocate intermediates only. */
  lemma PassesIntermediates(config: PixelConfig, srcRect: IRect, offset: IPoint, bounds: IRect, px: PlannedAxis,
                            py: PlannedAxis, mode: Mode, dstWidth: int, dstHeight: int)
    ensures Intermediates(Allocated(PassesOps(config, srcRect, offset, bounds, px, py, mode, dstWidth, dstHeight,
                                              Approx, Approx)), config)
  {
    PassesAllocate(config, srcRect, offset, bounds, px, py, mode, dstWidth, dstHeight, Approx, Approx);
    var t := Target(Approx, srcRect.Width(), srcRect.Height(), config);
    IntermediatesAppend(if px.sigma > 0.0 then [t] else [], if py.sigma > 0.0 then [t] else [], config);
  }

  /** Stages allocating only intermediates, then a stage allocating only the result t. */
  lemma IntermediatesThenResult(first: seq<Op>, second: seq<Op>, last: seq<Op>, config: PixelConfig, t: Target)
    requires Intermediates(Allocated(first), config) && Intermediates(Allocated(second), config)
    requires Allocated(last) == [t]
    ensures var a := Allocated(first + second + last);
      ResultLast(a, config, t)
  {
    AllocatedAppend(first + second, last);
    AllocatedAppend(first, second);
    IntermediatesAppend(Allocated(first), Allocated(second), config);
    var a := Allocated(first + second + last);
    var mid := Allocated(first) + Allocated(second);
    assert a == mid + [t];
    assert a[..|a| - 1] == mid;
  }

  /**
   * The fit decision of GaussianBlur once both axes are planned: when some sigma is positive,
   * every target allocated is in the blur configuration and all but the last are approximate
   * intermediates, while the last is the destination-sized result with the caller's fit; when
   * neither is, nothing is asked of the renderer.
   */
  lemma PlannedAllocations(config: PixelConfig, srcBounds: IRect, srcOffset: IPoint, px: PlannedAxis,
                           py: PlannedAxis, fused: bool, mode: Mode, dstWidth: int, dstHeight: int, fit: Fit)
    requires IsPow2(px.scaleFactor) && IsPow2(py.scaleFactor)
    requires Downscaled(px, py) ==> px.sigma > 0.0 || py.sigma > 0.0
    requires fused ==> px.sigma > 0.0 && py.sigma > 0.0
    ensures var ops := PlannedOps(config, srcBounds, srcOffset, px, py, fused, mode, dstWidth, dstHeight, fit);
      var a := Allocated(ops);
      && (ops == [] <==> px.sigma <= 0.0 && py.sigma <= 0.0)
      && (px.sigma > 0.0 || py.sigma > 0.0 ==>
            ResultLast(a, config, Target(fit, dstWidth, dstHeight, config)))
  {
    var ops := PlannedOps(config, srcBounds, srcOffset, px, py, fused, mode, dstWidth, dstHeight, fit);
    if fused {
      Convolve2DAllocates(config, srcBounds, srcOffset, px.radius, py.radius, px.sigma, py.sigma, mode,
                          dstWidth, dstHeight, fit);
      assert ops == Convolve2DOps(config, srcBounds, srcOffset, px.radius, py.radius, px.sigma, py.sigma, mode,
                                  dstWidth, dstHeight, fit);
    } else if Downscaled(px, py) {
      DownscaledAllocations(config, srcBounds, srcOffset, px, py, mode, dstWidth, dstHeight, fit);
      assert ops == DownscaledOps(config, srcBounds, srcOffset, px, py, mode, dstWidth, dstHeight, fit);
    } else {
      var xFit := if py.sigma > 0.0 then Approx else fit;
      var passes := PassesOps(config, MakeWH(dstWidth, dstHeight), srcOffset, srcBounds, px, py, mode,
                              dstWidth, dstHeight, xFit, fit);
      PassesAllocate(config, MakeWH(dstWidth, dstHeight), srcOffset, srcBounds, px, py, mode, dstWidth, dstHeight,
                     xFit, fit);
      if px.sigma > 0.0 || py.sigma > 0.0 {
        UnscaledAllocations(config, srcBounds, srcOffset, px, py, mode, dstWidth, dstHeight, fit);
      }
      assert ops == passes;
    }
  }

  /**
   * Without downscaling the passes run over the destination itself: the X pass's target is an
   * intermediate when a Y pass follows, and the last pass's target is the result.
   */
  lemma UnscaledAllocations(config: PixelConfig, srcBounds: IRect, srcOffset: IPoint, px: PlannedAxis,
                            py: PlannedAxis, mode: Mode, dstWidth: int, dstHeight: int, fit: Fit)
    requires px.sigma > 0.0 || py.sigma > 0.0
    ensures var a := Allocated(PassesOps(config, MakeWH(dstWidth, dstHeight), srcOffset, srcBounds, px, py, mode,
                                         dstWidth, dstHeight, if py.sigma > 0.0 then Approx else fit, fit));
      ResultLast(a, config, Target(fit, dstWidth, dstHeight, config))
  {
    var xFit := if py.sigma > 0.0 then Approx else fit;
    PassesAllocate(config, MakeWH(dstWidth, dstHeight), srcOffset, srcBounds, px, py, mode, dstWidth, dstHeight,
                   xFit, fit);
    var a := Allocated(PassesOps(config, MakeWH(dstWidth, dstHeight), srcOffset, srcBounds, px, py, mode,
                                 dstWidth, dstHeight, xFit, fit));
    if py.sigma > 0.0 {
      assert a[..|a| - 1] == if px.sigma > 0.0 then [Target(Approx, dstWidth, dstHeight, config)] else [];
    }
  }

  /**
   * GaussianBlur hands the caller's fit only to the stage that produces the result: when the
   * blur runs, every target it allocates is in the blur configuration, all but the last are
   * approximate, and the last is the destination-sized result with the caller's fit. When it
   * does not run, it asks nothing of the renderer.
   */
  lemma BlurAllocations(caps: Caps, req: Request)
    requires IsPow2(caps.maxTextureSize)
    ensures var a := Allocated(BlurOps(caps, req));
      && (BlurOps(caps, req) == [] <==> !BlurRuns(caps, req))
      && (BlurRuns(caps, req) ==>
            ResultLast(a, BlurConfig(req), Target(req.fit, req.dstBounds.Width(), req.dstBounds.Height(),
                                                  BlurConfig(req))))
  {
    if BlurConfig(req) in caps.colorTypeConfigs {
      var px, py := Plan(req.sigmaX, caps.maxTextureSize), Plan(req.sigmaY, caps.maxTextureSize);
      SeparablePlan(req.sigmaX, caps.maxTextureSize);
      SeparablePlan(req.sigmaY, caps.maxTextureSize);
      PlannedAllocations(BlurConfig(req), req.srcBounds, req.dstBounds.TopLeft().Negated(), px, py,
                         Fused(px, py, caps.maxKernelSize), req.mode, req.dstBounds.Width(),
                         req.dstBounds.Height(), req.fit);
    }
  }

  /**
   * The passes over the W x H destination, after whatever came before: the last of them leaves
   * every destination pixel written exactly once since its target was allocated.
   */
  lemma PassesCover(before: seq<Op>, config: PixelConfig, srcOffset: IPoint, bounds: IRect, px: PlannedAxis,
                    py: PlannedAxis, mode: Mode, dstWidth: int, dstHeight: int, xFit: Fit, yFit: Fit,
                    x: int, y: int)
    requires px.sigma > 0.0 || py.sigma > 0.0
    requires 0 <= x < dstWidth && 0 <= y < dstHeight
    requires bounds.left <= bounds.right && bounds.top <= bounds.bottom
    ensures CurrentWrites(before + PassesOps(config, MakeWH(dstWidth, dstHeight), srcOffset, bounds, px, py, mode,
                                             dstWidth, dstHeight, xFit, yFit), x, y) == 1
  {
    var srcRect := MakeWH(dstWidth, dstHeight);
    var xOps := if px.sigma > 0.0 then XPassOps(config, srcRect, srcOffset, bounds, px, py, mode, dstWidth,
                                                 dstHeight, xFit) else [];
    var yOps := YPassOps(config, srcRect, srcOffset, bounds, px, py, mode, dstWidth, dstHeight, yFit);
    assert before + PassesOps(config, srcRect, srcOffset, bounds, px, py, mode, dstWidth, dstHeight, xFit, yFit)
           == (before + xOps) + yOps;
    if py.sigma > 0.0 {
      YPassCovers(before + xOps, config, srcOffset, bounds, px, py, mode, dstWidth, dstHeight, yFit, x, y);
    } else {
      var conv := ConvolveOps(config, srcRect, srcOffset, X, px.radius, px.sigma, bounds, mode, dstWidth, dstHeight,
                              xFit);
      assert (before + xOps) + yOps == before + conv;
      ConvolveCovers(before, config, srcRect, srcOffset, X, px.radius, px.sigma, bounds, mode, dstWidth, dstHeight,
                     xFit, x, y);
    }
  }

  /** A Y pass over the W x H destination leaves every pixel of its target written exactly once. */
  lemma YPassCovers(before: seq<Op>, config: PixelConfig, srcOffset: IPoint, bounds: IRect, px: PlannedAxis,
                    py: PlannedAxis, mode: Mode, dstWidth: int, dstHeight: int, yFit: Fit, x: int, y: int)
    requires py.sigma > 0.0
    requires 0 <= x < dstWidth && 0 <= y < dstHeight
    requires bounds.left <= bounds.right
    ensures CurrentWrites(before + YPassOps(config, MakeWH(dstWidth, dstHeight), srcOffset, bounds, px, py, mode,
                                            dstWidth, dstHeight, yFit), x, y) == 1
  {
    var srcRect := MakeWH(dstWidth, dstHeight);
    var rect := if px.sigma > 0.0 then srcRect.OffsetTo(0, 0) else srcRect;
    var offset := if px.sigma > 0.0 then IPoint(0, 0) else srcOffset;
    ConvolveCovers(before, config, rect, offset, Y, py.radius, py.sigma, PassesBounds(srcRect, bounds, px, py, mode),
                   mode, dstWidth, dstHeight, yFit, x, y);
  }

  /**
   * The downscaled path ends with re-expansion of a source of ceil(W / sx) x ceil(H / sy)
   * pixels, which leaves every destination pixel written exactly once.
   */
  lemma DownscaledCovers(config: PixelConfig, srcBounds: IRect, srcOffset: IPoint, px: PlannedAxis,
                         py: PlannedAxis, mode: Mode, dstWidth: int, dstHeight: int, fit: Fit, x: int, y: int)
    requires IsPow2(px.scaleFactor) && IsPow2(py.scaleFactor)
    requires 0 <= x < dstWidth && 0 <= y < dstHeight
    ensures CurrentWrites(DownscaledOps(config, srcBounds, srcOffset, px, py, mode, dstWidth, dstHeight, fit),
                          x, y) == 1
  {
    var srcRect := RoundOut(MakeWH(dstWidth, dstHeight), px.scaleFactor, py.scaleFactor);
    var content := RoundOut(SourceRect(mode, srcBounds, srcOffset, dstWidth, dstHeight),
                            px.scaleFactor, py.scaleFactor);
    var offset := if mode == Ignore then srcOffset else IPoint(0, 0);
    var dec := DecimateOps(config, srcOffset, srcBounds, px.scaleFactor, py.scaleFactor, px.sigma > 0.0,
                           px.radius, py.radius, mode, dstWidth, dstHeight);
    var passes := PassesOps(config, srcRect, offset, content, px, py, mode, dstWidth, dstHeight, Approx, Approx);
    assert srcRect.Width() == CeilDiv(dstWidth, px.scaleFactor);
    assert srcRect.Height() == CeilDiv(dstHeight, py.scaleFactor);
    ReexpandCovers(dec + passes, config, PassesBounds(srcRect, content, px, py, mode), px.scaleFactor,
                   py.scaleFactor, mode, dstWidth, dstHeight, fit, x, y);
  }

  /**
   * Once both axes are planned and some sigma is positive, the stage that produces the result
   * writes every pixel of it exactly once: none is left with what its (possibly recycled)
   * backing held before.
   */
  lemma PlannedCovers(config: PixelConfig, srcBounds: IRect, srcOffset: IPoint, px: PlannedAxis,
                      py: PlannedAxis, fused: bool, mode: Mode, dstWidth: int, dstHeight: int, fit: Fit,
                      x: int, y: int)
    requires IsPow2(px.scaleFactor) && IsPow2(py.scaleFactor)
    requires px.sigma > 0.0 || py.sigma > 0.0
    requires 0 <= x < dstWidth && 0 <= y < dstHeight
    requires srcBounds.left <= srcBounds.right && srcBounds.top <= srcBounds.bottom
    ensures CurrentWrites(PlannedOps(config, srcBounds, srcOffset, px, py, fused, mode, dstWidth, dstHeight, fit),
                          x, y) == 1
  {
    if fused {
      var ops := Convolve2DOps(config, srcBounds, srcOffset, px.radius, py.radius, px.sigma, py.sigma, mode,
                               dstWidth, dstHeight, fit);
      Convolve2DCovers([], config, srcBounds, srcOffset, px.radius, py.radius, px.sigma, py.sigma, mode,
                       dstWidth, dstHeight, fit, x, y);
      assert [] + ops == ops;
    } else if Downscaled(px, py) {
      DownscaledCovers(config, srcBounds, srcOffset, px, py, mode, dstWidth, dstHeight, fit, x, y);
    } else {
      var ops := PassesOps(config, MakeWH(dstWidth, dstHeight), srcOffset, srcBounds, px, py, mode,
                           dstWidth, dstHeight, if py.sigma > 0.0 then Approx else fit, fit);
      PassesCover([], config, srcOffset, srcBounds, px, py, mode, dstWidth, dstHeight,
                  if py.sigma > 0.0 then Approx else fit, fit, x, y);
      assert [] + ops == ops;
    }
  }

  /**
   * When the blur runs and nothing fails, every pixel of the result is written exactly once
   * after the result's target is allocated, so no pixel keeps stale contents.
   */
  lemma BlurCoversResult(caps: Caps, req: Request, x: int, y: int)
    requires IsPow2(caps.maxTextureSize) && BlurRuns(caps, req)
    requires 0 <= x < req.dstBounds.Width() && 0 <= y < req.dstBounds.Height()
    requires req.srcBounds.left <= req.srcBounds.right && req.srcBounds.top <= req.srcBounds.bottom
    ensures CurrentWrites(BlurOps(caps, req), x, y) == 1
  {
    var px, py := Plan(req.sigmaX, caps.maxTextureSize), Plan(req.sigmaY, caps.maxTextureSize);
    SeparablePlan(req.sigmaX, caps.maxTextureSize);
    SeparablePlan(req.sigmaY, caps.maxTextureSize);
    PlannedCovers(BlurConfig(req), req.srcBounds, req.dstBounds.TopLeft().Negated(), px, py,
                  Fused(px, py, caps.maxKernelSize), req.mode, req.dstBounds.Width(), req.dstBounds.Height(),
                  req.fit, x, y);
  }
}
