/**
 * The convolution passes of the blur: a separable 1-D pass (convolve_gaussian), which splits its
 * target into cleared bands, clamped margins and an unclamped middle, and the fused 2-D pass
 * (convolve_gaussian_2d).
 */
module Convolver {
  import opened Geometry
  import opened PixelConfigs
  import opened RenderTrace

  /**
   * The rectangles a 1-D pass works with, in target coordinates. Along the pass axis the target
   * is split into leftRect, midRect and rightRect; across it, topRect and bottomRect lie outside
   * the content and are cleared. For a vertical pass the same names denote the transposed
   * rectangles (topRect is the part left of the content, leftRect the part above the middle).
   * bandRect is the whole band the content spans across the axis.
   */
  datatype Bands = Bands(topRect: IRect, bottomRect: IRect, leftRect: IRect, midRect: IRect,
                         rightRect: IRect, bandRect: IRect)

  function PassBands(w: int, h: int, srcOffset: IPoint, direction: Direction, radius: int,
                     srcBounds: IRect): (bands: Bands)
  {
    var dstRect := MakeWH(w, h);
    var m := srcBounds.Offset(srcOffset);
    if direction == X then
      var mid := m.Inset(radius, 0);
      Bands(IRect(0, 0, dstRect.right, m.top), IRect(0, m.bottom, dstRect.right, dstRect.bottom),
            IRect(0, mid.top, mid.left, mid.bottom), mid,
            IRect(mid.right, mid.top, dstRect.Width(), mid.bottom),
            dstRect.(top := mid.top, bottom := mid.bottom))
    else
      var mid := m.Inset(0, radius);
      Bands(IRect(0, 0, m.left, dstRect.bottom), IRect(m.right, 0, dstRect.right, dstRect.bottom),
            IRect(mid.left, 0, mid.right, mid.top), mid,
            IRect(mid.left, mid.bottom, mid.right, dstRect.Height()),
            dstRect.(left := mid.left, right := mid.right))
  }

  /** The content bounds along the pass axis handed to the convolution. */
  function AxisBounds(srcBounds: IRect, direction: Direction): (int, int)
  {
    if direction == X then (srcBounds.left, srcBounds.right) else (srcBounds.top, srcBounds.bottom)
  }

  function ClearUnlessEmpty(rect: IRect): seq<Op>
  {
    if rect.IsEmpty() then [] else [Clear(rect)]
  }

  /** What a 1-D pass asks of its freshly allocated w x h target. */
  function PassOps(w: int, h: int, srcOffset: IPoint, direction: Direction, radius: int,
                   sigma: real, srcBounds: IRect, mode: Mode, clip: IRect): (ops: seq<Op>)
  {
    if mode == Ignore then
      [DrawLocal(clip, MakeWH(w, h), srcOffset, Gaussian1D(direction, radius, sigma, Ignore, 0, 0))]
    else
      var b := PassBands(w, h, srcOffset, direction, radius, srcBounds);
      var (lo, hi) := AxisBounds(srcBounds, direction);
      var paint := Gaussian1D(direction, radius, sigma, mode, lo, hi);
      ClearUnlessEmpty(b.topRect) + ClearUnlessEmpty(b.bottomRect)
      + BandFills(clip, b, srcOffset, direction, radius, sigma, mode, lo, hi)
  }

  /** The fills of the content band: the whole band clamped, or clamped margins and an unclamped middle. */
  function BandFills(clip: IRect, b: Bands, srcOffset: IPoint, direction: Direction, radius: int,
                     sigma: real, mode: Mode, lo: int, hi: int): seq<Op>
  {
    var paint := Gaussian1D(direction, radius, sigma, mode, lo, hi);
    if b.midRect.IsEmpty() then
      [DrawLocal(clip, b.bandRect, srcOffset, paint)]
    else
      [DrawLocal(clip, b.leftRect, srcOffset, paint),
       DrawLocal(clip, b.rightRect, srcOffset, paint),
       DrawLocal(clip, b.midRect, srcOffset, Gaussian1D(direction, radius, sigma, Ignore, lo, hi))]
  }

  /** The whole of a 1-D pass: a target the size of srcRect, then the pass over it. */
  function ConvolveOps(config: PixelConfig, srcRect: IRect, srcOffset: IPoint, direction: Direction,
                       radius: int, sigma: real, srcBounds: IRect, mode: Mode,
                       dstWidth: int, dstHeight: int, fit: Fit): (ops: seq<Op>)
  {
    [Alloc(Target(fit, srcRect.Width(), srcRect.Height(), config))]
    + PassOps(srcRect.Width(), srcRect.Height(), srcOffset, direction, radius, sigma, srcBounds, mode,
              MakeWH(dstWidth, dstHeight))
  }

  /** The whole of the fused pass: a target of the destination size, filled by one 2-D convolution. */
  function Convolve2DOps(config: PixelConfig, srcBounds: IRect, srcOffset: IPoint, radiusX: int,
                         radiusY: int, sigmaX: real, sigmaY: real, mode: Mode,
                         dstWidth: int, dstHeight: int, fit: Fit): (ops: seq<Op>)
  {
    var bounds := MakeWH(dstWidth, dstHeight);
    [Alloc(Target(fit, dstWidth, dstHeight, config)),
     DrawLocal(bounds, bounds, srcOffset, Gaussian2D(srcBounds, radiusX, radiusY, sigmaX, sigmaY, mode))]
  }

  /** True iff pixel (x, y), shifted back by srcOffset, lies across the pass axis within the content. */
  predicate InBand(srcBounds: IRect, srcOffset: IPoint, direction: Direction, x: int, y: int)
  {
    if direction == X then srcBounds.top <= y - srcOffset.y < srcBounds.bottom
    else srcBounds.left <= x - srcOffset.x < srcBounds.right
  }

  /** True iff all 2*radius+1 taps of the kernel at pixel (x, y) fall inside the content. */
  predicate KernelInside(srcBounds: IRect, srcOffset: IPoint, direction: Direction, radius: int,
                         x: int, y: int)
  {
    if direction == X then
      srcBounds.left <= x - srcOffset.x - radius && x - srcOffset.x + radius < srcBounds.right
    else
      srcBounds.top <= y - srcOffset.y - radius && y - srcOffset.y + radius < srcBounds.bottom
  }

  /** The sampling a pass is meant to give pixel (x, y) of its target. */
  function ExpectedModes(srcBounds: IRect, srcOffset: IPoint, direction: Direction, radius: int,
                         mode: Mode, x: int, y: int): set<Mode>
  {
    if mode == Ignore then {Ignore}
    else if !InBand(srcBounds, srcOffset, direction, x, y) then {}
    else if KernelInside(srcBounds, srcOffset, direction, radius, x, y) then {Ignore}
    else {mode}
  }

  /**
   * A pass writes every pixel of its target exactly once. Without a content domain every pixel
   * is convolved without clamping. Otherwise a pixel outside the content band is cleared (written
   * by no convolution), and a pixel inside it is convolved without clamping exactly when its
   * whole kernel lies inside the content, and with the domain mode otherwise.
   */
  lemma PassPartition(w: int, h: int, srcOffset: IPoint, direction: Direction, radius: int,
                      sigma: real, srcBounds: IRect, mode: Mode, dstWidth: int, dstHeight: int,
                      x: int, y: int)
    requires 0 <= x < w <= dstWidth && 0 <= y < h <= dstHeight
    requires direction == X ==> srcBounds.top <= srcBounds.bottom
    requires direction == Y ==> srcBounds.left <= srcBounds.right
    ensures var ops := PassOps(w, h, srcOffset, direction, radius, sigma, srcBounds, mode,
                               MakeWH(dstWidth, dstHeight));
      && WriteCount(ops, x, y) == 1
      && DrawModes(ops, x, y) == ExpectedModes(srcBounds, srcOffset, direction, radius, mode, x, y)
  {
    var clip := MakeWH(dstWidth, dstHeight);
    var ops := PassOps(w, h, srcOffset, direction, radius, sigma, srcBounds, mode, clip);
    if mode == Ignore {
      WriteCountOne(ops[0], x, y);
    } else {
      var b := PassBands(w, h, srcOffset, direction, radius, srcBounds);
      var (lo, hi) := AxisBounds(srcBounds, direction);
      var clears := ClearUnlessEmpty(b.topRect) + ClearUnlessEmpty(b.bottomRect);
      var fills := BandFills(clip, b, srcOffset, direction, radius, sigma, mode, lo, hi);
      assert ops == clears + fills;
      ClearsPartition(b, w, h, srcOffset, direction, radius, srcBounds, x, y);
      WriteCountAppend(clears, fills, x, y);
      if b.midRect.IsEmpty() {
        BandCovers(clip, b, w, h, srcOffset, direction, radius, sigma, srcBounds, mode, lo, hi, x, y);
      } else {
        MarginsCover(clip, b, w, h, srcOffset, direction, radius, sigma, srcBounds, mode, lo, hi, x, y);
      }
    }
  }

  /** With no unclamped middle, the band fill writes the content band, clamped. */
  lemma BandCovers(clip: IRect, b: Bands, w: int, h: int, srcOffset: IPoint, direction: Direction,
                   radius: int, sigma: real, srcBounds: IRect, mode: Mode, lo: int, hi: int, x: int, y: int)
    requires b == PassBands(w, h, srcOffset, direction, radius, srcBounds)
    requires 0 <= x < w && 0 <= y < h && clip.Contains(x, y)
    requires b.midRect.IsEmpty()
    ensures var fills := BandFills(clip, b, srcOffset, direction, radius, sigma, mode, lo, hi);
      && WriteCount(fills, x, y) == (if InBand(srcBounds, srcOffset, direction, x, y) then 1 else 0)
      && DrawModes(fills, x, y) == (if InBand(srcBounds, srcOffset, direction, x, y) then {mode} else {})
      && (InBand(srcBounds, srcOffset, direction, x, y) ==> !KernelInside(srcBounds, srcOffset, direction, radius, x, y))
  {
    var fills := BandFills(clip, b, srcOffset, direction, radius, sigma, mode, lo, hi);
    WriteCountOne(fills[0], x, y);
    BandPartition(b, w, h, srcOffset, direction, radius, srcBounds, x, y);
  }

  /**
   * With an unclamped middle, the margins and the middle write the content band once: the
   * middle, unclamped, exactly where the kernel lies inside the content.
   */
  lemma MarginsCover(clip: IRect, b: Bands, w: int, h: int, srcOffset: IPoint, direction: Direction,
                     radius: int, sigma: real, srcBounds: IRect, mode: Mode, lo: int, hi: int, x: int, y: int)
    requires b == PassBands(w, h, srcOffset, direction, radius, srcBounds)
    requires 0 <= x < w && 0 <= y < h && clip.Contains(x, y)
    requires !b.midRect.IsEmpty()
    ensures var fills := BandFills(clip, b, srcOffset, direction, radius, sigma, mode, lo, hi);
      && WriteCount(fills, x, y) == (if InBand(srcBounds, srcOffset, direction, x, y) then 1 else 0)
      && DrawModes(fills, x, y) ==
           if !InBand(srcBounds, srcOffset, direction, x, y) then {}
           else if KernelInside(srcBounds, srcOffset, direction, radius, x, y) then {Ignore}
           else {mode}
  {
    var paint := Gaussian1D(direction, radius, sigma, mode, lo, hi);
    var d0 := DrawLocal(clip, b.leftRect, srcOffset, paint);
    var d1 := DrawLocal(clip, b.rightRect, srcOffset, paint);
    var d2 := DrawLocal(clip, b.midRect, srcOffset, Gaussian1D(direction, radius, sigma, Ignore, lo, hi));
    assert BandFills(clip, b, srcOffset, direction, radius, sigma, mode, lo, hi) == [d0] + [d1] + [d2];
    WriteCountAppend([d0] + [d1], [d2], x, y);
    WriteCountAppend([d0], [d1], x, y);
    WriteCountOne(d0, x, y);
    WriteCountOne(d1, x, y);
    WriteCountOne(d2, x, y);
    MarginsPartition(b, w, h, srcOffset, direction, radius, srcBounds, x, y);
  }

  /** A target pixel lies in exactly one of: the cleared bands, the content band. */
  lemma ClearsPartition(b: Bands, w: int, h: int, srcOffset: IPoint, direction: Direction, radius: int,
                        srcBounds: IRect, x: int, y: int)
    requires b == PassBands(w, h, srcOffset, direction, radius, srcBounds)
    requires 0 <= x < w && 0 <= y < h
    requires direction == X ==> srcBounds.top <= srcBounds.bottom
    requires direction == Y ==> srcBounds.left <= srcBounds.right
    ensures var c := ClearUnlessEmpty(b.topRect) + ClearUnlessEmpty(b.bottomRect);
      && WriteCount(c, x, y) == (if InBand(srcBounds, srcOffset, direction, x, y) then 0 else 1)
      && DrawModes(c, x, y) == {}
  {
    WriteCountAppend(ClearUnlessEmpty(b.topRect), ClearUnlessEmpty(b.bottomRect), x, y);
    if !b.topRect.IsEmpty() {
      WriteCountOne(Clear(b.topRect), x, y);
    }
    if !b.bottomRect.IsEmpty() {
      WriteCountOne(Clear(b.bottomRect), x, y);
    }
  }

  /** With no unclamped middle, the band fill covers exactly the content band. */
  lemma BandPartition(b: Bands, w: int, h: int, srcOffset: IPoint, direction: Direction, radius: int,
                      srcBounds: IRect, x: int, y: int)
    requires b == PassBands(w, h, srcOffset, direction, radius, srcBounds)
    requires 0 <= x < w && 0 <= y < h
    requires b.midRect.IsEmpty()
    ensures b.bandRect.Contains(x, y) <==> InBand(srcBounds, srcOffset, direction, x, y)
    ensures InBand(srcBounds, srcOffset, direction, x, y) ==> !KernelInside(srcBounds, srcOffset, direction, radius, x, y)
  {
  }

  /** With an unclamped middle, the two margins and the middle split the content band. */
  lemma MarginsPartition(b: Bands, w: int, h: int, srcOffset: IPoint, direction: Direction, radius: int,
                         srcBounds: IRect, x: int, y: int)
    requires b == PassBands(w, h, srcOffset, direction, radius, srcBounds)
    requires 0 <= x < w && 0 <= y < h
    requires !b.midRect.IsEmpty()
    ensures InBand(srcBounds, srcOffset, direction, x, y) <==>
      b.leftRect.Contains(x, y) || b.midRect.Contains(x, y) || b.rightRect.Contains(x, y)
    ensures !(b.leftRect.Contains(x, y) && b.rightRect.Contains(x, y))
    ensures !(b.leftRect.Contains(x, y) && b.midRect.Contains(x, y))
    ensures !(b.rightRect.Contains(x, y) && b.midRect.Contains(x, y))
    ensures b.midRect.Contains(x, y) <==>
      InBand(srcBounds, srcOffset, direction, x, y) && KernelInside(srcBounds, srcOffset, direction, radius, x, y)
  {
  }

  /** A pass allocates nothing: it only clears and fills its freshly allocated target. */
  lemma PassOpsNoAlloc(w: int, h: int, srcOffset: IPoint, direction: Direction, radius: int,
                       sigma: real, srcBounds: IRect, mode: Mode, clip: IRect)
    ensures NoAlloc(PassOps(w, h, srcOffset, direction, radius, sigma, srcBounds, mode, clip))
  {
  }

  /** A 1-D pass allocates exactly one target: its own, of srcRect's size, with the given fit. */
  lemma ConvolveAllocates(config: PixelConfig, srcRect: IRect, srcOffset: IPoint, direction: Direction,
                          radius: int, sigma: real, srcBounds: IRect, mode: Mode,
                          dstWidth: int, dstHeight: int, fit: Fit)
    ensures Allocated(ConvolveOps(config, srcRect, srcOffset, direction, radius, sigma, srcBounds, mode,
                                  dstWidth, dstHeight, fit))
            == [Target(fit, srcRect.Width(), srcRect.Height(), config)]
  {
    var t := Target(fit, srcRect.Width(), srcRect.Height(), config);
    var pass := PassOps(srcRect.Width(), srcRect.Height(), srcOffset, direction, radius, sigma, srcBounds, mode,
                        MakeWH(dstWidth, dstHeight));
    PassOpsNoAlloc(srcRect.Width(), srcRect.Height(), srcOffset, direction, radius, sigma, srcBounds, mode,
                   MakeWH(dstWidth, dstHeight));
    NoAllocAllocated(pass);
    AllocatedAppend([Alloc(t)], pass);
    assert [Alloc(t)][1..] == [];
  }

  /**
   * Whatever came before it, a 1-D pass leaves every pixel of its target (which lies within the
   * clip) written exactly once since the target was allocated.
   */
  lemma ConvolveCovers(before: seq<Op>, config: PixelConfig, srcRect: IRect, srcOffset: IPoint,
                       direction: Direction, radius: int, sigma: real, srcBounds: IRect, mode: Mode,
                       dstWidth: int, dstHeight: int, fit: Fit, x: int, y: int)
    requires 0 <= x < srcRect.Width() <= dstWidth && 0 <= y < srcRect.Height() <= dstHeight
    requires direction == X ==> srcBounds.top <= srcBounds.bottom
    requires direction == Y ==> srcBounds.left <= srcBounds.right
    ensures CurrentWrites(before + ConvolveOps(config, srcRect, srcOffset, direction, radius, sigma, srcBounds,
                                               mode, dstWidth, dstHeight, fit), x, y) == 1
  {
    var t := Target(fit, srcRect.Width(), srcRect.Height(), config);
    var pass := PassOps(srcRect.Width(), srcRect.Height(), srcOffset, direction, radius, sigma, srcBounds, mode,
                        MakeWH(dstWidth, dstHeight));
    assert before + ConvolveOps(config, srcRect, srcOffset, direction, radius, sigma, srcBounds, mode,
                                dstWidth, dstHeight, fit) == before + [Alloc(t)] + pass;
    PassOpsNoAlloc(srcRect.Width(), srcRect.Height(), srcOffset, direction, radius, sigma, srcBounds, mode,
                   MakeWH(dstWidth, dstHeight));
    CurrentWritesAfter(before, t, pass, x, y);
    PassPartition(srcRect.Width(), srcRect.Height(), srcOffset, direction, radius, sigma, srcBounds, mode,
                  dstWidth, dstHeight, x, y);
  }

  /** The fused pass allocates exactly one target: the destination-sized one with the given fit. */
  lemma Convolve2DAllocates(config: PixelConfig, srcBounds: IRect, srcOffset: IPoint, radiusX: int,
                            radiusY: int, sigmaX: real, sigmaY: real, mode: Mode,
                            dstWidth: int, dstHeight: int, fit: Fit)
    ensures Allocated(Convolve2DOps(config, srcBounds, srcOffset, radiusX, radiusY, sigmaX, sigmaY,
                                    mode, dstWidth, dstHeight, fit))
            == [Target(fit, dstWidth, dstHeight, config)]
  {
    var ops := Convolve2DOps(config, srcBounds, srcOffset, radiusX, radiusY, sigmaX, sigmaY,
                             mode, dstWidth, dstHeight, fit);
    assert ops == [ops[0]] + [ops[1]];
    AllocatedAppend([ops[0]], [ops[1]]);
    assert [ops[0]][1..] == [] && [ops[1]][1..] == [];
  }

  /**
   * Whatever came before it, the fused pass leaves every pixel of its target written exactly
   * once since the target was allocated, by the 2-D kernel.
   */
  lemma Convolve2DCovers(before: seq<Op>, config: PixelConfig, srcBounds: IRect, srcOffset: IPoint,
                         radiusX: int, radiusY: int, sigmaX: real, sigmaY: real, mode: Mode,
                         dstWidth: int, dstHeight: int, fit: Fit, x: int, y: int)
    requires 0 <= x < dstWidth && 0 <= y < dstHeight
    ensures var ops := Convolve2DOps(config, srcBounds, srcOffset, radiusX, radiusY, sigmaX, sigmaY,
                                     mode, dstWidth, dstHeight, fit);
      && CurrentWrites(before + ops, x, y) == 1
      && Writes(ops[1], x, y) && ops[1].paint.Gaussian2D?
  {
    var ops := Convolve2DOps(config, srcBounds, srcOffset, radiusX, radiusY, sigmaX, sigmaY,
                             mode, dstWidth, dstHeight, fit);
    assert before + ops == before + [ops[0]] + [ops[1]];
    CurrentWritesAfter(before, ops[0].target, [ops[1]], x, y);
    WriteCountOne(ops[1], x, y);
  }

  /** convolve_gaussian_1d: one fill of dstRect with a 1-D Gaussian convolution. */
  method ConvolveGaussian1D(r: Renderer, clip: IRect, dstRect: IRect, srcOffset: IPoint,
                            direction: Direction, radius: int, sigma: real, mode: Mode,
                            lo: int, hi: int)
    requires r.Valid()
    modifies r
    ensures r.Valid()
    ensures r.attempts == old(r.attempts)
    ensures r.ops == old(r.ops) + [DrawLocal(clip, dstRect, srcOffset,
                                             Gaussian1D(direction, radius, sigma, mode, lo, hi))]
  {
    r.FillRectWithLocalMatrix(clip, dstRect, srcOffset, Gaussian1D(direction, radius, sigma, mode, lo, hi));
  }

  /**
   * The rectangle set-up of convolve_gaussian for a w x h target (dstRect): the cleared bands, the
   * margins, the unclamped middle and the narrowed band, and the content bounds along the axis.
   */
  method SplitTarget(dstRect0: IRect, srcOffset: IPoint, direction: Direction, radius: int, srcBounds: IRect)
    returns (topRect: IRect, bottomRect: IRect, leftRect: IRect, midRect: IRect, rightRect: IRect,
             dstRect: IRect, lo: int, hi: int)
    requires dstRect0.left == 0 && dstRect0.top == 0
    ensures Bands(topRect, bottomRect, leftRect, midRect, rightRect, dstRect)
      == PassBands(dstRect0.right, dstRect0.bottom, srcOffset, direction, radius, srcBounds)
    ensures (lo, hi) == AxisBounds(srcBounds, direction)
  {
    dstRect := dstRect0;
    midRect := srcBounds.Offset(srcOffset);
    if direction == X {
      lo, hi := srcBounds.left, srcBounds.right;
      topRect := IRect(0, 0, dstRect.right, midRect.top);
      bottomRect := IRect(0, midRect.bottom, dstRect.right, dstRect.bottom);
      midRect := midRect.Inset(radius, 0);
      leftRect := IRect(0, midRect.top, midRect.left, midRect.bottom);
      rightRect := IRect(midRect.right, midRect.top, dstRect.Width(), midRect.bottom);
      dstRect := dstRect.(top := midRect.top, bottom := midRect.bottom);
    } else {
      lo, hi := srcBounds.top, srcBounds.bottom;
      topRect := IRect(0, 0, midRect.left, dstRect.bottom);
      bottomRect := IRect(midRect.right, 0, dstRect.right, dstRect.bottom);
      midRect := midRect.Inset(0, radius);
      leftRect := IRect(midRect.left, 0, midRect.right, midRect.top);
      rightRect := IRect(midRect.left, midRect.bottom, midRect.right, dstRect.Height());
      dstRect := dstRect.(left := midRect.left, right := midRect.right);
    }
  }

  /**
   * The part of convolve_gaussian that runs when there is a content domain: clear the bands
   * outside the content, then fill either the whole band with clamping or the two margins with
   * clamping and the middle without.
   */
  method ConvolveWithDomain(r: Renderer, clip: IRect, dstRect0: IRect, srcOffset: IPoint, direction: Direction,
                            radius: int, sigma: real, srcBounds: IRect, mode: Mode)
    requires dstRect0.left == 0 && dstRect0.top == 0
    requires mode != Ignore
    requires r.Valid()
    modifies r
    ensures r.Valid()
    ensures r.attempts == old(r.attempts)
    ensures r.ops == old(r.ops) + PassOps(dstRect0.right, dstRect0.bottom, srcOffset, direction, radius,
                                          sigma, srcBounds, mode, clip)
  {
    var topRect, bottomRect, leftRect, midRect, rightRect, dstRect, lo, hi :=
      SplitTarget(dstRect0, srcOffset, direction, radius, srcBounds);
    var b := Bands(topRect, bottomRect, leftRect, midRect, rightRect, dstRect);
    ghost var clears := ClearUnlessEmpty(topRect) + ClearUnlessEmpty(bottomRect);
    ghost var fills := BandFills(clip, b, srcOffset, direction, radius, sigma, mode, lo, hi);
    assert PassOps(dstRect0.right, dstRect0.bottom, srcOffset, direction, radius, sigma, srcBounds, mode, clip)
      == clears + fills;
    ghost var ops0 := r.ops;
    ClearOutside(r, topRect, bottomRect);
    FillBand(r, clip, b, srcOffset, direction, radius, sigma, mode, lo, hi);
    assert r.ops == ops0 + (clears + fills);
  }

  /** Clears the bands outside the content, skipping empty ones. */
  method ClearOutside(r: Renderer, topRect: IRect, bottomRect: IRect)
    requires r.Valid()
    modifies r
    ensures r.Valid()
    ensures r.attempts == old(r.attempts)
    ensures r.ops == old(r.ops) + ClearUnlessEmpty(topRect) + ClearUnlessEmpty(bottomRect)
  {
    if !topRect.IsEmpty() {
      r.ClearRect(topRect);
    }
    if !bottomRect.IsEmpty() {
      r.ClearRect(bottomRect);
    }
  }

  /** Fills the content band as BandFills lays out. */
  method FillBand(r: Renderer, clip: IRect, b: Bands, srcOffset: IPoint, direction: Direction, radius: int,
                  sigma: real, mode: Mode, lo: int, hi: int)
    requires r.Valid()
    modifies r
    ensures r.Valid()
    ensures r.attempts == old(r.attempts)
    ensures r.ops == old(r.ops) + BandFills(clip, b, srcOffset, direction, radius, sigma, mode, lo, hi)
  {
    if b.midRect.IsEmpty() {
      ConvolveGaussian1D(r, clip, b.bandRect, srcOffset, direction, radius, sigma, mode, lo, hi);
    } else {
      ConvolveGaussian1D(r, clip, b.leftRect, srcOffset, direction, radius, sigma, mode, lo, hi);
      ConvolveGaussian1D(r, clip, b.rightRect, srcOffset, direction, radius, sigma, mode, lo, hi);
      ConvolveGaussian1D(r, clip, b.midRect, srcOffset, direction, radius, sigma, Ignore, lo, hi);
    }
  }

  /**
   * convolve_gaussian: allocates a target the size of srcRect in the blur configuration and runs
   * the pass over it; None when the allocation fails.
   */
  method ConvolveGaussian(r: Renderer, proxyConfig: PixelConfig, hasColorSpace: bool, srcRect: IRect,
                          srcOffset: IPoint, direction: Direction, radius: int, sigma: real,
                          srcBounds: IRect, mode: Mode, dstWidth: int, dstHeight: int, fit: Fit)
    returns (result: Option<Target>)
    requires r.Valid()
    modifies r
    ensures r.Valid()
    ensures old(r.attempts) <= r.attempts
    ensures result.Some? <==> NoneFail(r.failures, old(r.attempts), r.attempts)
    ensures Extends(old(r.ops), r.ops,
                    ConvolveOps(GetBlurConfig(proxyConfig, hasColorSpace), srcRect, srcOffset, direction,
                                radius, sigma, srcBounds, mode, dstWidth, dstHeight, fit),
                    result.Some?)
    ensures result.Some? ==>
      result.value == Target(fit, srcRect.Width(), srcRect.Height(), GetBlurConfig(proxyConfig, hasColorSpace))
  {
    var config := GetBlurConfig(proxyConfig, hasColorSpace);
    ghost var before := r.ops;
    ghost var pass := PassOps(srcRect.Width(), srcRect.Height(), srcOffset, direction, radius, sigma,
                              srcBounds, mode, MakeWH(dstWidth, dstHeight));
    var t := Target(fit, srcRect.Width(), srcRect.Height(), config);
    var ok := r.MakeRenderTarget(t);
    if !ok {
      AbortAt(before, [], t, pass);
      assert before + [] == before;
      return None;
    }
    ghost var afterAlloc := r.ops;
    ExtendsByOne(before, Alloc(t));

    var clip := MakeWH(dstWidth, dstHeight);
    var dstRect := MakeWH(srcRect.Width(), srcRect.Height());
    if mode == Ignore {
      ConvolveGaussian1D(r, clip, dstRect, srcOffset, direction, radius, sigma, Ignore, 0, 0);
      ExtendsByOne(afterAlloc, r.ops[|r.ops| - 1]);
      ExtendsThen(before, afterAlloc, r.ops, [Alloc(t)], pass, true);
      return Some(t);
    }

    ConvolveWithDomain(r, clip, dstRect, srcOffset, direction, radius, sigma, srcBounds, mode);
    ExtendsThen(before, afterAlloc, r.ops, [Alloc(t)], pass, true) by {
      assert r.ops[|afterAlloc|..] == pass;
    }
    return Some(t);
  }

  /**
   * convolve_gaussian_2d: allocates a target of the destination size in the blur configuration
   * and fills it with one 2-D convolution; None when the allocation fails.
   */
  method ConvolveGaussian2D(r: Renderer, proxyConfig: PixelConfig, hasColorSpace: bool, srcBounds: IRect,
                            srcOffset: IPoint, radiusX: int, radiusY: int, sigmaX: real, sigmaY: real,
                            mode: Mode, dstWidth: int, dstHeight: int, fit: Fit)
    returns (result: Option<Target>)
    requires r.Valid()
    modifies r
    ensures r.Valid()
    ensures old(r.attempts) <= r.attempts
    ensures result.Some? <==> NoneFail(r.failures, old(r.attempts), r.attempts)
    ensures Extends(old(r.ops), r.ops,
                    Convolve2DOps(GetBlurConfig(proxyConfig, hasColorSpace), srcBounds, srcOffset, radiusX,
                                  radiusY, sigmaX, sigmaY, mode, dstWidth, dstHeight, fit),
                    result.Some?)
    ensures result.Some? ==>
      result.value == Target(fit, dstWidth, dstHeight, GetBlurConfig(proxyConfig, hasColorSpace))
  {
    var config := GetBlurConfig(proxyConfig, hasColorSpace);
    ghost var before := r.ops;
    var t := Target(fit, dstWidth, dstHeight, config);
    var bounds := MakeWH(dstWidth, dstHeight);
    var paint := Gaussian2D(srcBounds, radiusX, radiusY, sigmaX, sigmaY, mode);
    var ok := r.MakeRenderTarget(t);
    if !ok {
      AbortAt(before, [], t, [DrawLocal(bounds, bounds, srcOffset, paint)]);
      assert before + [] == before;
      return None;
    }
    r.FillRectWithLocalMatrix(bounds, bounds, srcOffset, paint);
    assert r.ops[|before|..] == [Alloc(t), DrawLocal(bounds, bounds, srcOffset, paint)];
    return Some(t);
  }
}
