/**
 * Re-expansion (reexpand): the blurred, shrunk image is stretched back to the destination size
 * by bilinear upsampling, after a one-pixel border right of and below it has been cleared.
 */
module Reexpander {
  import opened Geometry
  import opened PixelConfigs
  import opened RenderTrace

  /**
   * The one-pixel clears on the w x h source before it is upsampled: the row just below it,
   * one pixel wider than it, and the column just right of it.
   */
  function EdgeClears(w: int, h: int): seq<Op>
  {
    [AbsClear(MakeXYWH(0, h, w + 1, 1)), AbsClear(MakeXYWH(w, 0, 1, h))]
  }

  /** The upsampling paint: through the content domain unless the mode is Ignore, else clamped. */
  function ReexpandPaint(localSrcBounds: IRect, mode: Mode): Paint
  {
    if mode != Ignore then DomainBilerp(localSrcBounds, false, false, ModeForScaling(mode))
    else ClampBilerp
  }

  /**
   * Everything reexpand asks of the renderer when its allocation succeeds, for a w x h source:
   * the border clears on the source, a destination-sized target, and one fill of the source
   * scaled up by the factors, clipped to the destination.
   */
  function ReexpandOps(config: PixelConfig, w: int, h: int, localSrcBounds: IRect,
                       scaleFactorX: int, scaleFactorY: int, mode: Mode,
                       dstWidth: int, dstHeight: int, fit: Fit): (ops: seq<Op>)
  {
    EdgeClears(w, h)
    + [Alloc(Target(fit, dstWidth, dstHeight, config)),
       DrawRectToRect(MakeWH(dstWidth, dstHeight), Scaled(MakeWH(w, h), scaleFactorX, scaleFactorY),
                      MakeWH(w, h), ReexpandPaint(localSrcBounds, mode))]
  }

  /**
   * The border clears write each pixel of the L-shaped border just outside the w x h source
   * exactly once (the row y = h for 0 <= x <= w, the column x = w for 0 <= y < h) and no other
   * pixel; in particular no pixel of the source.
   */
  lemma EdgeClearsBorder(w: int, h: int, x: int, y: int)
    requires w >= 0 && h >= 0
    ensures WriteCount(EdgeClears(w, h), x, y) ==
      if (y == h && 0 <= x <= w) || (x == w && 0 <= y < h) then 1 else 0
    ensures MakeWH(w, h).Contains(x, y) ==> WriteCount(EdgeClears(w, h), x, y) == 0
  {
    var c := EdgeClears(w, h);
    assert c == [c[0]] + [c[1]];
    WriteCountAppend([c[0]], [c[1]], x, y);
    WriteCountOne(c[0], x, y);
    WriteCountOne(c[1], x, y);
  }

  /** Re-expansion allocates exactly one target: the destination-sized one with the caller's fit. */
  lemma ReexpandAllocates(config: PixelConfig, w: int, h: int, localSrcBounds: IRect,
                          scaleFactorX: int, scaleFactorY: int, mode: Mode,
                          dstWidth: int, dstHeight: int, fit: Fit)
    ensures Allocated(ReexpandOps(config, w, h, localSrcBounds, scaleFactorX, scaleFactorY, mode,
                                  dstWidth, dstHeight, fit))
            == [Target(fit, dstWidth, dstHeight, config)]
  {
    var ops := ReexpandOps(config, w, h, localSrcBounds, scaleFactorX, scaleFactorY, mode,
                           dstWidth, dstHeight, fit);
    assert ops == [ops[0]] + [ops[1]] + [ops[2]] + [ops[3]];
    AllocatedAppend([ops[0]] + [ops[1]] + [ops[2]], [ops[3]]);
    AllocatedAppend([ops[0]] + [ops[1]], [ops[2]]);
    AllocatedAppend([ops[0]], [ops[1]]);
    assert [ops[0]][1..] == [] && [ops[1]][1..] == [] && [ops[2]][1..] == [] && [ops[3]][1..] == [];
  }

  /**
   * For a source of ceil(W / sx) x ceil(H / sy) pixels, the scaled-up source covers the whole
   * W x H destination and overshoots it by less than one factor on each axis, so whatever came
   * before, the fill leaves every destination pixel written exactly once since the destination
   * was allocated.
   */
  lemma ReexpandCovers(before: seq<Op>, config: PixelConfig, localSrcBounds: IRect, scaleFactorX: int,
                       scaleFactorY: int, mode: Mode, dstWidth: int, dstHeight: int, fit: Fit, x: int, y: int)
    requires scaleFactorX > 0 && scaleFactorY > 0
    requires 0 <= x < dstWidth && 0 <= y < dstHeight
    ensures var w, h := CeilDiv(dstWidth, scaleFactorX), CeilDiv(dstHeight, scaleFactorY);
      && CurrentWrites(before + ReexpandOps(config, w, h, localSrcBounds, scaleFactorX, scaleFactorY, mode,
                                            dstWidth, dstHeight, fit), x, y) == 1
      && dstWidth <= w * scaleFactorX < dstWidth + scaleFactorX
      && dstHeight <= h * scaleFactorY < dstHeight + scaleFactorY
  {
    var w, h := CeilDiv(dstWidth, scaleFactorX), CeilDiv(dstHeight, scaleFactorY);
    var ops := ReexpandOps(config, w, h, localSrcBounds, scaleFactorX, scaleFactorY, mode,
                           dstWidth, dstHeight, fit);
    CeilDivBounds(dstWidth, scaleFactorX);
    CeilDivBounds(dstHeight, scaleFactorY);
    assert before + ops == before + EdgeClears(w, h) + [ops[2]] + [ops[3]];
    CurrentWritesAfter(before + EdgeClears(w, h), ops[2].target, [ops[3]], x, y);
    WriteCountOne(ops[3], x, y);
  }

  /**
   * reexpand: clears the border of the source target src, allocates a destination-sized target
   * in the blur configuration chosen from src, and fills it with src scaled up by the factors;
   * None when the allocation fails.
   */
  method Reexpand(r: Renderer, src: Target, hasColorSpace: bool, localSrcBounds: IRect,
                  scaleFactorX: int, scaleFactorY: int, mode: Mode, dstWidth: int, dstHeight: int, fit: Fit)
    returns (result: Option<Target>)
    requires r.Valid()
    modifies r
    ensures r.Valid()
    ensures old(r.attempts) <= r.attempts
    ensures result.Some? <==> NoneFail(r.failures, old(r.attempts), r.attempts)
    ensures Extends(old(r.ops), r.ops,
                    ReexpandOps(GetBlurConfig(src.config, hasColorSpace), src.width, src.height, localSrcBounds,
                                scaleFactorX, scaleFactorY, mode, dstWidth, dstHeight, fit),
                    result.Some?)
    ensures result.Some? ==>
      result.value == Target(fit, dstWidth, dstHeight, GetBlurConfig(src.config, hasColorSpace))
  {
    ghost var before := r.ops;
    var srcRect := MakeWH(src.width, src.height);
    r.AbsClearRect(MakeXYWH(srcRect.left, srcRect.bottom, srcRect.Width() + 1, 1));
    r.AbsClearRect(MakeXYWH(srcRect.right, srcRect.top, 1, srcRect.Height()));

    var config := GetBlurConfig(src.config, hasColorSpace);
    var t := Target(fit, dstWidth, dstHeight, config);
    ghost var plan := ReexpandOps(config, src.width, src.height, localSrcBounds, scaleFactorX, scaleFactorY,
                                  mode, dstWidth, dstHeight, fit);
    ghost var clears := EdgeClears(src.width, src.height);
    var ok := r.MakeRenderTarget(t);
    if !ok {
      AbortAt(before, clears, t, plan[3..]);
      assert plan == clears + [Alloc(t)] + plan[3..];
      return None;
    }

    var paint := if mode != Ignore then DomainBilerp(localSrcBounds, false, false, ModeForScaling(mode))
                 else ClampBilerp;
    var dstRect := ScaleIRect(srcRect, scaleFactorX, scaleFactorY);
    r.FillRectToRect(MakeWH(dstWidth, dstHeight), dstRect, srcRect, paint);
    assert r.ops[|before|..] == plan;
    return Some(t);
  }
}
