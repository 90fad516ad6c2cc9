/**
 * Decimation (decimate): the source is shrunk by its power-of-two scale factors in successive
 * halvings, each into a fresh approximate-fit target, and a radius-wide strip next to the shrunk
 * content is cleared for the convolution that follows.
 */
module Decimator {
  import opened Powers
  import opened Geometry
  import opened PixelConfigs
  import opened RenderTrace

  function Max(a: nat, b: nat): nat { if a < b then b else a }

  /** How many halvings an axis of exponent e still needs after k rounds. */
  function Remaining(e: nat, k: nat): nat { if k < e then e - k else 0 }

  /** The rectangle decimation starts from: the whole destination, or the content moved into place. */
  function SourceRect(mode: Mode, contentRect: IRect, srcOffset: IPoint, dstWidth: int, dstHeight: int): IRect
  {
    if mode == Ignore then MakeWH(dstWidth, dstHeight) else contentRect.Offset(srcOffset)
  }

  /**
   * Round k of the halvings, for exponents ex and ey, when cur is the current rectangle: the axes
   * that still need it are halved into a fresh target; the first round reads through the content
   * domain (unless the mode is Ignore) at the unshifted source, later ones clamp.
   */
  function Round(k: nat, ex: nat, ey: nat, cur: IRect, contentRect: IRect, srcOffset: IPoint, mode: Mode,
                 config: PixelConfig): seq<Op>
  {
    var d := Halved(cur, k < ex, k < ey);
    var domain := k == 0 && mode != Ignore;
    var src := if domain then cur.Offset(srcOffset.Negated()) else cur;
    var paint := if domain then DomainBilerp(contentRect, k < ex, k < ey, ModeForScaling(mode))
                 else ClampBilerp;
    [Alloc(Target(Approx, d.right, d.bottom, config)), DrawRectToRect(d, d, src, paint)]
  }

  /** The rounds from round k on. */
  function Steps(k: nat, ex: nat, ey: nat, cur: IRect, contentRect: IRect, srcOffset: IPoint, mode: Mode,
                 config: PixelConfig): seq<Op>
    decreases Max(ex, ey) - k
  {
    if k >= ex && k >= ey then []
    else
      Round(k, ex, ey, cur, contentRect, srcOffset, mode, config)
      + Steps(k + 1, ex, ey, Halved(cur, k < ex, k < ey), contentRect, srcOffset, mode, config)
  }

  /** The strip cleared beside the shrunk content c for the convolution that reads past it. */
  function HaloClear(c: IRect, willBeXFiltering: bool, scaleFactorX: int, scaleFactorY: int,
                     radiusX: int, radiusY: int): seq<Op>
  {
    if willBeXFiltering then
      (if scaleFactorX > 1 then [AbsClear(MakeXYWH(c.right, c.top, radiusX, c.Height()))] else [])
    else
      (if scaleFactorY > 1 then [AbsClear(MakeXYWH(c.left, c.bottom, c.Width(), radiusY))] else [])
  }

  /** Everything decimate asks of the renderer when no allocation fails. */
  function DecimateOps(config: PixelConfig, srcOffset: IPoint, contentRect: IRect,
                       scaleFactorX: int, scaleFactorY: int, willBeXFiltering: bool,
                       radiusX: int, radiusY: int, mode: Mode, dstWidth: int, dstHeight: int): (ops: seq<Op>)
    requires IsPow2(scaleFactorX) && IsPow2(scaleFactorY)
  {
    var r := RoundOut(SourceRect(mode, contentRect, srcOffset, dstWidth, dstHeight), scaleFactorX, scaleFactorY);
    Steps(0, Log2(scaleFactorX), Log2(scaleFactorY), Scaled(r, scaleFactorX, scaleFactorY), contentRect,
          srcOffset, mode, config)
    + HaloClear(r, willBeXFiltering, scaleFactorX, scaleFactorY, radiusX, radiusY)
  }

  /** rect is r scaled by the factors that remain after k rounds. */
  ghost predicate AfterRounds(rect: IRect, r: IRect, ex: nat, ey: nat, k: nat)
  {
    rect == Scaled(r, Pow2(Remaining(ex, k)), Pow2(Remaining(ey, k)))
  }

  lemma RoundsDone(r: IRect, ex: nat, ey: nat, k: nat)
    requires k >= ex && k >= ey
    ensures AfterRounds(r, r, ex, ey, k)
  {
    assert Scaled(r, 1, 1) == r;
  }

  /** A round cut short by its allocation cuts the whole run short. */
  lemma AbortInRound(ops0: seq<Op>, before: seq<Op>, after: seq<Op>, done: seq<Op>, round: seq<Op>,
                     later: seq<Op>)
    requires before == ops0 + done
    requires Extends(before, after, round, false)
    ensures Extends(ops0, after, done + (round + later), false)
  {
    AbortedBefore(before, after, round, later);
    ExtendsThen(ops0, before, after, done, round + later, false) by {
      assert before[|ops0|..] == done;
    }
  }

  /**
   * Within a run of the rounds from 0, round k (when it is due) either cuts the whole run short
   * or leaves the rounds from k + 1 still to do.
   */
  lemma RoundOfRun(ops0: seq<Op>, before: seq<Op>, after: seq<Op>, done: seq<Op>, plan: seq<Op>,
                   k: nat, ex: nat, ey: nat, cur: IRect, contentRect: IRect, srcOffset: IPoint, mode: Mode,
                   config: PixelConfig, ok: bool)
    requires k < ex || k < ey
    requires before == ops0 + done
    requires plan == done + Steps(k, ex, ey, cur, contentRect, srcOffset, mode, config)
    requires Extends(before, after, Round(k, ex, ey, cur, contentRect, srcOffset, mode, config), ok)
    ensures !ok ==> Extends(ops0, after, plan, false)
    ensures ok ==>
      && after == ops0 + (done + Round(k, ex, ey, cur, contentRect, srcOffset, mode, config))
      && plan == done + Round(k, ex, ey, cur, contentRect, srcOffset, mode, config)
                 + Steps(k + 1, ex, ey, Halved(cur, k < ex, k < ey), contentRect, srcOffset, mode, config)
  {
    var round := Round(k, ex, ey, cur, contentRect, srcOffset, mode, config);
    var later := Steps(k + 1, ex, ey, Halved(cur, k < ex, k < ey), contentRect, srcOffset, mode, config);
    assert plan == done + (round + later);
    if ok {
      ExtendedBy(before, after, round);
    } else {
      AbortInRound(ops0, before, after, done, round, later);
    }
  }

  /** One round takes a rectangle r scaled by the remaining factors to r scaled by the next ones. */
  lemma HalvingStep(r: IRect, ex: nat, ey: nat, k: nat)
    ensures var cur := Scaled(r, Pow2(Remaining(ex, k)), Pow2(Remaining(ey, k)));
      && EvenEdges(cur, k < ex, k < ey)
      && AfterRounds(Halved(cur, k < ex, k < ey), r, ex, ey, k + 1)
  {
    var mx := Pow2(Remaining(ex, k + 1));
    var my := Pow2(Remaining(ey, k + 1));
    assert Pow2(Remaining(ex, k)) == if k < ex then 2 * mx else mx;
    assert Pow2(Remaining(ey, k)) == if k < ey then 2 * my else my;
    HalvedOfDoubled(r, mx, my, k < ex, k < ey);
  }

  /**
   * The shape of the rounds: two operations a round, every allocation approximate-fit, every
   * other operation a resampling fill, and only the very first fill reads through the content
   * domain, in the scaling mode: Decal in place of Repeat, the mode itself otherwise.
   */
  lemma {:induction false} StepsShape(k: nat, ex: nat, ey: nat, cur: IRect, contentRect: IRect,
                                       srcOffset: IPoint, mode: Mode, config: PixelConfig)
    requires k <= Max(ex, ey)
    ensures var s := Steps(k, ex, ey, cur, contentRect, srcOffset, mode, config);
      && |s| == 2 * (Max(ex, ey) - k)
      && (forall j :: 0 <= j < |s| ==> (s[j].Alloc? <==> j % 2 == 0))
      && (forall j :: 0 <= j < |s| && j % 2 == 0 ==> s[j].Alloc? && s[j].target.fit == Approx
                                                     && s[j].target.config == config)
      && (forall j :: 0 <= j < |s| && j % 2 == 1 ==> s[j].DrawRectToRect?)
      && (forall j :: 0 <= j < |s| && j % 2 == 1 ==>
            (s[j].paint.DomainBilerp? <==> k == 0 && j == 1 && mode != Ignore))
      && (forall j :: 0 <= j < |s| && j % 2 == 1 ==> s[j].paint.DomainBilerp? ==>
            s[j].paint.mode == ModeForScaling(mode) && s[j].paint.mode != Repeat)
    decreases Max(ex, ey) - k
  {
    var s := Steps(k, ex, ey, cur, contentRect, srcOffset, mode, config);
    if k < ex || k < ey {
      var d := Halved(cur, k < ex, k < ey);
      var rest := Steps(k + 1, ex, ey, d, contentRect, srcOffset, mode, config);
      StepsShape(k + 1, ex, ey, d, contentRect, srcOffset, mode, config);
      assert s == [s[0], s[1]] + rest;
      forall j | 2 <= j < |s|
        ensures s[j] == rest[j - 2] && (j % 2 == 0 <==> (j - 2) % 2 == 0)
      {
      }
    }
  }

  /**
   * When cur is r scaled by the remaining factors, the last round allocates a target whose
   * logical size reaches exactly to r's right and bottom edges and fills r.
   */
  lemma {:induction false} StepsEnd(k: nat, ex: nat, ey: nat, r: IRect, contentRect: IRect,
                                     srcOffset: IPoint, mode: Mode, config: PixelConfig)
    requires k < Max(ex, ey)
    ensures var s := Steps(k, ex, ey, Scaled(r, Pow2(Remaining(ex, k)), Pow2(Remaining(ey, k))),
                           contentRect, srcOffset, mode, config);
      && |s| >= 2
      && s[|s| - 2] == Alloc(Target(Approx, r.right, r.bottom, config))
      && s[|s| - 1].DrawRectToRect? && s[|s| - 1].dst == r && s[|s| - 1].clip == r
    decreases Max(ex, ey) - k
  {
    var cur := Scaled(r, Pow2(Remaining(ex, k)), Pow2(Remaining(ey, k)));
    var s := Steps(k, ex, ey, cur, contentRect, srcOffset, mode, config);
    HalvingStep(r, ex, ey, k);
    var d := Halved(cur, k < ex, k < ey);
    var rest := Steps(k + 1, ex, ey, d, contentRect, srcOffset, mode, config);
    assert s == [s[0], s[1]] + rest;
    if k + 1 < Max(ex, ey) {
      StepsEnd(k + 1, ex, ey, r, contentRect, srcOffset, mode, config);
      assert s[|s| - 2] == rest[|rest| - 2] && s[|s| - 1] == rest[|rest| - 1];
    } else {
      assert rest == [];
      assert d == Scaled(r, 1, 1);
    }
  }

  /**
   * The halo strip lies just past the shrunk content along the filtered axis: it shares no
   * pixel with the content, and together they make up the content widened by the radius.
   */
  lemma HaloBesideContent(c: IRect, willBeXFiltering: bool, scaleFactorX: int, scaleFactorY: int,
                          radiusX: int, radiusY: int, x: int, y: int)
    requires radiusX >= 0 && radiusY >= 0 && c.left <= c.right && c.top <= c.bottom
    ensures var h := HaloClear(c, willBeXFiltering, scaleFactorX, scaleFactorY, radiusX, radiusY);
      && |h| <= 1
      && (|h| == 1 <==> (if willBeXFiltering then scaleFactorX > 1 else scaleFactorY > 1))
      && (|h| == 1 ==> h[0].AbsClear? && !(c.Contains(x, y) && h[0].rect.Contains(x, y)))
      && (|h| == 1 && willBeXFiltering ==>
            (c.Contains(x, y) || h[0].rect.Contains(x, y) <==> c.(right := c.right + radiusX).Contains(x, y)))
      && (|h| == 1 && !willBeXFiltering ==>
            (c.Contains(x, y) || h[0].rect.Contains(x, y) <==> c.(bottom := c.bottom + radiusY).Contains(x, y)))
  {
  }

  /** Every decimation allocation is approximate-fit, in the blur configuration, one per round. */
  lemma DecimateAllocations(config: PixelConfig, srcOffset: IPoint, contentRect: IRect,
                            scaleFactorX: int, scaleFactorY: int, willBeXFiltering: bool,
                            radiusX: int, radiusY: int, mode: Mode, dstWidth: int, dstHeight: int)
    requires IsPow2(scaleFactorX) && IsPow2(scaleFactorY)
    ensures var s := DecimateOps(config, srcOffset, contentRect, scaleFactorX, scaleFactorY,
                                 willBeXFiltering, radiusX, radiusY, mode, dstWidth, dstHeight);
      && |Allocated(s)| == Max(Log2(scaleFactorX), Log2(scaleFactorY))
      && Intermediates(Allocated(s), config)
  {
    var r := RoundOut(SourceRect(mode, contentRect, srcOffset, dstWidth, dstHeight), scaleFactorX, scaleFactorY);
    RoundsAndHaloAllocations(Log2(scaleFactorX), Log2(scaleFactorY), Scaled(r, scaleFactorX, scaleFactorY), r,
                             contentRect, srcOffset, mode, config, willBeXFiltering, scaleFactorX, scaleFactorY,
                             radiusX, radiusY);
  }

  /** The rounds from start allocate one intermediate each; the halo clear allocates nothing. */
  lemma RoundsAndHaloAllocations(ex: nat, ey: nat, start: IRect, r: IRect, contentRect: IRect, srcOffset: IPoint,
                                 mode: Mode, config: PixelConfig, willBeXFiltering: bool,
                                 scaleFactorX: int, scaleFactorY: int, radiusX: int, radiusY: int)
    ensures var s := Steps(0, ex, ey, start, contentRect, srcOffset, mode, config)
                     + HaloClear(r, willBeXFiltering, scaleFactorX, scaleFactorY, radiusX, radiusY);
      && |Allocated(s)| == Max(ex, ey)
      && Intermediates(Allocated(s), config)
  {
    var steps := Steps(0, ex, ey, start, contentRect, srcOffset, mode, config);
    var halo := HaloClear(r, willBeXFiltering, scaleFactorX, scaleFactorY, radiusX, radiusY);
    StepsShape(0, ex, ey, start, contentRect, srcOffset, mode, config);
    AllocatedAppend(steps, halo);
    assert Allocated(halo) == [] by {
      if halo != [] {
        assert halo[1..] == [];
      }
    }
    StepsAllocated(steps, config, Max(ex, ey));
  }

  /** A trace of alternating approximate-fit allocations and fills allocates one target per pair. */
  lemma {:induction false} StepsAllocated(s: seq<Op>, config: PixelConfig, n: nat)
    requires |s| == 2 * n
    requires forall j :: 0 <= j < |s| ==> (s[j].Alloc? <==> j % 2 == 0)
    requires forall j :: 0 <= j < |s| && j % 2 == 0 ==> s[j].target.fit == Approx && s[j].target.config == config
    ensures |Allocated(s)| == n
    ensures Intermediates(Allocated(s), config)
  {
    if n > 0 {
      var rest := s[2..];
      forall j | 0 <= j < |rest|
        ensures rest[j] == s[j + 2] && (j % 2 == 0 <==> (j + 2) % 2 == 0)
      {
      }
      StepsAllocated(rest, config, n - 1);
      assert s == [s[0]] + [s[1]] + rest;
      AllocatedAppend([s[0]] + [s[1]], rest);
      AllocatedAppend([s[0]], [s[1]]);
      assert [s[0]][1..] == [] && [s[1]][1..] == [];
      IntermediatesAppend([s[0].target], Allocated(rest), config);
    }
  }

  /**
   * The rounds loop of decimate: starting from start, the content rectangle rounded out and scaled
   * back by the factors, halves the axes that still need it, once per round, each round into a
   * fresh approximate-fit target. On success the final rectangle is the rounded-out one, the
   * result is the last target allocated and the offset has been consumed by the domain read
   * unless the mode is Ignore.
   */
  method HalvingRounds(r: Renderer, config: PixelConfig, contentRect: IRect, srcOffset: IPoint,
                       start: IRect, ghost rounded: IRect, scaleFactorX: int, scaleFactorY: int,
                       ghost ex: nat, ghost ey: nat, mode: Mode)
    returns (ok: bool, last: Target, offset: IPoint, dstRect: IRect)
    requires scaleFactorX == Pow2(ex) && scaleFactorY == Pow2(ey) && (ex > 0 || ey > 0)
    requires AfterRounds(start, rounded, ex, ey, 0)
    requires r.Valid()
    modifies r
    ensures r.Valid()
    ensures old(r.attempts) <= r.attempts
    ensures ok <==> NoneFail(r.failures, old(r.attempts), r.attempts)
    ensures Extends(old(r.ops), r.ops, Steps(0, ex, ey, start, contentRect, srcOffset, mode, config), ok)
    ensures ok ==>
      && dstRect == rounded
      && last == Target(Approx, rounded.right, rounded.bottom, config)
      && offset == (if mode == Ignore then srcOffset else IPoint(0, 0))
  {
    offset := srcOffset;
    var srcRect := start;
    dstRect := start;
    ghost var plan := Steps(0, ex, ey, start, contentRect, srcOffset, mode, config);
    ghost var ops0 := r.ops;
    ghost var done: seq<Op> := [];
    ghost var k: nat := 0;
    last := Target(Approx, dstRect.right, dstRect.bottom, config);
    var i := 1;
    while i < scaleFactorX || i < scaleFactorY
      invariant i == Pow2(k) && k <= Max(ex, ey)
      invariant srcRect == dstRect && AfterRounds(dstRect, rounded, ex, ey, k)
      invariant offset == if k == 0 || mode == Ignore then srcOffset else IPoint(0, 0)
      invariant plan == done + Steps(k, ex, ey, dstRect, contentRect, srcOffset, mode, config)
      invariant r.ops == ops0 + done
      invariant r.Valid() && old(r.attempts) <= r.attempts && NoneFail(r.failures, old(r.attempts), r.attempts)
      invariant k > 0 ==> last == Target(Approx, dstRect.right, dstRect.bottom, config)
      decreases Max(ex, ey) - k
    {
      Pow2Less(k, ex);
      Pow2Less(k, ey);
      ghost var before := r.ops;
      ghost var at := r.attempts;
      var t;
      ghost var cur := dstRect;
      ok, t, dstRect, offset :=
        HalvingRound(r, config, contentRect, srcOffset, mode, k, ex, ey, rounded, i, scaleFactorX, scaleFactorY,
                     srcRect, dstRect, offset);
      NoneFailThen(r.failures, old(r.attempts), at, r.attempts);
      ghost var round := Round(k, ex, ey, cur, contentRect, srcOffset, mode, config);
      RoundOfRun(ops0, before, r.ops, done, plan, k, ex, ey, cur, contentRect, srcOffset, mode, config, ok);
      if !ok {
        return;
      }
      done := done + round;
      srcRect := dstRect;
      last := t;
      i := i * 2;
      k := k + 1;
    }
    Pow2Less(k, ex);
    Pow2Less(k, ey);
    RoundsDone(rounded, ex, ey, k);
    ok := true;
    assert r.ops[|ops0|..] == plan;
  }

  /**
   * One round of the loop of decimate at i = 2^k: halves the axes whose factor exceeds i,
   * allocates a target reaching to the halved rectangle's right and bottom edges, and fills the
   * halved rectangle from srcRect, through the content domain in the first round unless the mode
   * is Ignore (which consumes the offset), by clamped bilinear sampling otherwise.
   */
  method HalvingRound(r: Renderer, config: PixelConfig, contentRect: IRect, srcOffset: IPoint, mode: Mode,
                      ghost k: nat, ghost ex: nat, ghost ey: nat, ghost rounded: IRect, i: int,
                      scaleFactorX: int, scaleFactorY: int, srcRect: IRect, dstRect: IRect, offset: IPoint)
    returns (ok: bool, t: Target, newDstRect: IRect, newOffset: IPoint)
    requires i == Pow2(k) && scaleFactorX == Pow2(ex) && scaleFactorY == Pow2(ey)
    requires srcRect == dstRect && AfterRounds(dstRect, rounded, ex, ey, k)
    requires offset == if k == 0 || mode == Ignore then srcOffset else IPoint(0, 0)
    requires r.Valid()
    modifies r
    ensures r.Valid()
    ensures old(r.attempts) <= r.attempts
    ensures ok <==> NoneFail(r.failures, old(r.attempts), r.attempts)
    ensures Extends(old(r.ops), r.ops, Round(k, ex, ey, dstRect, contentRect, srcOffset, mode, config), ok)
    ensures newDstRect == Halved(dstRect, k < ex, k < ey) && AfterRounds(newDstRect, rounded, ex, ey, k + 1)
    ensures t == Target(Approx, newDstRect.right, newDstRect.bottom, config)
    ensures ok ==> newOffset == if mode == Ignore then srcOffset else IPoint(0, 0)
  {
    Pow2Less(k, ex);
    Pow2Less(k, ey);
    Pow2Less(0, k);
    var halveX, halveY := i < scaleFactorX, i < scaleFactorY;
    var first := i == 1;
    assert halveX == (k < ex) && halveY == (k < ey) && first == (k == 0);
    HalvingStep(rounded, ex, ey, k);
    ghost var before := r.ops;
    newOffset := offset;
    var src := srcRect;
    newDstRect := ShrinkIRectBy2(dstRect, halveX, halveY);
    t := Target(Approx, newDstRect.right, newDstRect.bottom, config);
    ghost var round := Round(k, ex, ey, dstRect, contentRect, srcOffset, mode, config);
    ok := r.MakeRenderTarget(t);
    if !ok {
      AbortAt(before, [], t, round[1..]);
      assert before + [] == before;
      return;
    }

    var paint;
    if mode != Ignore && first {
      paint := DomainBilerp(contentRect, halveX, halveY, ModeForScaling(mode));
      src := src.Offset(newOffset.Negated());
      newOffset := IPoint(0, 0);
    } else {
      paint := ClampBilerp;
    }
    r.FillRectToRect(newDstRect, newDstRect, src, paint);
    assert r.ops[|before|..] == round;
  }

  /**
   * decimate: shrinks the source by the scale factors, one halving per round, and clears the
   * halo beside the shrunk content. On success the new content rectangle is the original one
   * (moved into place) rounded out to the factors, the offset has been consumed by the domain
   * read unless the mode is Ignore, and the result is the last target allocated.
   */
  method Decimate(r: Renderer, proxyConfig: PixelConfig, hasColorSpace: bool, srcOffset: IPoint,
                  contentRect: IRect, scaleFactorX: int, scaleFactorY: int, willBeXFiltering: bool,
                  willBeYFiltering: bool, radiusX: int, radiusY: int, mode: Mode,
                  dstWidth: int, dstHeight: int)
    returns (result: Option<Target>, newOffset: IPoint, newContent: IRect)
    requires IsPow2(scaleFactorX) && IsPow2(scaleFactorY)
    requires scaleFactorX > 1 || scaleFactorY > 1
    requires r.Valid()
    modifies r
    ensures r.Valid()
    ensures old(r.attempts) <= r.attempts
    ensures result.Some? <==> NoneFail(r.failures, old(r.attempts), r.attempts)
    ensures Extends(old(r.ops), r.ops,
                    DecimateOps(GetBlurConfig(proxyConfig, hasColorSpace), srcOffset, contentRect,
                                scaleFactorX, scaleFactorY, willBeXFiltering, radiusX, radiusY, mode,
                                dstWidth, dstHeight),
                    result.Some?)
    ensures result.Some? ==>
      && newContent == RoundOut(SourceRect(mode, contentRect, srcOffset, dstWidth, dstHeight),
                                scaleFactorX, scaleFactorY)
      && newOffset == (if mode == Ignore then srcOffset else IPoint(0, 0))
      && result.value == Target(Approx, newContent.right, newContent.bottom, GetBlurConfig(proxyConfig, hasColorSpace))
  {
    var config := GetBlurConfig(proxyConfig, hasColorSpace);
    var srcRect := if mode == Ignore then MakeWH(dstWidth, dstHeight) else contentRect.Offset(srcOffset);
    srcRect := ScaleIRectRoundOut(srcRect, scaleFactorX, scaleFactorY);
    ghost var rounded := srcRect;
    srcRect := ScaleIRect(srcRect, scaleFactorX, scaleFactorY);

    ghost var ops0 := r.ops;
    ghost var plan := Steps(0, Log2(scaleFactorX), Log2(scaleFactorY), srcRect, contentRect, srcOffset, mode, config);
    ghost var halo := HaloClear(rounded, willBeXFiltering, scaleFactorX, scaleFactorY, radiusX, radiusY);
    assert AfterRounds(srcRect, rounded, Log2(scaleFactorX), Log2(scaleFactorY), 0);
    assert Log2(scaleFactorX) > 0 || Log2(scaleFactorY) > 0;
    var ok, last, offset, content :=
      HalvingRounds(r, config, contentRect, srcOffset, srcRect, rounded, scaleFactorX, scaleFactorY,
                    Log2(scaleFactorX), Log2(scaleFactorY), mode);
    if !ok {
      AbortedBefore(ops0, r.ops, plan, halo);
      return None, offset, contentRect;
    }
    ghost var ops1 := r.ops;

    if willBeXFiltering {
      if scaleFactorX > 1 {
        r.AbsClearRect(MakeXYWH(content.right, content.top, radiusX, content.Height()));
      }
    } else {
      if scaleFactorY > 1 {
        r.AbsClearRect(MakeXYWH(content.left, content.bottom, content.Width(), radiusY));
      }
    }
    assert r.ops == ops1 + halo;
    ExtendsThen(ops0, ops1, r.ops, plan, halo, true) by {
      assert r.ops[|ops1|..] == halo;
    }
    return Some(last), offset, content;
  }
}
