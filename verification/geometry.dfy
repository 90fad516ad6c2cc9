/**
 * Integer points and rectangles (SkIPoint, SkIRect) and the three rectangle helpers of the
 * blur: round-out division by a scale factor, multiplication by a scale factor, and halving.
 */
module Geometry {

  datatype IPoint = IPoint(x: int, y: int) {
    function Negated(): IPoint { IPoint(-x, -y) }
  }

  /** A rectangle given by its edges; the pixels it holds are [left, right) x [top, bottom). */
  datatype IRect = IRect(left: int, top: int, right: int, bottom: int) {
    function Width(): int { right - left }
    function Height(): int { bottom - top }
    function TopLeft(): IPoint { IPoint(left, top) }

    predicate IsEmpty() { left >= right || top >= bottom }

    /** True iff pixel (x, y) lies in the rectangle. */
    predicate Contains(x: int, y: int) { left <= x < right && top <= y < bottom }

    function Offset(d: IPoint): IRect { IRect(left + d.x, top + d.y, right + d.x, bottom + d.y) }

    /** Moves the rectangle so that its top-left corner is (x, y), keeping its size. */
    function OffsetTo(x: int, y: int): IRect { IRect(x, y, x + Width(), y + Height()) }

    function Inset(dx: int, dy: int): IRect { IRect(left + dx, top + dy, right - dx, bottom - dy) }
  }

  function MakeWH(w: int, h: int): IRect { IRect(0, 0, w, h) }

  function MakeXYWH(x: int, y: int, w: int, h: int): IRect { IRect(x, y, x + w, y + h) }

  /** Floor of a / d for a positive divisor (Dafny's division is Euclidean). */
  function FloorDiv(a: int, d: int): int
    requires d > 0
  {
    a / d
  }

  /** Ceiling of a / d for a positive divisor. */
  function CeilDiv(a: int, d: int): int
    requires d > 0
  {
    -((-a) / d)
  }

  /** C++ integer division by two, which truncates toward zero. */
  function TruncDiv2(a: int): int
  {
    if a >= 0 then a / 2 else -((-a) / 2)
  }

  /** scale_irect_roundout with scales 1/sx and 1/sy: edges floored (left, top) or ceiled. */
  function RoundOut(r: IRect, sx: int, sy: int): (q: IRect)
    requires sx > 0 && sy > 0
  {
    IRect(FloorDiv(r.left, sx), FloorDiv(r.top, sy), CeilDiv(r.right, sx), CeilDiv(r.bottom, sy))
  }

  /** scale_irect: every x edge times sx, every y edge times sy. */
  function Scaled(r: IRect, sx: int, sy: int): (s: IRect)
  {
    IRect(r.left * sx, r.top * sy, r.right * sx, r.bottom * sy)
  }

  /** shrink_irect_by_2: the edges of the selected axes divided by two. */
  function Halved(r: IRect, xAxis: bool, yAxis: bool): (h: IRect)
  {
    IRect(if xAxis then TruncDiv2(r.left) else r.left,
          if yAxis then TruncDiv2(r.top) else r.top,
          if xAxis then TruncDiv2(r.right) else r.right,
          if yAxis then TruncDiv2(r.bottom) else r.bottom)
  }

  predicate EvenEdges(r: IRect, xAxis: bool, yAxis: bool)
  {
    (xAxis ==> r.left % 2 == 0 && r.right % 2 == 0) && (yAxis ==> r.top % 2 == 0 && r.bottom % 2 == 0)
  }

  /** Updates a rectangle in place by round-out division, one edge at a time. */
  method ScaleIRectRoundOut(rect: IRect, xScale: int, yScale: int) returns (r: IRect)
    requires xScale > 0 && yScale > 0
    ensures r == RoundOut(rect, xScale, yScale)
    ensures r.left * xScale <= rect.left < r.left * xScale + xScale
    ensures r.top * yScale <= rect.top < r.top * yScale + yScale
    ensures r.right * xScale - xScale < rect.right <= r.right * xScale
    ensures r.bottom * yScale - yScale < rect.bottom <= r.bottom * yScale
  {
    r := rect;
    r := r.(left := FloorDiv(r.left, xScale));
    r := r.(top := FloorDiv(r.top, yScale));
    r := r.(right := CeilDiv(r.right, xScale));
    r := r.(bottom := CeilDiv(r.bottom, yScale));
    RoundOutCovers(rect, xScale, yScale);
  }

  /** Updates a rectangle in place by multiplying its edges by the scale factors. */
  method ScaleIRect(rect: IRect, xScale: int, yScale: int) returns (r: IRect)
    ensures r == Scaled(rect, xScale, yScale)
    ensures xScale > 0 && yScale > 0 ==> RoundOut(r, xScale, yScale) == rect
  {
    r := rect;
    r := r.(left := r.left * xScale);
    r := r.(top := r.top * yScale);
    r := r.(right := r.right * xScale);
    r := r.(bottom := r.bottom * yScale);
    if xScale > 0 && yScale > 0 {
      RoundOutOfScaled(rect, xScale, yScale);
    }
  }

  /** Updates a rectangle in place by halving the edges of the selected axes, which must be even. */
  method ShrinkIRectBy2(rect: IRect, xAxis: bool, yAxis: bool) returns (r: IRect)
    requires EvenEdges(rect, xAxis, yAxis)
    ensures r == Halved(rect, xAxis, yAxis)
    ensures xAxis ==> 2 * r.left == rect.left && 2 * r.right == rect.right
    ensures yAxis ==> 2 * r.top == rect.top && 2 * r.bottom == rect.bottom
    ensures !xAxis ==> r.left == rect.left && r.right == rect.right
    ensures !yAxis ==> r.top == rect.top && r.bottom == rect.bottom
  {
    r := rect;
    if xAxis {
      r := r.(left := TruncDiv2(r.left), right := TruncDiv2(r.right));
    }
    if yAxis {
      r := r.(top := TruncDiv2(r.top), bottom := TruncDiv2(r.bottom));
    }
  }

  lemma FloorDivBounds(a: int, d: int)
    requires d > 0
    ensures FloorDiv(a, d) * d <= a < FloorDiv(a, d) * d + d
  {
    assert a == (a / d) * d + a % d;
  }

  lemma CeilDivBounds(a: int, d: int)
    requires d > 0
    ensures CeilDiv(a, d) * d - d < a <= CeilDiv(a, d) * d
  {
    FloorDivBounds(-a, d);
    assert CeilDiv(a, d) * d == -(FloorDiv(-a, d) * d);
  }

  lemma MultipleMod(q: int, d: int)
    requires d > 0
    ensures (q * d) % d == 0 && (q * d) / d == q
  {
    var m := q * d;
    var t := q - m / d;
    assert m == (m / d) * d + m % d;
    assert t * d == m % d;
    MulSign(t, d);
  }

  lemma MulSign(t: int, d: int)
    requires d > 0
    ensures t >= 1 ==> t * d >= d
    ensures t <= -1 ==> t * d <= -d
  {
    if t >= 1 {
      assert t * d == (t - 1) * d + d;
    } else if t <= -1 {
      assert t * d == (t + 1) * d - d;
    }
  }

  /**
   * Rounding out and scaling back yields a rectangle that contains the original, whose edges
   * are multiples of the factors, and that exceeds the original by less than one factor per edge.
   */
  lemma RoundOutCovers(r: IRect, sx: int, sy: int)
    requires sx > 0 && sy > 0
    ensures var s := Scaled(RoundOut(r, sx, sy), sx, sy);
      && s.left <= r.left < s.left + sx && s.top <= r.top < s.top + sy
      && s.right - sx < r.right <= s.right && s.bottom - sy < r.bottom <= s.bottom
      && s.left % sx == 0 && s.right % sx == 0 && s.top % sy == 0 && s.bottom % sy == 0
  {
    var q := RoundOut(r, sx, sy);
    FloorDivBounds(r.left, sx);
    FloorDivBounds(r.top, sy);
    CeilDivBounds(r.right, sx);
    CeilDivBounds(r.bottom, sy);
    MultipleMod(q.left, sx);
    MultipleMod(q.top, sy);
    MultipleMod(q.right, sx);
    MultipleMod(q.bottom, sy);
  }

  /** Dividing a scaled rectangle by the same factors gives back the rectangle. */
  lemma RoundOutOfScaled(r: IRect, sx: int, sy: int)
    requires sx > 0 && sy > 0
    ensures RoundOut(Scaled(r, sx, sy), sx, sy) == r
  {
    MultipleMod(r.left, sx);
    MultipleMod(r.top, sy);
    MultipleMod(-r.right, sx);
    MultipleMod(-r.bottom, sy);
    assert -(r.right * sx) == (-r.right) * sx;
    assert -(r.bottom * sy) == (-r.bottom) * sy;
  }

  /** Halving the doubled edges of an axis undoes the doubling; the other axis is untouched. */
  lemma HalvedOfDoubled(r: IRect, mx: int, my: int, xAxis: bool, yAxis: bool)
    ensures var s := Scaled(r, if xAxis then 2 * mx else mx, if yAxis then 2 * my else my);
      && EvenEdges(s, xAxis, yAxis)
      && Halved(s, xAxis, yAxis) == Scaled(r, mx, my)
  {
    assert r.left * (2 * mx) == 2 * (r.left * mx);
    assert r.right * (2 * mx) == 2 * (r.right * mx);
    assert r.top * (2 * my) == 2 * (r.top * my);
    assert r.bottom * (2 * my) == 2 * (r.bottom * my);
  }
}
