/**
 * `draw_line`: turn one accumulator bin back into a line and colour it green
 * in the pixel buffer, in place.
 *
 * The bin gives (r, phi); the reference point (xPixel, yPixel) is the foot of
 * the perpendicular from the origin, truncated toward zero. A reference point
 * on the x = 0 axis gives a horizontal line, one on the y = 0 axis a vertical
 * line; otherwise the line through the point orthogonal to the radius is walked
 * column by column to the right and to the left, accumulating the slope into a
 * floating row and colouring only pixels that pass the clipping guard.
 *
 * The C library's cos(phi) and sin(phi) are not modelled: their values enter
 * as the parameters cosPhi and sinPhi.
 */
module LineRasterizer {
  import opened CNumerics
  import opened ParameterSpace
  import opened PixelBuffer

  /** The marker colour written into channels R, G, B: pure green (0, 255, 0). */
  function Marker(c: int): Byte
  {
    if c == 1 then 255 else 0
  }

  /** The clipping guard of the stepping walk: `px > 0 && py > 0 && px < width && py < height`. */
  predicate Visible(px: int, py: real, width: int, height: int)
  {
    px > 0 && py > 0.0 && px < width && py < height as real
  }

  /** `orthSlope = -xPixel / (float) yPixel`: the slope orthogonal to the radius towards (x0, y0). */
  function OrthSlope(x0: int, y0: int): real
    requires y0 != 0
  {
    -(x0 as real) / (y0 as real)
  }

  /** The floating row after `steps` additions of the slope to y0, as the walk accumulates it. */
  function Accumulated(y0: real, slope: real, steps: nat): real
  {
    if steps == 0 then y0 else Accumulated(y0, slope, steps - 1) + slope
  }

  /** The row of the drawn line at column x: y0 + (x - x0) * orthSlope. */
  function RowAt(x0: int, y0: int, x: int): real
    requires y0 != 0
  {
    y0 as real + (x - x0) as real * OrthSlope(x0, y0)
  }

  /** Adding the slope k times moves the row by k times the slope. */
  lemma {:induction false} AccumulatedIsLinear(y0: real, slope: real, steps: nat)
    ensures Accumulated(y0, slope, steps) == y0 + steps as real * slope
  {
    if steps > 0 {
      AccumulatedIsLinear(y0, slope, steps - 1);
      assert (steps - 1) as real * slope + slope == steps as real * slope;
    }
  }

  /** The pixels draw_line colours for the reference point (x0, y0). */
  predicate OnLine(x0: int, y0: int, width: int, height: int, x: int, y: int)
  {
    if x0 == 0 then y == y0 && 0 <= x < width
    else if y0 == 0 then x == x0 && 0 <= y < height
    else x != x0 && Visible(x, RowAt(x0, y0, x), width, height) && y == FloatToInt(RowAt(x0, y0, x))
  }

  /**
   * What the unclipped horizontal and vertical cases need of the reference
   * point: a horizontal line's row, and a vertical line's column, inside the image.
   */
  predicate AxisCaseInside(x0: int, y0: int, width: int, height: int)
  {
    && (x0 == 0 && width > 0 ==> 0 <= y0 < height)
    && (x0 != 0 && y0 == 0 && height > 0 ==> 0 <= x0 < width)
  }

  /** Byte b of row y after drawing: the marker on R, G and B of a line pixel, the old byte elsewhere. */
  function Drawn(before: Byte, x0: int, y0: int, width: int, height: int, y: int, b: int): Byte
  {
    if ChannelOf(b) < 3 && OnLine(x0, y0, width, height, PixelOf(b), y) then Marker(ChannelOf(b)) else before
  }

  /**
   * Under the bounds the horizontal and vertical cases need, every line pixel
   * lies inside the image. In the general case the column is never 0 and the
   * row is the truncation of the real row, which lies strictly inside (0, height).
   */
  lemma OnLineInsideImage(x0: int, y0: int, width: int, height: int, x: int, y: int)
    requires AxisCaseInside(x0, y0, width, height)
    requires OnLine(x0, y0, width, height, x, y)
    ensures 0 <= x < width && 0 <= y < height
    ensures x0 != 0 && y0 != 0 ==>
      0 < x && y as real <= RowAt(x0, y0, x) < y as real + 1.0 && 0.0 < RowAt(x0, y0, x) < height as real
  {
  }

  /**
   * In the general case the real point (x, RowAt(x)) of every column lies on the
   * line through (x0, y0) perpendicular to the radius from the origin:
   * (x - x0) * x0 + (row - y0) * y0 == 0.
   */
  lemma GeneralCaseIsOrthogonal(x0: int, y0: int, x: int)
    requires y0 != 0
    ensures (x - x0) as real * x0 as real + (RowAt(x0, y0, x) - y0 as real) * y0 as real == 0.0
  {
    var d := (x - x0) as real;
    var m := OrthSlope(x0, y0);
    assert m * y0 as real == -(x0 as real);
    assert (RowAt(x0, y0, x) - y0 as real) * y0 as real == d * (m * y0 as real);
  }

  /** The reference point at radius r: `((int) (r * cos(phi)), (int) (r * sin(phi)))`. */
  function ReferencePoint(r: real, cosPhi: real, sinPhi: real): (int, int)
  {
    (FloatToInt(r * cosPhi), FloatToInt(r * sinPhi))
  }

  /** Colour pixel (x, y): `pixel[0] = 0; pixel[1] = 255; pixel[2] = 0`. */
  method PaintPixel(rows: array2<Byte>, x: int, y: int)
    requires 0 <= y < rows.Length0 && 0 <= x && ByteOffset(x, 3) <= rows.Length1
    modifies rows
    ensures forall y', b :: 0 <= y' < rows.Length0 && 0 <= b < rows.Length1 ==>
      rows[y', b] == if y' == y && PixelOf(b) == x && ChannelOf(b) < 3 then Marker(ChannelOf(b)) else old(rows[y', b])
  {
    rows[y, ByteOffset(x, 0)] := 0;
    rows[y, ByteOffset(x, 1)] := 255;
    rows[y, ByteOffset(x, 2)] := 0;
  }

  /** The horizontal case: every pixel of row yPixel. */
  method DrawHorizontal(rows: array2<Byte>, yPixel: int, width: nat)
    requires 4 * width <= rows.Length1
    requires width > 0 ==> 0 <= yPixel < rows.Length0
    modifies rows
    ensures forall y, b :: 0 <= y < rows.Length0 && 0 <= b < rows.Length1 ==>
      rows[y, b] == if y == yPixel && PixelOf(b) < width && ChannelOf(b) < 3 then Marker(ChannelOf(b)) else old(rows[y, b])
  {
    for i := 0 to width
      invariant forall y, b :: 0 <= y < rows.Length0 && 0 <= b < rows.Length1 ==>
        rows[y, b] == if y == yPixel && PixelOf(b) < i && ChannelOf(b) < 3 then Marker(ChannelOf(b)) else old(rows[y, b])
    {
      PaintPixel(rows, i, yPixel);
    }
  }

  /** The vertical case: every pixel of column xPixel. */
  method DrawVertical(rows: array2<Byte>, xPixel: int, height: nat)
    requires height <= rows.Length0
    requires height > 0 ==> 0 <= xPixel && ByteOffset(xPixel, 3) <= rows.Length1
    modifies rows
    ensures forall y, b :: 0 <= y < rows.Length0 && 0 <= b < rows.Length1 ==>
      rows[y, b] == if PixelOf(b) == xPixel && y < height && ChannelOf(b) < 3 then Marker(ChannelOf(b)) else old(rows[y, b])
  {
    for i := 0 to height
      invariant forall y, b :: 0 <= y < rows.Length0 && 0 <= b < rows.Length1 ==>
        rows[y, b] == if PixelOf(b) == xPixel && y < i && ChannelOf(b) < 3 then Marker(ChannelOf(b)) else old(rows[y, b])
    {
      PaintPixel(rows, xPixel, i);
    }
  }

  /** The general case, right of the reference point: columns xPixel + 1 up to width - 1. */
  method WalkRight(rows: array2<Byte>, xPixel: int, yPixel: int, width: nat, height: nat)
    requires yPixel != 0
    requires height <= rows.Length0 && 4 * width <= rows.Length1
    modifies rows
    ensures forall y, b :: 0 <= y < rows.Length0 && 0 <= b < rows.Length1 ==>
      rows[y, b] == if ChannelOf(b) < 3 && xPixel < PixelOf(b) && Visible(PixelOf(b), RowAt(xPixel, yPixel, PixelOf(b)), width, height)
                       && y == FloatToInt(RowAt(xPixel, yPixel, PixelOf(b)))
                    then Marker(ChannelOf(b)) else old(rows[y, b])
  {
    var orthSlope := OrthSlope(xPixel, yPixel);
    var pxR, pyR := xPixel, yPixel as real;
    while pxR < width
      invariant xPixel <= pxR
      invariant pyR == Accumulated(yPixel as real, orthSlope, pxR - xPixel)
      invariant forall y, b :: 0 <= y < rows.Length0 && 0 <= b < rows.Length1 ==>
        rows[y, b] == if ChannelOf(b) < 3 && xPixel < PixelOf(b) <= pxR && Visible(PixelOf(b), RowAt(xPixel, yPixel, PixelOf(b)), width, height)
                         && y == FloatToInt(RowAt(xPixel, yPixel, PixelOf(b)))
                      then Marker(ChannelOf(b)) else old(rows[y, b])
      decreases width - pxR
    {
      pxR := pxR + 1;
      pyR := pyR + orthSlope;
      AccumulatedIsLinear(yPixel as real, orthSlope, pxR - xPixel);
      assert pyR == RowAt(xPixel, yPixel, pxR);
      if pxR > 0 && pyR > 0.0 && pxR < width && pyR < height as real {
        PaintPixel(rows, pxR, FloatToInt(pyR));
      }
    }
  }

  /** The general case, left of the reference point: columns xPixel - 1 down to 1. */
  method WalkLeft(rows: array2<Byte>, xPixel: int, yPixel: int, width: nat, height: nat)
    requires yPixel != 0
    requires height <= rows.Length0 && 4 * width <= rows.Length1
    modifies rows
    ensures forall y, b :: 0 <= y < rows.Length0 && 0 <= b < rows.Length1 ==>
      rows[y, b] == if ChannelOf(b) < 3 && PixelOf(b) < xPixel && Visible(PixelOf(b), RowAt(xPixel, yPixel, PixelOf(b)), width, height)
                       && y == FloatToInt(RowAt(xPixel, yPixel, PixelOf(b)))
                    then Marker(ChannelOf(b)) else old(rows[y, b])
  {
    var orthSlope := OrthSlope(xPixel, yPixel);
    var pxL, pyL := xPixel, yPixel as real;
    while pxL > 0
      invariant pxL <= xPixel
      invariant pyL == Accumulated(yPixel as real, -orthSlope, xPixel - pxL)
      invariant forall y, b :: 0 <= y < rows.Length0 && 0 <= b < rows.Length1 ==>
        rows[y, b] == if ChannelOf(b) < 3 && pxL <= PixelOf(b) < xPixel && Visible(PixelOf(b), RowAt(xPixel, yPixel, PixelOf(b)), width, height)
                         && y == FloatToInt(RowAt(xPixel, yPixel, PixelOf(b)))
                      then Marker(ChannelOf(b)) else old(rows[y, b])
      decreases pxL
    {
      pxL := pxL - 1;
      pyL := pyL - orthSlope;
      AccumulatedIsLinear(yPixel as real, -orthSlope, xPixel - pxL);
      assert pyL == RowAt(xPixel, yPixel, pxL);
      if pxL > 0 && pyL > 0.0 && pxL < width && pyL < height as real {
        PaintPixel(rows, pxL, FloatToInt(pyL));
      }
    }
  }

  /**
   * The body of draw_line once the reference point is known. The horizontal and
   * vertical cases do no bounds check of their own, so the reference point must
   * then be inside the image.
   */
  method DrawThrough(rows: array2<Byte>, xPixel: int, yPixel: int, width: nat, height: nat)
    requires height <= rows.Length0 && 4 * width <= rows.Length1
    requires AxisCaseInside(xPixel, yPixel, width, height)
    modifies rows
    ensures forall y, b :: 0 <= y < rows.Length0 && 0 <= b < rows.Length1 ==>
      rows[y, b] == Drawn(old(rows[y, b]), xPixel, yPixel, width, height, y, b)
    ensures forall y, b :: 0 <= y < rows.Length0 && 0 <= b < rows.Length1 && ChannelOf(b) == 3 ==>
      rows[y, b] == old(rows[y, b])
  {
    if xPixel == 0 {
      DrawHorizontal(rows, yPixel, width);
    } else if yPixel == 0 {
      DrawVertical(rows, xPixel, height);
    } else {
      WalkRight(rows, xPixel, yPixel, width, height);
      WalkLeft(rows, xPixel, yPixel, width, height);
    }
  }

  /**
   * draw_line: decode bin accPos into (r, phi), truncate (r cos phi, r sin phi)
   * to the reference point and colour the line through it. phiDim is passed
   * by the caller but not used.
   */
  method DrawLine(rows: array2<Byte>, rDim: int, phiDim: int, accPos: int, discR: real, discPhi: real,
                  width: nat, height: nat, cosPhi: real, sinPhi: real)
    requires rDim > 0
    requires height <= rows.Length0 && 4 * width <= rows.Length1
    requires AxisCaseInside(ReferencePoint(Polar(accPos, rDim, discR, discPhi).0, cosPhi, sinPhi).0,
                            ReferencePoint(Polar(accPos, rDim, discR, discPhi).0, cosPhi, sinPhi).1, width, height)
    modifies rows
    ensures forall y, b :: 0 <= y < rows.Length0 && 0 <= b < rows.Length1 ==>
      rows[y, b] == Drawn(old(rows[y, b]), ReferencePoint(Polar(accPos, rDim, discR, discPhi).0, cosPhi, sinPhi).0,
                          ReferencePoint(Polar(accPos, rDim, discR, discPhi).0, cosPhi, sinPhi).1, width, height, y, b)
    ensures forall y, b :: 0 <= y < rows.Length0 && 0 <= b < rows.Length1 && ChannelOf(b) == 3 ==>
      rows[y, b] == old(rows[y, b])
  {
    // phi itself only feeds cos and sin, whose values are the parameters cosPhi and sinPhi
    var r := Polar(accPos, rDim, discR, discPhi).0;
    var xPixel := ReferencePoint(r, cosPhi, sinPhi).0;
    var yPixel := ReferencePoint(r, cosPhi, sinPhi).1;
    DrawThrough(rows, xPixel, yPixel, width, height);
  }

  /**
   * The axis cases are not clipped. Bin 83208 of the default 100 x 100
   * accumulator (rIndex 8, phiIndex 260, so r = 10 and phi = 3.12, where
   * cos phi is about -0.9998 and sin phi about 0.0216) is inside the
   * accumulator, yet its reference point is (-9, 0): the vertical case then
   * writes column -9 of every row, before the start of the row.
   */
  lemma VerticalCaseLeavesImage(cosPhi: real, sinPhi: real)
    requires -1.0 < cosPhi <= -0.99 && 0.0 <= sinPhi <= 0.05
    ensures 0 <= 83208 < AccumulatorSize(100, 100, DiscreteR, DiscretePhi)
    ensures Polar(83208, RDim(100, 100, DiscreteR), DiscreteR, DiscretePhi) == (10.0, 3.12)
    ensures ReferencePoint(10.0, cosPhi, sinPhi) == (-9, 0)
    ensures !AxisCaseInside(-9, 0, 100, 100)
  {
    DefaultDimensions();
    assert CRem(83208, 320) == 8 && CDiv(83208, 320) == 260;
    assert 9.0 <= -(10.0 * cosPhi) < 10.0;
    assert 0.0 <= 10.0 * sinPhi < 1.0;
  }

  /** The pixels a clipped draw_line colours: the line pixels that lie inside the image. */
  predicate OnLineClipped(x0: int, y0: int, width: int, height: int, x: int, y: int)
  {
    OnLine(x0, y0, width, height, x, y) && 0 <= x < width && 0 <= y < height
  }

  /** Byte b of row y after clipped drawing. */
  function DrawnClipped(before: Byte, x0: int, y0: int, width: int, height: int, y: int, b: int): Byte
  {
    if ChannelOf(b) < 3 && OnLineClipped(x0, y0, width, height, PixelOf(b), y) then Marker(ChannelOf(b)) else before
  }

  /** Wherever the unclipped drawing stays inside the image, clipping changes nothing. */
  lemma ClippingAgreesInside(x0: int, y0: int, width: int, height: int, y: int, b: int, before: Byte)
    requires AxisCaseInside(x0, y0, width, height)
    ensures DrawnClipped(before, x0, y0, width, height, y, b) == Drawn(before, x0, y0, width, height, y, b)
  {
    if OnLine(x0, y0, width, height, PixelOf(b), y) {
      OnLineInsideImage(x0, y0, width, height, PixelOf(b), y);
    }
  }

  /**
   * draw_line's body with the horizontal and vertical cases clipped like the
   * general case: a line whose row or column misses the image draws nothing.
   * Any reference point is accepted, and no byte outside the image changes.
   */
  method DrawThroughClipped(rows: array2<Byte>, xPixel: int, yPixel: int, width: nat, height: nat)
    requires height <= rows.Length0 && 4 * width <= rows.Length1
    modifies rows
    ensures forall y, b :: 0 <= y < rows.Length0 && 0 <= b < rows.Length1 ==>
      rows[y, b] == DrawnClipped(old(rows[y, b]), xPixel, yPixel, width, height, y, b)
    ensures forall y, b :: 0 <= y < rows.Length0 && 0 <= b < rows.Length1 && !(y < height && PixelOf(b) < width) ==>
      rows[y, b] == old(rows[y, b])
  {
    if xPixel == 0 {
      if 0 <= yPixel < height {
        DrawHorizontal(rows, yPixel, width);
      }
    } else if yPixel == 0 {
      if 0 <= xPixel < width {
        DrawVertical(rows, xPixel, height);
      }
    } else {
      WalkRight(rows, xPixel, yPixel, width, height);
      WalkLeft(rows, xPixel, yPixel, width, height);
    }
  }

  /** draw_line with clipped axis cases: every accumulator bin is safe to draw. */
  method DrawLineClipped(rows: array2<Byte>, rDim: int, phiDim: int, accPos: int, discR: real, discPhi: real,
                         width: nat, height: nat, cosPhi: real, sinPhi: real)
    requires rDim > 0
    requires height <= rows.Length0 && 4 * width <= rows.Length1
    modifies rows
    ensures forall y, b :: 0 <= y < rows.Length0 && 0 <= b < rows.Length1 ==>
      rows[y, b] == DrawnClipped(old(rows[y, b]), ReferencePoint(Polar(accPos, rDim, discR, discPhi).0, cosPhi, sinPhi).0,
                                 ReferencePoint(Polar(accPos, rDim, discR, discPhi).0, cosPhi, sinPhi).1, width, height, y, b)
    ensures forall y, b :: 0 <= y < rows.Length0 && 0 <= b < rows.Length1 && !(y < height && PixelOf(b) < width) ==>
      rows[y, b] == old(rows[y, b])
  {
    var r := Polar(accPos, rDim, discR, discPhi).0;
    var xPixel := ReferencePoint(r, cosPhi, sinPhi).0;
    var yPixel := ReferencePoint(r, cosPhi, sinPhi).1;
    DrawThroughClipped(rows, xPixel, yPixel, width, height);
  }
}
