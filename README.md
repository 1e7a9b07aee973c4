# Hough line detector, host-side core, in Dafny

This project models the sequential host-side part of an OpenCL Hough-transform
line detector for PNG images, and proves properties of that model. It has three
parts:

- **Peak selection** (`findLine`). One pass over the vote accumulator keeps the
  `nbLine` strongest bins in two parallel arrays, `score` and `id`. The arrays
  start zero-filled. A vote strictly above `score[0]` replaces slot 0. One bubble
  pass then restores ascending order.
- **Accumulator geometry.** The accumulator has `phiDim = (int)(pi / discPhi)`
  angle bins of `rDim = (int)(((width + height) * 2 + 1) / discR)` radius bins.
  It is laid out row-major with r as the fast component. A linear index `accPos`
  decodes to `r = (accPos % rDim) * discR` and `phi = (accPos / rDim) * discPhi`.
- **The RGBA pixel buffer.** Channel `c` of pixel `(x, y)` is byte `x * 4 + c`
  of row `y`.
  - `getRGBpixel` splits R, G and B into flat `y * width + x` arrays.
  - `process` writes a grey value into R, G and B.
  - `draw_line` colours the line of one accumulator bin green, in place. It has
    a horizontal case, a vertical case and a general two-way walk with a
    clipping guard.

Modules:

- `CNumerics`: the C conversions used. These are the `(int)` cast of a float
  (truncation toward zero), C's `/` and `%` on `int`, and the store of an
  `int` into an unsigned byte (reduction modulo 256).
- `RowMajor`: the flat index `row * stride + col` and its inverse.
- `ParameterSpace`: the accumulator dimensions, the index decomposition and the
  polar coordinates of a bin.
- `PeakSelection`: `findLine`. The spec function `Scan` gives the state of the
  two arrays after any prefix of the scan. The method `FindLine` keeps the
  source's arrays and loops and is proved to compute `Scan`.
- `PixelBuffer`: the buffer as `array2<Byte>` `rows[y, b]`, with `getRGBpixel`
  and `process`.
- `LineRasterizer`: `draw_line`. The closed-form spec is
  `RowAt(x0, y0, x) = y0 + (x - x0) * (-x0 / y0)`. The two `while` loops are
  proved to colour exactly the pixels the clipping guard admits on that line.
  - `draw_line` takes `cos(phi)` and `sin(phi)` from the C library. Here their
    values are the parameters `cosPhi` and `sinPhi`.
  - Floats are modelled as exact reals.

Notes on how the code behaves:

- **Sentinel and bin 0.** A leftover sentinel slot of `findLine` reports bin 0
  with score 0. It cannot be told apart from a genuine peak at bin 0 by the
  returned `id` array alone; `SentinelLooksLikeBinZero` shows this.
- **Error cases.** The code checks for neither `nbLine == 0` nor a
  non-positive discretisation step. The model follows the code and makes
  `nbLine >= 1` and `disc > 0` preconditions. With `nbLine == 0`, `score[0]`
  is read out of bounds and `nbLine - 1` wraps as a `size_t`. A zero step
  divides by zero.
- **General case of `draw_line`:**
  - Column 0 is never written.
  - Row 0 can be written. The guard tests the real row `pyR > 0` before
    truncation, so a row in (0, 1) is written to row 0.
  - The reference column `xPixel` itself is never painted. Both walks step
    before they paint.

## Model

| member | source | states |
|---|---|---|
| CNumerics.FloatToInt | host/src/PNGimg.cpp:185-187 | the `(int)` cast of a float truncates toward zero: the result is within 1 of x, on the side of 0 |
| CNumerics.CRem | host/src/PNGimg.cpp:182 | C's `%` satisfies `a == (a / b) * b + a % b`, with the remainder's sign that of the dividend and magnitude below b |
| CNumerics.ToByte | host/src/PNGimg.cpp:132-134 | storing an int into a png byte keeps it modulo 256, and keeps values 0..255 unchanged |
| RowMajor.FlatBounds | host/src/PNGimg.cpp:112-114 | cell (x, y) of a width x height grid has flat index `y * width + x` inside `[0, width * height)` |
| RowMajor.FlatSplit | host/src/PNGimg.cpp:182-183 | `% stride` and `/ stride` of a non-negative flat index give a cell that flattens back to it |
| RowMajor.FlatUnsplit | host/src/PNGimg.cpp:182-183 | a cell is recovered from its flat index by `%` and `/`, so the layout is one-to-one |
| RowMajor.AtCoversAll | host/src/PNGimg.cpp:112-114 | every index of a flat width x height array is the element of exactly one pixel cell |
| ParameterSpace.FloorOfQuotient | host/src/faces.cpp:495-496 | the truncated quotient of a non-negative x by a positive step d is the largest count whose multiple of d stays at or below x |
| ParameterSpace.PhiDimCoversHalfTurn | host/src/faces.cpp:495 | `phiDim * discPhi <= pi < (phiDim + 1) * discPhi`: the angle bins cover a half turn, and one more would pass it |
| ParameterSpace.RDimCoversDiagonal | host/src/faces.cpp:496 | `rDim * discR <= 2 (width + height) + 1 < (rDim + 1) * discR` |
| ParameterSpace.DefaultDimensions | host/src/faces.cpp:13-15 | with the design constants (0.012, 1.25), a 100 x 100 image gets rDim 320, phiDim 261 and an accumulator of 83520 bins |
| ParameterSpace.IndexDecomposition | host/src/PNGimg.cpp:182-183 | `accPos == (accPos / rDim) * rDim + accPos % rDim` and `0 <= accPos % rDim < rDim` for `accPos >= 0` |
| ParameterSpace.PhiIndexInRange | host/src/PNGimg.cpp:183 | an index below `rDim * phiDim` has an angle index below `phiDim` |
| ParameterSpace.BinIndexRoundTrip | host/src/PNGimg.cpp:182-183 | decoding the index of bin (rIndex, phiIndex) gives back rIndex and phiIndex |
| ParameterSpace.PolarInRange | host/src/PNGimg.cpp:182-183 | every accumulator index decodes to r in `[0, rDim * discR)` and phi in `[0, phiDim * discPhi)` |
| ParameterSpace.DecodedBinGeometry | host/src/faces.cpp:495-505 | with the computed dimensions, every bin of the `phiDim * rDim` accumulator has phi in `[0, pi)` and r within `2 (width + height) + 1` |
| PeakSelection.Zeroed | host/src/faces.cpp:628-631 | after the zero-filling loop both arrays have length nbLine and every slot is 0 |
| PeakSelection.SwapPermutes | host/src/faces.cpp:642-647 | a swap of slots j and j + 1 permutes the (score, id) pairs |
| PeakSelection.BubblePermutes | host/src/faces.cpp:639-649 | the bubble pass permutes the (score, id) pairs, so scores and ids stay paired |
| PeakSelection.BubbleKeepsDistinct | host/src/faces.cpp:639-649 | the bubble pass keeps the kept bins pairwise distinct |
| PeakSelection.BubbleSorts | host/src/faces.cpp:639-649 | from a position j with the slots up to j ascending, the slots after j ascending, and the slots before j no larger than slot j + 1, the rest of the pass leaves the scores ascending; from j = 0 this is the pass after slot 0 is overwritten |
| PeakSelection.InsertStep | host/src/faces.cpp:634-649 | processing one more accumulator element keeps the scan invariant: scores ascending, every slot the sentinel or a paired admitted bin, ids distinct, and every vote above score[0] kept |
| PeakSelection.ScanKeepsInvariant | host/src/faces.cpp:633-651 | the scan invariant holds after every prefix of the accumulator |
| PeakSelection.MinNeverDecreases | host/src/faces.cpp:634-637 | score[0] never decreases from one accumulator element to the next |
| PeakSelection.MinMonotone | host/src/faces.cpp:633-651 | score[0] never decreases over any stretch of the scan |
| PeakSelection.TopNSelects | host/src/faces.cpp:633-655 | at the end the scores are ascending; each slot is (0, 0) or a bin in range with its own positive vote; no bin is kept twice; every bin voting above score[0] is kept with its vote; a bin not kept has no more votes than any kept score |
| PeakSelection.KeptOnlyIfStrictlyGreater | host/src/faces.cpp:634-637 | every kept bin was strictly above score[0] when scanned, so an equal vote never displaces a kept one |
| PeakSelection.SmallExample | host/src/faces.cpp:633-651 | votes [5, 3, 9, 1, 7, 2] with three lines end as scores [5, 7, 9], ids [0, 4, 2] |
| PeakSelection.SentinelLooksLikeBinZero | host/src/faces.cpp:628-637 | votes [0, 0, 5] with two lines end as ids [0, 2]: the unused sentinel reports bin 0 |
| PeakSelection.FindLine | host/src/faces.cpp:614-656 | the in-place loops compute exactly the ids of the spec scan; it returns nbLine ids; every bin voting above the final score[0] is among them |
| PixelBuffer.ByteOffsetSplit | host/src/PNGimg.cpp:111 | every byte of a row is channel `b % 4` of pixel `b / 4` |
| PixelBuffer.ByteOffsetUnsplit | host/src/PNGimg.cpp:111 | byte `x * 4 + c` belongs to pixel x and channel c |
| PixelBuffer.GetRGBPixel | host/src/PNGimg.cpp:94-125 | the three arrays have `width * height` entries, and entry `y * width + x` is byte `x * 4`, `x * 4 + 1` or `x * 4 + 2` of row y; the buffer is only read |
| PixelBuffer.Process | host/src/PNGimg.cpp:127-137 | bytes R, G and B of every image pixel become `grey[y * width + x]` reduced to a byte; alpha and every byte outside the image are unchanged |
| LineRasterizer.AccumulatedIsLinear | host/src/PNGimg.cpp:226-228 | adding the slope k times to the starting row gives `y0 + k * slope` |
| LineRasterizer.OnLineInsideImage | host/src/PNGimg.cpp:202-250 | under the horizontal and vertical cases' bounds, every pixel drawn lies in the image; in the general case it has column > 0 and its row is the truncation of a real row in (0, height) |
| LineRasterizer.GeneralCaseIsOrthogonal | host/src/PNGimg.cpp:194-198 | each point `(x, RowAt(x))` of the general case lies on the line through (x0, y0) perpendicular to the radius to (x0, y0) |
| LineRasterizer.PaintPixel | host/src/PNGimg.cpp:205-208 | pixel (x, y) gets (0, 255, 0); nothing else changes |
| LineRasterizer.DrawHorizontal | host/src/PNGimg.cpp:202-209 | R, G and B of every pixel of row yPixel, columns 0 to width - 1, become (0, 255, 0); nothing else changes |
| LineRasterizer.DrawVertical | host/src/PNGimg.cpp:210-217 | R, G and B of column xPixel in rows 0 to height - 1 become (0, 255, 0); nothing else changes |
| LineRasterizer.WalkRight | host/src/PNGimg.cpp:219-237 | exactly the pixels right of xPixel whose real row passes the guard are painted, at the truncated row; the walk terminates at width |
| LineRasterizer.WalkLeft | host/src/PNGimg.cpp:219-250 | exactly the pixels left of xPixel whose real row passes the guard are painted, at the truncated row; the walk terminates at column 0 |
| LineRasterizer.DrawThrough | host/src/PNGimg.cpp:202-251 | every byte of the buffer becomes the marker where it is R, G or B of a line pixel and keeps its value otherwise; alpha never changes |
| LineRasterizer.DrawLine | host/src/PNGimg.cpp:176-252 | decodes the bin, truncates `(r cos phi, r sin phi)` to the reference point and draws its line as DrawThrough states; alpha never changes |
| LineRasterizer.VerticalCaseLeavesImage | host/src/PNGimg.cpp:210-217 | bin 83208 of the 100 x 100 accumulator (r = 10, phi = 3.12) is in range but has reference point (-9, 0), outside what the vertical case can draw safely |
| LineRasterizer.ClippingAgreesInside | host/src/PNGimg.cpp:202-217 | wherever the unclipped axis cases stay in the image, clipped drawing gives the same bytes |
| LineRasterizer.DrawThroughClipped | host/src/PNGimg.cpp:202-251 | for any reference point, exactly the line pixels inside the image are painted and no byte outside the image changes |
| LineRasterizer.DrawLineClipped | host/src/PNGimg.cpp:176-252 | draw_line with clipped axis cases: every bin can be drawn, and no byte outside the image changes |

## Findings

| source | as written | input that shows it | evidently intended | confidence | as-written member | corrected member |
|---|---|---|---|---|---|---|
| host/src/PNGimg.cpp:202-217 | the horizontal and vertical cases write row `yPixel`, or column `xPixel`, without checking that it lies in the image | width = height = 100, accPos = 83208 (rIndex 8, phiIndex 260: r = 10, phi = 3.12, cos phi about -0.9998, sin phi about 0.0216) gives xPixel = -9, yPixel = 0, and the vertical case writes bytes -36 to -34 of every row | clip the axis cases as the general case is clipped: draw nothing when the row or column misses the image | medium, not executed; whether such a bin is among the selected peaks depends on the votes | LineRasterizer.DrawLine, LineRasterizer.VerticalCaseLeavesImage | LineRasterizer.DrawLineClipped, LineRasterizer.ClippingAgreesInside |

## Left out

- The OpenCL bootstrap and teardown are not modelled. These are platform, device, context, queue, program, kernel and buffer creation, `cleanup` and `checkErr`. They are foreign calls on global device handles.
- The kernel invocations `blackAndWhite`, `edgeD` and `houghLine` are not modelled. They marshal buffers and run code on the device; only the dimension arithmetic of `houghLine` is modelled.
- The sin and cos tables of `houghLine` and the `cos`/`sin` calls of `draw_line` are not modelled: they are floating-point library numerics. Their values enter `DrawLine` as the parameters `cosPhi` and `sinPhi`.
- `openImg` and `write_png_file` are not modelled: they are PNG file I/O through libpng.
- `main` is not modelled: it only orchestrates the stages and frees memory.
- The `printf` calls are not modelled: they are diagnostic output.
- A failed `malloc`, `getRGBpixel`'s return of -1 and `findLine`'s `exit(1)` are not modelled: memory allocation always succeeds in the model.
- host/src/PNGimg.h is not modelled: it holds prototypes only. Its `draw_line` declaration has fewer parameters than the definition.
- Float rounding is not modelled: floats are exact reals. `pyR += orthSlope` therefore accumulates without rounding error, so the truncated row of a pixel may differ from the program's at a row boundary.
- 32-bit `int` overflow is not modelled: integers are unbounded. This covers `width * height`, `phiDim * rDim`, `x * 4` and `y * width + x`.
- `FindLine` takes the accumulator's length as `accSize`. The separately passed `accSize` and the `size_t` width of `nbLine` are not modelled.
- `FindLine` returns the ids only. The `score` array is freed by the source and not returned.
- `GetRGBPixel` returns values, not pointers written through `int **`.
- Row-pointer aliasing is not modelled. The buffer is one `array2`, so its rows never alias; the source's separately allocated rows do not alias either.
- The `phiDim` parameter of `draw_line` is unused in the source. `DrawLine` keeps it and does not use it either.
- `DrawLine` / `DrawThrough`: the horizontal and vertical cases need their row or column inside the image (`AxisCaseInside`), because the source does not check it. See the finding above.
