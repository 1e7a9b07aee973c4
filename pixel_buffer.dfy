/**
 * The RGBA pixel buffer: `height` rows of at least `4 * width` bytes, with
 * channel c (0 = R, 1 = G, 2 = B, 3 = A) of pixel (x, y) at byte x * 4 + c of
 * row y. The rows are modelled as one two-dimensional array `rows[y, b]`.
 *
 * Channel arrays are flat and row-major: the value of pixel (x, y) sits at
 * index y * width + x.
 */
module PixelBuffer {
  import opened CNumerics
  import opened RowMajor

  /** Byte offset of channel c of pixel column x within a row. */
  function ByteOffset(x: int, c: int): int
  {
    x * 4 + c
  }

  /** The pixel column and the channel that byte b of a row belongs to. */
  function PixelOf(b: int): int { b / 4 }
  function ChannelOf(b: int): int { b % 4 }

  /** Each byte belongs to exactly one (pixel, channel) pair, and that pair's offset is the byte. */
  lemma ByteOffsetSplit(b: int)
    requires b >= 0
    ensures ByteOffset(PixelOf(b), ChannelOf(b)) == b
    ensures 0 <= ChannelOf(b) < 4 && 0 <= PixelOf(b)
  {
  }

  lemma ByteOffsetUnsplit(x: int, c: int)
    requires 0 <= c < 4
    ensures PixelOf(ByteOffset(x, c)) == x && ChannelOf(ByteOffset(x, c)) == c
  {
  }

  /**
   * getRGBpixel: copy the R, G and B channels of every pixel into three flat
   * row-major arrays. The buffer is only read.
   */
  method GetRGBPixel(rows: array2<Byte>, width: nat, height: nat)
    returns (red: seq<int>, green: seq<int>, blue: seq<int>)
    requires height <= rows.Length0 && 4 * width <= rows.Length1
    ensures |red| == width * height && |green| == width * height && |blue| == width * height
    ensures forall x, y :: 0 <= x < width && 0 <= y < height ==>
      && At(red, width, height, x, y) == rows[y, ByteOffset(x, 0)] as int
      && At(green, width, height, x, y) == rows[y, ByteOffset(x, 1)] as int
      && At(blue, width, height, x, y) == rows[y, ByteOffset(x, 2)] as int
  {
    var r := new int[width * height];
    var g := new int[width * height];
    var b := new int[width * height];
    FlatBoundsAll(width, height);
    for y := 0 to height
      invariant forall x', y' :: 0 <= x' < width && 0 <= y' < y ==>
        && r[Flat(x', y', width)] == rows[y', ByteOffset(x', 0)] as int
        && g[Flat(x', y', width)] == rows[y', ByteOffset(x', 1)] as int
        && b[Flat(x', y', width)] == rows[y', ByteOffset(x', 2)] as int
    {
      for x := 0 to width
        invariant forall x', y' :: 0 <= x' < width && 0 <= y' <= y && (y' < y || x' < x) ==>
          && r[Flat(x', y', width)] == rows[y', ByteOffset(x', 0)] as int
          && g[Flat(x', y', width)] == rows[y', ByteOffset(x', 1)] as int
          && b[Flat(x', y', width)] == rows[y', ByteOffset(x', 2)] as int
      {
        forall x', y' | 0 <= x' < width && 0 <= y' <= y && (y' < y || x' < x)
          ensures Flat(x', y', width) < Flat(x, y, width)
        {
          FlatOrder(x', y', x, y, width);
        }
        var k := Flat(x, y, width);
        r[k] := rows[y, ByteOffset(x, 0)] as int;
        g[k] := rows[y, ByteOffset(x, 1)] as int;
        b[k] := rows[y, ByteOffset(x, 2)] as int;
      }
    }
    red, green, blue := r[..], g[..], b[..];
  }

  /**
   * process: write the grey value of every pixel, reduced to a byte, into its R,
   * G and B channels. Alpha bytes, and bytes outside the width x height image,
   * keep their values.
   */
  method Process(width: nat, height: nat, rows: array2<Byte>, grey: seq<int>)
    requires height <= rows.Length0 && 4 * width <= rows.Length1
    requires width * height <= |grey|
    modifies rows
    ensures forall x, y, c :: 0 <= x < width && 0 <= y < height && 0 <= c < 3 ==>
      rows[y, ByteOffset(x, c)] == ToByte(At(grey, width, height, x, y))
    ensures forall y, b ::
      (0 <= y < rows.Length0 && 0 <= b < rows.Length1 && !(y < height && PixelOf(b) < width && ChannelOf(b) < 3))
      ==> rows[y, b] == old(rows[y, b])
  {
    for y := 0 to height
      invariant forall x, y', c :: 0 <= x < width && 0 <= y' < y && 0 <= c < 3 ==>
        rows[y', ByteOffset(x, c)] == ToByte(At(grey, width, height, x, y'))
      invariant forall y', b ::
        (0 <= y' < rows.Length0 && 0 <= b < rows.Length1 && !(y' < y && PixelOf(b) < width && ChannelOf(b) < 3))
        ==> rows[y', b] == old(rows[y', b])
    {
      for x := 0 to width
        invariant forall x', y', c :: 0 <= x' < width && 0 <= y' <= y && (y' < y || x' < x) && 0 <= c < 3 ==>
          rows[y', ByteOffset(x', c)] == ToByte(At(grey, width, height, x', y'))
        invariant forall y', b ::
          (0 <= y' < rows.Length0 && 0 <= b < rows.Length1 &&
           !((y' < y || (y' == y && PixelOf(b) < x)) && PixelOf(b) < width && ChannelOf(b) < 3))
          ==> rows[y', b] == old(rows[y', b])
      {
        var v := ToByte(At(grey, width, height, x, y));
        rows[y, ByteOffset(x, 0)] := v;
        rows[y, ByteOffset(x, 1)] := v;
        rows[y, ByteOffset(x, 2)] := v;
      }
    }
  }
}
