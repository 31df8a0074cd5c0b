/** A bitmap scaled to a size, dithered and split into four bit planes: what every byte of the planes is. */
module PlaneImage {
  import opened Words
  import opened Arithmetic
  import opened RleStream
  import opened RowCursor

  // ---- Nearest neighbour ----

  /** The source coordinate that feeds an output coordinate. */
  function SourceCoord(out: nat, srcSize: nat, dstSize: nat): nat
    requires dstSize > 0
  {
    out * srcSize / dstSize
  }

  /** The output rows a source row feeds, from first to last; empty if the first is past the last. */
  function OutputRowRange(logicalRow: nat, srcHeight: nat, dstHeight: nat): (int, int)
    requires srcHeight > 0
  {
    var lo := (logicalRow * dstHeight + srcHeight - 1) / srcHeight;
    var hi := ((logicalRow + 1) * dstHeight + srcHeight - 1) / srcHeight - 1;
    (lo, if hi > dstHeight - 1 then dstHeight - 1 else hi)
  }

  lemma CeilingAtMost(a: nat, m: nat, x: nat)
    requires m > 0
    ensures (a + m - 1) / m <= x <==> a <= x * m
  {
    var q, r := (a + m - 1) / m, (a + m - 1) % m;
    assert a + m - 1 == q * m + r;
    if q <= x {
      Multiples(q, x, m);
    } else {
      Multiples(x + 1, q, m);
      assert (x + 1) * m == x * m + m;
    }
  }

  lemma QuotientIs(n: nat, m: nat, q: nat)
    requires m > 0
    ensures n / m == q <==> q * m <= n < (q + 1) * m
  {
    assert (q + 1) * m == q * m + m;
    if q * m <= n < (q + 1) * m {
      Quotient(q, n - q * m, m);
    } else {
      assert n == n / m * m + n % m;
    }
  }

  /** The range is the exact inverse of the mapping: every output row is fed by one source row, and is in that row's
      range only. */
  lemma OutputRowRangeExact(logicalRow: nat, out: nat, srcHeight: nat, dstHeight: nat)
    requires srcHeight > 0 && out < dstHeight
    ensures var range := OutputRowRange(logicalRow, srcHeight, dstHeight);
            range.0 <= out <= range.1 <==> SourceCoord(out, srcHeight, dstHeight) == logicalRow
  {
    CeilingAtMost(logicalRow * dstHeight, srcHeight, out);
    CeilingAtMost((logicalRow + 1) * dstHeight, srcHeight, out);
    QuotientIs(out * srcHeight, dstHeight, logicalRow);
  }

  lemma QuotientAtLeast(n: nat, m: nat, q: nat)
    requires m > 0
    ensures n / m >= q <==> n >= q * m
  {
    var p := n / m;
    assert n == p * m + n % m;
    if p >= q {
      Multiples(q, p, m);
    } else {
      Multiples(p + 1, q, m);
      assert (p + 1) * m == p * m + m;
    }
  }

  lemma SourceCoordInside(out: nat, srcSize: nat, dstSize: nat)
    requires out < dstSize && srcSize > 0
    ensures SourceCoord(out, srcSize, dstSize) < srcSize
  {
    assert out * srcSize < srcSize * dstSize by {
      assert (dstSize - out) * srcSize > 0;
    }
    QuotientAtLeast(out * srcSize, dstSize, srcSize);
  }

  lemma SourceCoordRises(a: nat, b: nat, srcSize: nat, dstSize: nat)
    requires a <= b && dstSize > 0
    ensures SourceCoord(a, srcSize, dstSize) <= SourceCoord(b, srcSize, dstSize)
  {
    Multiples(a, b, srcSize);
    var p := a * srcSize / dstSize;
    QuotientAtLeast(a * srcSize, dstSize, p);
    QuotientAtLeast(b * srcSize, dstSize, p);
  }

  // ---- One byte ----

  /** How pixels are decoded and colours dithered, whatever that is: a colour for a column of a row, and an 8 by 8
      tile of palette indices for a colour. */
  datatype Paint = Paint(decode: (seq<Byte>, nat) -> nat, dither: nat -> seq<Byte>)

  ghost predicate WholeTiles(paint: Paint) {
    forall colour: nat :: |paint.dither(colour)| == 64
  }

  /** The picture being made: the source, the paint, and the size to make it. */
  datatype Image = Image(src: Source, paint: Paint, width: nat, height: nat)

  ghost predicate Drawable(im: Image) {
    WholeSource(im.src) && im.width > 0 && im.height > 0 && WholeTiles(im.paint)
  }

  /** The palette index of an output pixel, given the source row that feeds it. */
  function IndexFor(im: Image, row: seq<Byte>, outRow: nat, col: nat): nat
    requires im.width > 0
  {
    var colour := im.paint.decode(row, SourceCoord(col, im.src.width, im.width));
    var tile := im.paint.dither(colour);
    var at := outRow % 8 * 8 + col % 8;
    if at < |tile| then tile[at] else 0
  }

  /** Whether a plane has the pixel's bit; past the right edge there are no pixels. */
  predicate PixelSet(im: Image, row: seq<Byte>, outRow: nat, plane: nat, col: nat)
    requires im.width > 0
  {
    col < im.width && IndexFor(im, row, outRow, col) / Pow2(plane) % 2 == 1
  }

  /** The first n of a byte's eight pixels, the leftmost in the highest bit. */
  function PackTo(im: Image, row: seq<Byte>, outRow: nat, plane: nat, byteOff: nat, n: nat): nat
    requires im.width > 0 && n <= 8
  {
    if n == 0 then 0
    else PackTo(im, row, outRow, plane, byteOff, n - 1)
         + if PixelSet(im, row, outRow, plane, byteOff * 8 + n - 1) then Pow2(8 - n) else 0
  }

  lemma {:induction false} PackBelow(im: Image, row: seq<Byte>, outRow: nat, plane: nat, byteOff: nat, n: nat)
    requires im.width > 0 && n <= 8
    ensures PackTo(im, row, outRow, plane, byteOff, n) + Pow2(8 - n) <= 256
  {
    if n == 0 {
      assert Pow2(8) == 256 by { Pow2Values(); }
    } else {
      PackBelow(im, row, outRow, plane, byteOff, n - 1);
      assert Pow2(8 - (n - 1)) == 2 * Pow2(8 - n);
    }
  }

  /** The first n pixels are a multiple of the weight of the last of them. */
  lemma {:induction false} PackMultiple(im: Image, row: seq<Byte>, outRow: nat, plane: nat, byteOff: nat, n: nat)
      returns (k: nat)
    requires im.width > 0 && n <= 8
    ensures PackTo(im, row, outRow, plane, byteOff, n) == k * Pow2(8 - n)
    ensures n > 0 ==> (k % 2 == 1 <==> PixelSet(im, row, outRow, plane, byteOff * 8 + n - 1))
  {
    if n == 0 {
      k := 0;
    } else {
      var j := PackMultiple(im, row, outRow, plane, byteOff, n - 1);
      PackNext(im, row, outRow, plane, byteOff, n);
      hide *;
      var bit := if PixelSet(im, row, outRow, plane, byteOff * 8 + n - 1) then 1 else 0;
      k := 2 * j + bit;
      Doubled(j, bit, Pow2(8 - n));
    }
  }

  lemma PackNext(im: Image, row: seq<Byte>, outRow: nat, plane: nat, byteOff: nat, n: nat)
    requires im.width > 0 && 0 < n <= 8
    ensures PackTo(im, row, outRow, plane, byteOff, n) ==
            PackTo(im, row, outRow, plane, byteOff, n - 1)
            + if PixelSet(im, row, outRow, plane, byteOff * 8 + n - 1) then Pow2(8 - n) else 0
    ensures Pow2(8 - (n - 1)) == 2 * Pow2(8 - n)
  {
  }

  lemma Doubled(j: nat, bit: nat, w: nat)
    requires bit <= 1
    ensures (2 * j + bit) * w == j * (2 * w) + if bit == 1 then w else 0
  {
  }

  /** ... and what comes after them is less than that weight. */
  lemma {:induction false} PackRest(im: Image, row: seq<Byte>, outRow: nat, plane: nat, byteOff: nat, n: nat, m: nat)
    requires im.width > 0 && n <= m <= 8
    ensures PackTo(im, row, outRow, plane, byteOff, m) >= PackTo(im, row, outRow, plane, byteOff, n)
    ensures PackTo(im, row, outRow, plane, byteOff, m) + Pow2(8 - m)
            <= PackTo(im, row, outRow, plane, byteOff, n) + Pow2(8 - n)
    decreases m
  {
    if n < m {
      PackRest(im, row, outRow, plane, byteOff, n, m - 1);
      assert Pow2(8 - (m - 1)) == 2 * Pow2(8 - m);
    }
  }

  function PlaneByte(im: Image, row: seq<Byte>, outRow: nat, plane: nat, byteOff: nat): Byte
    requires im.width > 0
  {
    PackBelow(im, row, outRow, plane, byteOff, 8);
    PackTo(im, row, outRow, plane, byteOff, 8)
  }

  /** Bit b of the byte, counted from the left, is the plane's bit of the pixel there. */
  lemma PlaneByteBit(im: Image, row: seq<Byte>, outRow: nat, plane: nat, byteOff: nat, b: nat)
    requires im.width > 0 && b < 8
    ensures PlaneByte(im, row, outRow, plane, byteOff) as int / Pow2(7 - b) % 2 == 1
            <==> PixelSet(im, row, outRow, plane, byteOff * 8 + b)
  {
    hide PixelSet;
    var k := PackMultiple(im, row, outRow, plane, byteOff, b + 1);
    PackRest(im, row, outRow, plane, byteOff, b + 1, 8);
    var whole := PackTo(im, row, outRow, plane, byteOff, 8);
    Quotient(k, whole - k * Pow2(7 - b), Pow2(7 - b));
  }

  // ---- The planes ----

  function Stride(im: Image): nat {
    (im.width + 7) / 8
  }

  function PlaneSize(im: Image): nat {
    Stride(im) * im.height
  }

  function TotalLength(im: Image): nat {
    PlaneSize(im) * 4
  }

  /** The row of the file that feeds an output row. */
  function NativeFor(im: Image, outRow: nat): (n: nat)
    requires WholeSource(im.src) && outRow < im.height
    ensures n < im.src.height
  {
    SourceCoordInside(outRow, im.src.height, im.height);
    var logicalRow := SourceCoord(outRow, im.src.height, im.height);
    if im.src.topDown then logicalRow else im.src.height - 1 - logicalRow
  }

  function ByteOfRow(im: Image, plane: nat, outRow: nat, byteOff: nat): Byte
    requires WholeSource(im.src) && im.width > 0 && outRow < im.height
  {
    PlaneByte(im, NativeRow(im.src, NativeFor(im, outRow)), outRow, plane, byteOff)
  }

  lemma RowInPlane(im: Image, k: nat)
    requires im.width > 0 && im.height > 0
    ensures Stride(im) > 0 && PlaneSize(im) > 0 && k % PlaneSize(im) / Stride(im) < im.height
  {
    var size, stride := PlaneSize(im), Stride(im);
    assert size >= stride by {
      Multiples(1, im.height, stride);
    }
    var off := k % size;
    var q := off / stride;
    assert off == q * stride + off % stride;
    if q >= im.height {
      Multiples(im.height, q, stride);
    }
  }

  /** Byte k of the four planes, one after another. */
  function ImageByte(im: Image, k: nat): Byte
    requires WholeSource(im.src) && im.width > 0 && im.height > 0
  {
    RowInPlane(im, k);
    var off := k % PlaneSize(im);
    ByteOfRow(im, k / PlaneSize(im), off / Stride(im), off % Stride(im))
  }

  /** Byte byteOff of row outRow of a plane is where the layout puts it. */
  lemma ImageAt(im: Image, plane: nat, outRow: nat, byteOff: nat)
    requires WholeSource(im.src) && im.width > 0 && outRow < im.height && byteOff < Stride(im)
    ensures outRow * Stride(im) + byteOff < PlaneSize(im)
    ensures ImageByte(im, plane * PlaneSize(im) + outRow * Stride(im) + byteOff) ==
        ByteOfRow(im, plane, outRow, byteOff)
  {
    hide ByteOfRow;
    RowInPlane(im, 0);
    var off := outRow * Stride(im) + byteOff;
    assert off < PlaneSize(im) by {
      Multiples(outRow + 1, im.height, Stride(im));
      assert (outRow + 1) * Stride(im) == outRow * Stride(im) + Stride(im);
    }
    Quotient(plane, off, PlaneSize(im));
    Quotient(outRow, byteOff, Stride(im));
  }

  /** The source coordinate is the one whose cell, scaled up, the output coordinate is in. */
  lemma NearestIs(out: nat, srcSize: nat, dstSize: nat, src: nat)
    requires srcSize > 0 && out < dstSize && src * dstSize <= out * srcSize < (src + 1) * dstSize
    ensures SourceCoord(out, srcSize, dstSize) == src && src < srcSize
  {
    QuotientIs(out * srcSize, dstSize, src);
    SourceCoordInside(out, srcSize, dstSize);
  }

  /** Where in the planes the byte of a pixel is: each plane is a row of bytes for every output row. */
  function PixelAt(im: Image, plane: nat, outRow: nat, col: nat): nat {
    var stride := (im.width + 7) / 8;
    plane * (stride * im.height) + outRow * stride + col / 8
  }

  lemma FourPlanes(im: Image, plane: nat, off: nat)
    requires off < PlaneSize(im)
    ensures plane < 4 <==> plane * PlaneSize(im) + off < TotalLength(im)
  {
    var size := PlaneSize(im);
    if plane < 4 {
      Multiples(plane + 1, 4, size);
      assert (plane + 1) * size == plane * size + size;
    } else {
      Multiples(4, plane, size);
    }
  }

  /** The planes, of which there are four, are the nearest-neighbour image: a pixel, the leftmost of its byte in the
      highest bit, has in each plane its bit of a palette index. That is the one in the cell of the dither tile that
      the pixel's place picks, the tile being that of the colour of the source pixel in whose cell, scaled up, the
      pixel is. Of a file stored bottom row first, rows are counted from the last. */
  lemma ImagePixel(im: Image, plane: nat, outRow: nat, col: nat, srcRow: nat, srcCol: nat)
    requires WholeSource(im.src) && WholeTiles(im.paint) && outRow < im.height && col < im.width
    requires srcRow * im.height <= outRow * im.src.height < (srcRow + 1) * im.height
    requires srcCol * im.width <= col * im.src.width < (srcCol + 1) * im.width
    ensures srcRow < im.src.height && srcCol < im.src.width
    ensures plane < 4 <==> PixelAt(im, plane, outRow, col) < TotalLength(im)
    ensures var row := NativeRow(im.src, if im.src.topDown then srcRow else im.src.height - 1 - srcRow);
            var tile := im.paint.dither(im.paint.decode(row, srcCol));
            var byte := ImageByte(im, PixelAt(im, plane, outRow, col));
            byte as int / Pow2(7 - col % 8) % 2 == 1 <==> tile[outRow % 8 * 8 + col % 8] as int / Pow2(plane) % 2 == 1
  {
    assert col == col / 8 * 8 + col % 8;
    ImageAt(im, plane, outRow, col / 8);
    FourPlanes(im, plane, outRow * Stride(im) + col / 8);
    NearestIs(outRow, im.src.height, im.height, srcRow);
    NearestIs(col, im.src.width, im.width, srcCol);
    hide NativeRow, SourceCoord, PackTo;
    PlaneByteBit(im, NativeRow(im.src, NativeFor(im, outRow)), outRow, plane, col / 8, col % 8);
  }
}
