/** Making any stretch of the planes again, whichever page is asked for and whatever has been saved of earlier
    decoding. */
module PlaneRegen {
  import opened Words
  import opened Arithmetic
  import opened RleStream
  import opened RowCursor
  import opened PlaneImage

  const PAGE_SIZE := 4096

  /** The colour dithered last, and its tile. */
  class DitherCache {
    const paint: Paint
    var filled: bool
    var colour: nat
    var tile: seq<Byte>

    constructor (paint: Paint)
      ensures Valid() && this.paint == paint
    {
      this.paint := paint;
      filled, colour, tile := false, 0, [];
    }

    ghost predicate Valid()
      reads this
    {
      filled ==> tile == paint.dither(colour)
    }

    /** DitherIndexFor. */
    method IndexOf(c: nat, outRow: nat, col: nat) returns (index: Byte)
      requires Valid() && WholeTiles(paint)
      modifies this
      ensures Valid() && index == paint.dither(c)[outRow % 8 * 8 + col % 8]
    {
      if !filled || c != colour {
        tile := paint.dither(c);
        colour := c;
        filled := true;
      }
      index := tile[outRow % 8 * 8 + col % 8];
    }

    /** BuildPlaneByte. */
    method BuildPlaneByte(im: Image, row: seq<Byte>, outRow: nat, byteOff: nat, plane: nat) returns (result: Byte)
      requires Valid() && Drawable(im) && paint == im.paint
      modifies this
      ensures Valid() && result == PlaneByte(im, row, outRow, plane, byteOff)
    {
      hide PixelSet, PackTo;
      var sum: nat, b := 0, 0;
      PackNone(im, row, outRow, plane, byteOff);
      while b < 8 && byteOff * 8 + b < im.width
        invariant Valid() && b <= 8 && sum == PackTo(im, row, outRow, plane, byteOff, b)
      {
        var col := byteOff * 8 + b;
        var c := im.paint.decode(row, SourceCoord(col, im.src.width, im.width));
        var index := IndexOf(c, outRow, col);
        PackOne(im, row, outRow, plane, byteOff, b);
        if index as int / Pow2(plane) % 2 == 1 {
          sum := sum + Pow2(7 - b);
        }
        b := b + 1;
      }
      PackPast(im, row, outRow, plane, byteOff, b, 8);
      PackBelow(im, row, outRow, plane, byteOff, 8);
      result := sum;
    }
  }

  lemma PackNone(im: Image, row: seq<Byte>, outRow: nat, plane: nat, byteOff: nat)
    requires im.width > 0
    ensures PackTo(im, row, outRow, plane, byteOff, 0) == 0
  {
  }

  lemma PackOne(im: Image, row: seq<Byte>, outRow: nat, plane: nat, byteOff: nat, b: nat)
    requires im.width > 0 && b < 8 && byteOff * 8 + b < im.width
    ensures PackTo(im, row, outRow, plane, byteOff, b + 1)
            == PackTo(im, row, outRow, plane, byteOff, b)
               + if IndexFor(im, row, outRow, byteOff * 8 + b) / Pow2(plane) % 2 == 1 then Pow2(7 - b) else 0
  {
  }

  lemma {:induction false} PackPast(im: Image, row: seq<Byte>, outRow: nat, plane: nat, byteOff: nat, n: nat, m: nat)
    requires im.width > 0 && n <= m <= 8 && (n < m ==> byteOff * 8 + n >= im.width)
    ensures PackTo(im, row, outRow, plane, byteOff, m) == PackTo(im, row, outRow, plane, byteOff, n)
    decreases m
  {
    if n < m {
      PackPast(im, row, outRow, plane, byteOff, n, m - 1);
    }
  }

  // ---- Which bytes of the output are done ----

  /** The output row a byte of the planes belongs to. */
  function RowOfByte(im: Image, k: nat): nat
    requires im.width > 0 && im.height > 0
  {
    RowInPlane(im, k);
    k % PlaneSize(im) / Stride(im)
  }

  /** The bytes from lo to hi of the planes lie in one plane, and the output has room for them. */
  predicate Fragment(im: Image, plane: nat, lo: nat, hi: nat, offset: nat, room: nat) {
    plane * PlaneSize(im) <= lo <= hi <= plane * PlaneSize(im) + PlaneSize(im) && offset <= lo && hi <= offset + room
  }

  /** Byte i of the output is made if it is of the fragment and of one of these rows, and else is as it was. */
  predicate RowAt(im: Image, was: seq<Byte>, now: seq<Byte>, offset: nat, lo: nat, hi: nat, row0: nat, row1: nat,
      i: nat)
    requires WholeSource(im.src) && im.width > 0 && im.height > 0 && i < |now| == |was|
  {
    now[i] == if lo <= offset + i < hi && row0 <= RowOfByte(im, offset + i) < row1 then ImageByte(im, offset + i)
        else was[i]
  }

  ghost predicate RowMade(im: Image, was: seq<Byte>, now: seq<Byte>, offset: nat, lo: nat, hi: nat, row0: nat,
      row1: nat)
    requires WholeSource(im.src) && im.width > 0 && im.height > 0
  {
    |now| == |was| && forall i: nat {:trigger RowAt(im, was, now, offset, lo, hi, row0, row1, i)} ::
      i < |now| ==> RowAt(im, was, now, offset, lo, hi, row0, row1, i)
  }

  /** The bytes of a row of a plane are next to each other. */
  lemma RowSpan(im: Image, plane: nat, k: nat, r: nat)
    requires im.width > 0 && im.height > 0 && plane * PlaneSize(im) <= k < plane * PlaneSize(im) + PlaneSize(im)
    ensures var start := plane * PlaneSize(im) + r * Stride(im);
            RowOfByte(im, k) == r <==> start <= k < start + Stride(im)
  {
    RowInPlane(im, k);
    var off := k - plane * PlaneSize(im);
    Quotient(plane, off, PlaneSize(im));
    QuotientIs(off, Stride(im), r);
    assert (r + 1) * Stride(im) == r * Stride(im) + Stride(im);
  }

  // ---- One row of the output ----

  /** Writes the bytes of the fragment that belong to one output row. */
  method WriteRow(im: Image, row: seq<Byte>, plane: nat, outRow: nat, fragStart: nat, fragEnd: nat, regenOffset: nat,
                  output: array<Byte>, cache: DitherCache)
    requires Drawable(im) && cache.Valid() && cache.paint == im.paint && outRow < im.height
    requires row == NativeRow(im.src, NativeFor(im, outRow))
    requires Fragment(im, plane, fragStart, fragEnd, regenOffset, output.Length)
    modifies output, cache
    ensures cache.Valid()
    ensures RowMade(im, old(output[..]), output[..], regenOffset, fragStart, fragEnd, outRow, outRow + 1)
  {
    ghost var was := output[..];
    var rowStart := plane * PlaneSize(im) + outRow * Stride(im);
    var rowEnd := rowStart + Stride(im);
    var lo := if fragStart > rowStart then fragStart else rowStart;
    var hi := if fragEnd < rowEnd then fragEnd else rowEnd;
    var abs := lo;
    SpanNone(im, was, regenOffset, lo);
    hide SpanMade, ImageByte, PlaneByte, NativeRow, Drawable, RowMade;
    while abs < hi
      invariant lo <= abs && (abs <= hi || abs == lo) && cache.Valid()
      invariant |output[..]| == |was| && SpanMade(im, was, output[..], regenOffset, lo, abs)
    {
      var byte := cache.BuildPlaneByte(im, row, outRow, abs - rowStart, plane);
      ByteThere(im, plane, outRow, abs);
      ghost var before := output[..];
      output[abs - regenOffset] := byte;
      SpanMore(im, was, before, output[..], regenOffset, lo, abs);
      abs := abs + 1;
    }
    SpanRow(im, was, output[..], plane, outRow, fragStart, fragEnd, regenOffset, lo, abs);
  }

  predicate SpanAt(im: Image, was: seq<Byte>, now: seq<Byte>, offset: nat, lo: nat, hi: nat, i: nat)
    requires WholeSource(im.src) && im.width > 0 && im.height > 0 && i < |now| == |was|
  {
    now[i] == if lo <= offset + i < hi then ImageByte(im, offset + i) else was[i]
  }

  ghost predicate SpanMade(im: Image, was: seq<Byte>, now: seq<Byte>, offset: nat, lo: nat, hi: nat)
    requires WholeSource(im.src) && im.width > 0 && im.height > 0
  {
    |now| == |was| && forall i: nat {:trigger SpanAt(im, was, now, offset, lo, hi, i)} ::
      i < |now| ==> SpanAt(im, was, now, offset, lo, hi, i)
  }

  lemma SpanNone(im: Image, was: seq<Byte>, offset: nat, lo: nat)
    requires WholeSource(im.src) && im.width > 0 && im.height > 0
    ensures SpanMade(im, was, was, offset, lo, lo)
  {
    hide ImageByte;
    forall i: nat {:trigger SpanAt(im, was, was, offset, lo, lo, i)} | i < |was|
      ensures SpanAt(im, was, was, offset, lo, lo, i)
    {
    }
  }

  lemma SpanMore(im: Image, was: seq<Byte>, before: seq<Byte>, now: seq<Byte>, offset: nat, lo: nat, abs: nat)
    requires WholeSource(im.src) && im.width > 0 && im.height > 0
    requires SpanMade(im, was, before, offset, lo, abs) && offset <= abs < offset + |before| && lo <= abs
    requires now == before[abs - offset := ImageByte(im, abs)]
    ensures SpanMade(im, was, now, offset, lo, abs + 1)
  {
    hide ImageByte;
    forall i: nat {:trigger SpanAt(im, was, now, offset, lo, abs + 1, i)} | i < |now|
      ensures SpanAt(im, was, now, offset, lo, abs + 1, i)
    {
      assert SpanAt(im, was, before, offset, lo, abs, i);
    }
  }

  /** The part of a row that lies in the fragment is what of the fragment lies in the row. */
  lemma SpanRow(im: Image, was: seq<Byte>, now: seq<Byte>, plane: nat, outRow: nat, fragStart: nat, fragEnd: nat,
                offset: nat, lo: nat, hi: nat)
    requires WholeSource(im.src) && im.width > 0 && im.height > 0
    requires Fragment(im, plane, fragStart, fragEnd, offset, |was|) && SpanMade(im, was, now, offset, lo, hi)
    requires var start := plane * PlaneSize(im) + outRow * Stride(im);
             && lo == (if fragStart > start then fragStart else start)
             && hi >= lo && (hi == lo ==> fragEnd <= lo || start + Stride(im) <= lo)
             && (hi > lo ==> hi == if fragEnd < start + Stride(im) then fragEnd else start + Stride(im))
    ensures RowMade(im, was, now, offset, fragStart, fragEnd, outRow, outRow + 1)
  {
    hide ImageByte, RowOfByte;
    forall i: nat {:trigger RowAt(im, was, now, offset, fragStart, fragEnd, outRow, outRow + 1, i)} | i < |now|
      ensures RowAt(im, was, now, offset, fragStart, fragEnd, outRow, outRow + 1, i)
    {
      assert SpanAt(im, was, now, offset, lo, hi, i);
      if fragStart <= offset + i < fragEnd {
        RowSpan(im, plane, offset + i, outRow);
      }
    }
  }

  lemma ByteThere(im: Image, plane: nat, outRow: nat, abs: nat)
    requires WholeSource(im.src) && im.width > 0 && outRow < im.height
    requires var start := plane * PlaneSize(im) + outRow * Stride(im); start <= abs < start + Stride(im)
    ensures ImageByte(im, abs)
            == PlaneByte(im, NativeRow(im.src, NativeFor(im, outRow)), outRow, plane,
                         abs - (plane * PlaneSize(im) + outRow * Stride(im)))
  {
    ImageAt(im, plane, outRow, abs - (plane * PlaneSize(im) + outRow * Stride(im)));
  }

  // ---- One row of the source ----

  /** The row of the file a byte of the planes is made from. */
  function NativeOfByte(im: Image, k: nat): (n: nat)
    requires WholeSource(im.src) && im.width > 0 && im.height > 0
    ensures n < im.src.height
  {
    RowInPlane(im, k);
    NativeFor(im, RowOfByte(im, k))
  }

  predicate NativeAt(im: Image, was: seq<Byte>, now: seq<Byte>, offset: nat, lo: nat, hi: nat, n0: nat, n1: nat, i: nat)
    requires WholeSource(im.src) && im.width > 0 && im.height > 0 && i < |now| == |was|
  {
    now[i] == if lo <= offset + i < hi && n0 <= NativeOfByte(im, offset + i) < n1 then ImageByte(im, offset + i)
        else was[i]
  }

  /** The bytes of the fragment that are made from these rows of the file are made, and nothing else has changed. */
  ghost predicate NativeMade(im: Image, was: seq<Byte>, now: seq<Byte>, offset: nat, lo: nat, hi: nat, n0: nat, n1: nat)
    requires WholeSource(im.src) && im.width > 0 && im.height > 0
  {
    |now| == |was| && forall i: nat {:trigger NativeAt(im, was, now, offset, lo, hi, n0, n1, i)} ::
      i < |now| ==> NativeAt(im, was, now, offset, lo, hi, n0, n1, i)
  }

  lemma RowNone(im: Image, was: seq<Byte>, offset: nat, lo: nat, hi: nat, row: nat)
    requires WholeSource(im.src) && im.width > 0 && im.height > 0
    ensures RowMade(im, was, was, offset, lo, hi, row, row)
  {
    hide ImageByte, RowOfByte;
    forall i: nat {:trigger RowAt(im, was, was, offset, lo, hi, row, row, i)} | i < |was|
      ensures RowAt(im, was, was, offset, lo, hi, row, row, i)
    {
    }
  }

  lemma RowsJoin(im: Image, was: seq<Byte>, mid: seq<Byte>, now: seq<Byte>, offset: nat, lo: nat, hi: nat, row0: nat,
      row1: nat)
    requires WholeSource(im.src) && im.width > 0 && im.height > 0 && row0 <= row1
    requires RowMade(im, was, mid, offset, lo, hi, row0, row1) && RowMade(im, mid, now, offset, lo, hi, row1, row1 + 1)
    ensures RowMade(im, was, now, offset, lo, hi, row0, row1 + 1)
  {
    hide ImageByte, RowOfByte;
    forall i: nat {:trigger RowAt(im, was, now, offset, lo, hi, row0, row1 + 1, i)} | i < |now|
      ensures RowAt(im, was, now, offset, lo, hi, row0, row1 + 1, i)
    {
      assert RowAt(im, was, mid, offset, lo, hi, row0, row1, i)
          && RowAt(im, mid, now, offset, lo, hi, row1, row1 + 1, i);
    }
  }

  /** The output rows that a fragment touches, from first to last. */
  predicate Touches(im: Image, plane: nat, fragStart: nat, fragEnd: nat, rowLo: nat, rowHi: nat) {
    Stride(im) > 0 && fragStart >= plane * PlaneSize(im) && fragEnd > fragStart
    && rowLo == (fragStart - plane * PlaneSize(im)) / Stride(im)
    && rowHi == (fragEnd - 1 - plane * PlaneSize(im)) / Stride(im)
  }

  lemma TouchedRow(im: Image, plane: nat, fragStart: nat, fragEnd: nat, rowLo: nat, rowHi: nat, k: nat)
    requires im.width > 0 && im.height > 0 && Touches(im, plane, fragStart, fragEnd, rowLo, rowHi)
    requires fragEnd <= plane * PlaneSize(im) + PlaneSize(im) && fragStart <= k < fragEnd
    ensures rowLo <= RowOfByte(im, k) <= rowHi < im.height
    ensures RowOfByte(im, fragStart) == rowLo && RowOfByte(im, fragEnd - 1) == rowHi
  {
    RowOf(im, plane, k);
    RowOf(im, plane, fragStart);
    RowOf(im, plane, fragEnd - 1);
    RowInPlane(im, fragEnd - 1);
    var start := plane * PlaneSize(im);
    QuotientRises(fragStart - start, k - start, Stride(im));
    QuotientRises(k - start, fragEnd - 1 - start, Stride(im));
  }

  lemma RowOf(im: Image, plane: nat, k: nat)
    requires im.width > 0 && im.height > 0 && plane * PlaneSize(im) <= k < plane * PlaneSize(im) + PlaneSize(im)
    ensures Stride(im) > 0 && RowOfByte(im, k) == (k - plane * PlaneSize(im)) / Stride(im)
  {
    RowInPlane(im, k);
    Quotient(plane, k - plane * PlaneSize(im), PlaneSize(im));
  }

  lemma QuotientRises(a: nat, b: nat, m: nat)
    requires a <= b && m > 0
    ensures a / m <= b / m
  {
    var q := a / m;
    assert a == q * m + a % m;
    QuotientAtLeast(b, m, q);
  }

  /** Writes every byte of the fragment that is made from one row of the file. */
  method WriteNativeRow(im: Image, row: seq<Byte>, nativeRow: nat, plane: nat, fragStart: nat, fragEnd: nat,
      outRowLo: nat,
                        outRowHi: nat, regenOffset: nat, output: array<Byte>, cache: DitherCache)
    requires Drawable(im) && !im.src.topDown && cache.Valid() && cache.paint == im.paint
    requires nativeRow < im.src.height && row == NativeRow(im.src, nativeRow)
    requires Fragment(im, plane, fragStart, fragEnd, regenOffset, output.Length)
    requires Touches(im, plane, fragStart, fragEnd, outRowLo, outRowHi)
    modifies output, cache
    ensures cache.Valid()
    ensures NativeMade(im, old(output[..]), output[..], regenOffset, fragStart, fragEnd, nativeRow, nativeRow + 1)
  {
    hide ImageByte, NativeRow, RowMade, NativeMade, OutputRowRange, SourceCoord;
    ghost var was := output[..];
    var logicalRow := im.src.height - 1 - nativeRow;
    var (first, last) := OutputRowRange(logicalRow, im.src.height, im.height);
    RangeInside(logicalRow, im.src.height, im.height);
    TouchedRow(im, plane, fragStart, fragEnd, outRowLo, outRowHi, fragStart);
    var rowMin: nat := if first < outRowLo then outRowLo else first;
    var rowMax := if last > outRowHi then outRowHi else last;
    RowNone(im, was, regenOffset, fragStart, fragEnd, rowMin);
    var outRow := rowMin;
    while outRow <= rowMax
      invariant rowMin <= outRow && (outRow <= rowMax + 1 || outRow == rowMin) && cache.Valid()
      invariant RowMade(im, was, output[..], regenOffset, fragStart, fragEnd, rowMin, outRow)
    {
      FedBy(im, nativeRow, outRow);
      ghost var mid := output[..];
      WriteRow(im, row, plane, outRow, fragStart, fragEnd, regenOffset, output, cache);
      RowsJoin(im, was, mid, output[..], regenOffset, fragStart, fragEnd, rowMin, outRow);
      outRow := outRow + 1;
    }
    RowsNative(im, was, output[..], nativeRow, plane, fragStart, fragEnd, outRowLo, outRowHi, regenOffset, rowMin,
        outRow);
  }

  lemma RangeInside(logicalRow: nat, srcHeight: nat, dstHeight: nat)
    requires srcHeight > 0
    ensures var (first, last) := OutputRowRange(logicalRow, srcHeight, dstHeight); first >= 0 && last < dstHeight
  {
  }

  /** An output row is fed by a native row exactly if it is in that row's range. */
  lemma FedBy(im: Image, nativeRow: nat, outRow: nat)
    requires WholeSource(im.src) && !im.src.topDown && nativeRow < im.src.height && outRow < im.height
    ensures var (first, last) := OutputRowRange(im.src.height - 1 - nativeRow, im.src.height, im.height);
            first <= outRow <= last <==> NativeFor(im, outRow) == nativeRow
  {
    hide OutputRowRange, SourceCoord;
    OutputRowRangeExact(im.src.height - 1 - nativeRow, outRow, im.src.height, im.height);
    SourceCoordInside(outRow, im.src.height, im.height);
  }

  lemma RowsNative(im: Image, was: seq<Byte>, now: seq<Byte>, nativeRow: nat, plane: nat, fragStart: nat, fragEnd: nat,
                   outRowLo: nat, outRowHi: nat, offset: nat, rowMin: nat, rowEnd: nat)
    requires WholeSource(im.src) && !im.src.topDown && im.width > 0 && im.height > 0 && nativeRow < im.src.height
    requires Fragment(im, plane, fragStart, fragEnd, offset, |was|)
        && Touches(im, plane, fragStart, fragEnd, outRowLo, outRowHi)
    requires RowMade(im, was, now, offset, fragStart, fragEnd, rowMin, rowEnd)
    requires var (first, last) := OutputRowRange(im.src.height - 1 - nativeRow, im.src.height, im.height);
             && rowMin == (if first < outRowLo then outRowLo else first)
             && rowEnd >= rowMin && (rowEnd == rowMin ==> outRowHi < rowMin || last < rowMin)
             && (rowEnd > rowMin ==> rowEnd == 1 + if last > outRowHi then outRowHi else last)
    ensures NativeMade(im, was, now, offset, fragStart, fragEnd, nativeRow, nativeRow + 1)
  {
    hide ImageByte, RowOfByte, OutputRowRange, NativeFor, Touches;
    forall i: nat {:trigger NativeAt(im, was, now, offset, fragStart, fragEnd, nativeRow, nativeRow + 1, i)} | i < |now|
      ensures NativeAt(im, was, now, offset, fragStart, fragEnd, nativeRow, nativeRow + 1, i)
    {
      assert RowAt(im, was, now, offset, fragStart, fragEnd, rowMin, rowEnd, i);
      if fragStart <= offset + i < fragEnd {
        TouchedRow(im, plane, fragStart, fragEnd, outRowLo, outRowHi, offset + i);
        FedBy(im, nativeRow, RowOfByte(im, offset + i));
      }
    }
  }

  lemma NativeNone(im: Image, was: seq<Byte>, offset: nat, lo: nat, hi: nat, n: nat)
    requires WholeSource(im.src) && im.width > 0 && im.height > 0
    requires forall k: nat {:trigger NativeOfByte(im, k)} :: lo <= k < hi ==> NativeOfByte(im, k) >= n
    ensures NativeMade(im, was, was, offset, lo, hi, 0, n)
  {
    hide ImageByte, NativeOfByte;
    forall i: nat {:trigger NativeAt(im, was, was, offset, lo, hi, 0, n, i)} | i < |was|
      ensures NativeAt(im, was, was, offset, lo, hi, 0, n, i)
    {
    }
  }

  lemma NativesJoin(im: Image, was: seq<Byte>, mid: seq<Byte>, now: seq<Byte>, offset: nat, lo: nat, hi: nat, n: nat)
    requires WholeSource(im.src) && im.width > 0 && im.height > 0
    requires NativeMade(im, was, mid, offset, lo, hi, 0, n) && NativeMade(im, mid, now, offset, lo, hi, n, n + 1)
    ensures NativeMade(im, was, now, offset, lo, hi, 0, n + 1)
  {
    hide ImageByte, NativeOfByte;
    forall i: nat {:trigger NativeAt(im, was, now, offset, lo, hi, 0, n + 1, i)} | i < |now|
      ensures NativeAt(im, was, now, offset, lo, hi, 0, n + 1, i)
    {
      assert NativeAt(im, was, mid, offset, lo, hi, 0, n, i) && NativeAt(im, mid, now, offset, lo, hi, n, n + 1, i);
    }
  }

  lemma NativeAll(im: Image, was: seq<Byte>, now: seq<Byte>, offset: nat, lo: nat, hi: nat, n: nat)
    requires WholeSource(im.src) && im.width > 0 && im.height > 0
    requires NativeMade(im, was, now, offset, lo, hi, 0, n)
    requires forall k: nat {:trigger NativeOfByte(im, k)} :: lo <= k < hi ==> NativeOfByte(im, k) < n
    ensures SpanMade(im, was, now, offset, lo, hi)
  {
    hide ImageByte, NativeOfByte;
    forall i: nat {:trigger SpanAt(im, was, now, offset, lo, hi, i)} | i < |now|
      ensures SpanAt(im, was, now, offset, lo, hi, i)
    {
      assert NativeAt(im, was, now, offset, lo, hi, 0, n, i);
    }
  }

  /** RleNativeRowRange: the rows of the file that feed a range of output rows, the lowest output row the highest of
      them. */
  function RleNativeRowRange(im: Image, outRowLo: nat, outRowHi: nat): (int, int)
    requires im.height > 0
  {
    var logicalLo := SourceCoord(outRowLo, im.src.height, im.height);
    var logicalHi := SourceCoord(outRowHi, im.src.height, im.height);
    (im.src.height - 1 - logicalHi, im.src.height - 1 - logicalLo)
  }

  lemma NativeRange(im: Image, rowLo: nat, rowHi: nat, row: nat)
    requires WholeSource(im.src) && !im.src.topDown && rowLo <= row <= rowHi < im.height
    ensures var (lo, hi) := RleNativeRowRange(im, rowLo, rowHi);
            0 <= lo <= NativeFor(im, row) <= hi < im.src.height && NativeFor(im, rowHi) == lo
                && NativeFor(im, rowLo) == hi
  {
    hide SourceCoord;
    SourceCoordRises(rowLo, row, im.src.height, im.height);
    SourceCoordRises(row, rowHi, im.src.height, im.height);
    SourceCoordInside(rowHi, im.src.height, im.height);
  }

  lemma FragmentNatives(im: Image, plane: nat, fragStart: nat, fragEnd: nat, rowLo: nat, rowHi: nat)
    requires WholeSource(im.src) && !im.src.topDown && im.width > 0 && im.height > 0
    requires Touches(im, plane, fragStart, fragEnd, rowLo, rowHi)
    requires fragEnd <= plane * PlaneSize(im) + PlaneSize(im)
    ensures var (lo, hi) := RleNativeRowRange(im, rowLo, rowHi); 0 <= lo <= hi < im.src.height
    ensures var (lo, hi) := RleNativeRowRange(im, rowLo, rowHi);
            forall k: nat {:trigger NativeOfByte(im, k)} :: fragStart <= k < fragEnd ==> lo <= NativeOfByte(im, k) <= hi
  {
    hide RleNativeRowRange, NativeFor, RowOfByte;
    TouchedRow(im, plane, fragStart, fragEnd, rowLo, rowHi, fragStart);
    NativeRange(im, rowLo, rowHi, rowLo);
    forall k: nat {:trigger NativeOfByte(im, k)} | fragStart <= k < fragEnd
      ensures var (lo, hi) := RleNativeRowRange(im, rowLo, rowHi); lo <= NativeOfByte(im, k) <= hi
    {
      TouchedRow(im, plane, fragStart, fragEnd, rowLo, rowHi, k);
      NativeRange(im, rowLo, rowHi, RowOfByte(im, k));
    }
  }

  ghost predicate AllReady(src: Source, reload: seq<Checkpoint>) {
    forall i :: 0 <= i < |reload| ==> Ready(src, reload[i])
  }

  /** The saved state that is furthest on without being past the row. */
  method BestCheckpoint(src: Source, reload: seq<Checkpoint>, nativeLo: nat) returns (found: bool, best: Checkpoint)
    requires AllReady(src, reload)
    ensures found ==> best in reload && best.nextRow <= nativeLo && Ready(src, best)
    ensures forall i :: 0 <= i < |reload| && reload[i].nextRow <= nativeLo ==>
        found && reload[i].nextRow <= best.nextRow
  {
    hide Ready;
    found, best := false, START;
    for i := 0 to |reload|
      invariant found ==> best in reload && best.nextRow <= nativeLo && Ready(src, best)
      invariant forall j :: 0 <= j < i && reload[j].nextRow <= nativeLo ==> found && reload[j].nextRow <= best.nextRow
    {
      if reload[i].nextRow <= nativeLo && (!found || reload[i].nextRow > best.nextRow) {
        found, best := true, reload[i];
      }
    }
  }

  /** Makes a fragment from a compressed source, decoding on from the best of the saved states; any will do, or none. */
  method RegenRleFragment(im: Image, reload: seq<Checkpoint>, plane: nat, fragStart: nat, fragEnd: nat,
      regenOffset: nat,
                          output: array<Byte>)
    requires Drawable(im) && im.src.rle && AllReady(im.src, reload)
    requires Fragment(im, plane, fragStart, fragEnd, regenOffset, output.Length) && fragStart < fragEnd
    modifies output
    ensures SpanMade(im, old(output[..]), output[..], regenOffset, fragStart, fragEnd)
  {
    hide Ready, NativeMade, SpanMade, RleNativeRowRange, NativeRow, AllReady, Touches, RowIndex;
    ghost var was := output[..];
    RowInPlane(im, 0);
    var outRowLo := RowIndex(im, fragStart - plane * PlaneSize(im));
    var outRowHi := RowIndex(im, fragEnd - 1 - plane * PlaneSize(im));
    TouchesIs(im, plane, fragStart, fragEnd);
    FragmentNatives(im, plane, fragStart, fragEnd, outRowLo, outRowHi);
    var (nativeLo, nativeHi) := RleNativeRowRange(im, outRowLo, outRowHi);
    var found, best := BestCheckpoint(im.src, reload, nativeLo);
    var cursor := new Cursor(im.src);
    if found {
      cursor.Resume(best);
    }
    var cache := new DitherCache(im.paint);
    var native := if found then best.nextRow else 0;
    NativeNone(im, was, regenOffset, fragStart, fragEnd, native);
    while native <= nativeHi
      invariant native <= nativeHi + 1 && fresh(cursor) && fresh(cursor.rowBuffer) && fresh(cache)
      invariant cursor.Valid() && cursor.src == im.src && cursor.nextRow == native
      invariant cache.Valid() && cache.paint == im.paint
      invariant NativeMade(im, was, output[..], regenOffset, fragStart, fragEnd, 0, native)
      invariant native <= nativeLo ==> output[..] == was
    {
      var more, row := cursor.Next();
      if native >= nativeLo {
        ghost var mid := output[..];
        WriteNativeRow(im, row, native, plane, fragStart, fragEnd, outRowLo, outRowHi, regenOffset, output, cache);
        NativesJoin(im, was, mid, output[..], regenOffset, fragStart, fragEnd, native);
      } else {
        NativeNone(im, was, regenOffset, fragStart, fragEnd, native + 1);
      }
      native := native + 1;
    }
    NativeAll(im, was, output[..], regenOffset, fragStart, fragEnd, native);
  }

  /** The row that a byte of a plane is in. */
  function RowIndex(im: Image, off: nat): nat
    requires Stride(im) > 0
  {
    off / Stride(im)
  }

  lemma TouchesIs(im: Image, plane: nat, fragStart: nat, fragEnd: nat)
    requires Stride(im) > 0 && plane * PlaneSize(im) <= fragStart < fragEnd
    ensures Touches(im, plane, fragStart, fragEnd, RowIndex(im, fragStart - plane * PlaneSize(im)),
                    RowIndex(im, fragEnd - 1 - plane * PlaneSize(im)))
  {
  }

  /** One byte of a plane, from the row of a plain source that feeds it. */
  method RandomAccessByte(im: Image, plane: nat, abs: nat, cache: DitherCache) returns (byte: Byte)
    requires Drawable(im) && !im.src.rle && cache.Valid() && cache.paint == im.paint
    requires plane * PlaneSize(im) <= abs < plane * PlaneSize(im) + PlaneSize(im)
    modifies cache
    ensures cache.Valid() && byte == ImageByte(im, abs)
  {
    var outRow, byteOff := Locate(im, plane, abs);
    hide *;
    var row := PlainRow(im.src, NativeFor(im, outRow));
    byte := cache.BuildPlaneByte(im, row, outRow, byteOff, plane);
  }

  /** The row of the output, and the byte of that row, that a byte of a plane is. */
  method Locate(im: Image, plane: nat, abs: nat) returns (outRow: nat, byteOff: nat)
    requires WholeSource(im.src) && im.width > 0 && im.height > 0
    requires plane * PlaneSize(im) <= abs < plane * PlaneSize(im) + PlaneSize(im)
    ensures outRow < im.height
    ensures ImageByte(im, abs) == PlaneByte(im, NativeRow(im.src, NativeFor(im, outRow)), outRow, plane, byteOff)
  {
    hide *;
    ByteSplit(im, plane, abs);
    var off := abs - plane * PlaneSize(im);
    outRow, byteOff := off / Stride(im), off % Stride(im);
  }

  method PlainRow(src: Source, n: nat) returns (row: seq<Byte>)
    requires WholeSource(src) && !src.rle && n < src.height
    ensures row == NativeRow(src, n)
  {
    RowInside(src, n);
    row := src.pixels[n * src.rowStride..n * src.rowStride + src.rowStride];
  }

  lemma ByteSplit(im: Image, plane: nat, abs: nat)
    requires WholeSource(im.src) && im.width > 0 && im.height > 0
    requires plane * PlaneSize(im) <= abs < plane * PlaneSize(im) + PlaneSize(im)
    ensures Stride(im) > 0 && (abs - plane * PlaneSize(im)) / Stride(im) < im.height
    ensures var outRow := (abs - plane * PlaneSize(im)) / Stride(im);
            var byteOff := (abs - plane * PlaneSize(im)) % Stride(im);
            ImageByte(im, abs) == PlaneByte(im, NativeRow(im.src, NativeFor(im, outRow)), outRow, plane, byteOff)
  {
    RowInPlane(im, abs);
    RowOf(im, plane, abs);
    var off, stride := abs - plane * PlaneSize(im), Stride(im);
    assert off == off / stride * stride + off % stride;
    hide ImageByte, PlaneByte, RowOfByte;
    ByteThere(im, plane, off / stride, abs);
  }

  /** Makes a fragment from a plain source, whose rows can be read in any order. */
  method RegenRandomAccessFragment(im: Image, plane: nat, fragStart: nat, fragEnd: nat, regenOffset: nat,
      output: array<Byte>)
    requires Drawable(im) && !im.src.rle
    requires Fragment(im, plane, fragStart, fragEnd, regenOffset, output.Length)
    modifies output
    ensures SpanMade(im, old(output[..]), output[..], regenOffset, fragStart, fragEnd)
  {
    hide SpanMade, ImageByte, PlaneByte, NativeFor, WholeTiles;
    ghost var was := output[..];
    var cache := new DitherCache(im.paint);
    SpanNone(im, was, regenOffset, fragStart);
    var abs := fragStart;
    while abs < fragEnd
      invariant fragStart <= abs <= fragEnd && fresh(cache) && cache.Valid() && cache.paint == im.paint
      invariant |output[..]| == |was| && SpanMade(im, was, output[..], regenOffset, fragStart, abs)
    {
      var byte := RandomAccessByte(im, plane, abs, cache);
      ghost var before := output[..];
      output[abs - regenOffset] := byte;
      SpanMore(im, was, before, output[..], regenOffset, fragStart, abs);
      abs := abs + 1;
    }
  }

  lemma SpansJoin(im: Image, was: seq<Byte>, mid: seq<Byte>, now: seq<Byte>, offset: nat, edge: nat, lo: nat, hi: nat,
      edge': nat)
    requires WholeSource(im.src) && im.width > 0 && im.height > 0 && edge <= lo <= hi <= edge'
    requires lo == edge || lo <= offset
    requires hi == edge' || hi >= offset + |was|
    requires SpanMade(im, was, mid, offset, 0, edge) && SpanMade(im, mid, now, offset, lo, hi)
    ensures SpanMade(im, was, now, offset, 0, edge')
  {
    hide ImageByte;
    forall i: nat {:trigger SpanAt(im, was, now, offset, 0, edge', i)} | i < |now|
      ensures SpanAt(im, was, now, offset, 0, edge', i)
    {
      assert SpanAt(im, was, mid, offset, 0, edge, i) && SpanAt(im, mid, now, offset, lo, hi, i);
    }
  }

  /** RegenerateCore, for a source that parses: whatever stretch of the planes is asked for, and whatever states were
      saved, the output is that stretch of the image, and zero past its end. */
  method RegenerateCore(im: Image, reload: seq<Checkpoint>, regenOffset: nat, output: array<Byte>)
    requires Drawable(im) && AllReady(im.src, reload)
    modifies output
    ensures forall i :: 0 <= i < output.Length ==>
              output[i] == if regenOffset + i < TotalLength(im) then ImageByte(im, regenOffset + i) else 0
  {
    hide ImageByte, WholeTiles, AllReady, SpanMade, PlaneSize;
    for i := 0 to output.Length
      invariant forall j :: 0 <= j < i ==> output[j] == 0
    {
      output[i] := 0;
    }
    ghost var was := output[..];
    var requestEnd := regenOffset + output.Length;
    SpanNone(im, was, regenOffset, 0);
    for plane := 0 to 4
      invariant |output[..]| == |was| && SpanMade(im, was, output[..], regenOffset, 0, plane * PlaneSize(im))
    {
      ghost var mid := output[..];
      var planeStart := plane * PlaneSize(im);
      var planeEnd := planeStart + PlaneSize(im);
      assert planeEnd == (plane + 1) * PlaneSize(im);
      var fragStart := if regenOffset > planeStart then regenOffset else planeStart;
      var fragEnd := if requestEnd < planeEnd then requestEnd else planeEnd;
      if fragStart < fragEnd {
        if im.src.rle {
          RegenRleFragment(im, reload, plane, fragStart, fragEnd, regenOffset, output);
        } else {
          RegenRandomAccessFragment(im, plane, fragStart, fragEnd, regenOffset, output);
        }
        SpanLength(im, mid, output[..], regenOffset, fragStart, fragEnd);
        SpansJoin(im, was, mid, output[..], regenOffset, planeStart, fragStart, fragEnd, planeEnd);
      } else {
        NothingAsked(im, was, mid, regenOffset, planeStart, planeEnd);
      }
    }
    SpansDone(im, was, output[..], regenOffset);
  }

  lemma SpanLength(im: Image, was: seq<Byte>, now: seq<Byte>, offset: nat, lo: nat, hi: nat)
    requires WholeSource(im.src) && im.width > 0 && im.height > 0 && SpanMade(im, was, now, offset, lo, hi)
    ensures |now| == |was|
  {
  }

  lemma NothingAsked(im: Image, was: seq<Byte>, mid: seq<Byte>, offset: nat, edge: nat, edge': nat)
    requires WholeSource(im.src) && im.width > 0 && im.height > 0 && edge <= edge'
    requires edge == edge' || offset >= edge' || edge >= offset + |was| || |was| == 0
    requires SpanMade(im, was, mid, offset, 0, edge)
    ensures SpanMade(im, was, mid, offset, 0, edge')
  {
    hide ImageByte;
    forall i: nat {:trigger SpanAt(im, was, mid, offset, 0, edge', i)} | i < |mid|
      ensures SpanAt(im, was, mid, offset, 0, edge', i)
    {
      assert SpanAt(im, was, mid, offset, 0, edge, i);
    }
  }

  lemma SpansDone(im: Image, was: seq<Byte>, now: seq<Byte>, offset: nat)
    requires WholeSource(im.src) && im.width > 0 && im.height > 0
        && SpanMade(im, was, now, offset, 0, 4 * PlaneSize(im))
    requires forall i :: 0 <= i < |was| ==> was[i] == 0
    ensures |now| == |was|
    ensures forall i :: 0 <= i < |now| ==>
        now[i] == if offset + i < TotalLength(im) then ImageByte(im, offset + i) else 0
  {
    hide ImageByte;
    forall i | 0 <= i < |now|
      ensures now[i] == if offset + i < TotalLength(im) then ImageByte(im, offset + i) else 0
    {
      assert SpanAt(im, was, now, offset, 0, 4 * PlaneSize(im), i);
    }
  }

  // ---- The reload index ----

  predicate InRange(im: Image, start: nat, size: nat, upto: nat, k: nat) {
    start <= k < start + size && k < upto
  }

  /** The output rows from rowLo to rowHi are those that a range of bytes touches, and both ends are touched. */
  ghost predicate Hull(im: Image, start: nat, size: nat, upto: nat, rowLo: nat, rowHi: nat)
    requires im.width > 0 && im.height > 0
  {
    && (forall k: nat {:trigger RowOfByte(im, k)} :: InRange(im, start, size, upto, k) ==>
        rowLo <= RowOfByte(im, k) <= rowHi)
    && (exists k: nat :: InRange(im, start, size, upto, k) && RowOfByte(im, k) == rowLo)
    && (exists k: nat :: InRange(im, start, size, upto, k) && RowOfByte(im, k) == rowHi)
  }

  lemma HullFirst(im: Image, start: nat, size: nat, plane: nat, fragStart: nat, fragEnd: nat, rowLo: nat, rowHi: nat)
    requires im.width > 0 && im.height > 0 && Touches(im, plane, fragStart, fragEnd, rowLo, rowHi)
    requires fragStart == (if start > plane * PlaneSize(im) then start else plane * PlaneSize(im))
    requires var planeEnd := plane * PlaneSize(im) + PlaneSize(im);
             fragEnd == if start + size < planeEnd then start + size else planeEnd
    requires start >= plane * PlaneSize(im)
    ensures Hull(im, start, size, plane * PlaneSize(im) + PlaneSize(im), rowLo, rowHi)
  {
    hide Touches, RowOfByte;
    forall k: nat {:trigger RowOfByte(im, k)} | fragStart <= k < fragEnd
      ensures rowLo <= RowOfByte(im, k) <= rowHi
    {
      TouchedRow(im, plane, fragStart, fragEnd, rowLo, rowHi, k);
    }
    TouchedEnds(im, plane, fragStart, fragEnd, rowLo, rowHi);
    assert InRange(im, start, size, plane * PlaneSize(im) + PlaneSize(im), fragStart);
    assert InRange(im, start, size, plane * PlaneSize(im) + PlaneSize(im), fragEnd - 1);
  }

  lemma TouchedEnds(im: Image, plane: nat, fragStart: nat, fragEnd: nat, rowLo: nat, rowHi: nat)
    requires im.width > 0 && im.height > 0 && Touches(im, plane, fragStart, fragEnd, rowLo, rowHi)
    requires fragEnd <= plane * PlaneSize(im) + PlaneSize(im)
    ensures fragStart < fragEnd && RowOfByte(im, fragStart) == rowLo && RowOfByte(im, fragEnd - 1) == rowHi < im.height
  {
    TouchedRow(im, plane, fragStart, fragEnd, rowLo, rowHi, fragStart);
  }

  lemma HullMore(im: Image, start: nat, size: nat, plane: nat, fragStart: nat, fragEnd: nat, rowLo: nat, rowHi: nat,
      lo: nat, hi: nat)
    requires im.width > 0 && im.height > 0 && Touches(im, plane, fragStart, fragEnd, rowLo, rowHi)
    requires fragStart == plane * PlaneSize(im) >= start
    requires var planeEnd := plane * PlaneSize(im) + PlaneSize(im);
             fragEnd == if start + size < planeEnd then start + size else planeEnd
    requires Hull(im, start, size, plane * PlaneSize(im), lo, hi)
    ensures Hull(im, start, size, plane * PlaneSize(im) + PlaneSize(im), if rowLo < lo then rowLo else lo,
                 if rowHi > hi then rowHi else hi)
  {
    hide Touches, RowOfByte;
    var edge, end := plane * PlaneSize(im), plane * PlaneSize(im) + PlaneSize(im);
    forall k: nat {:trigger RowOfByte(im, k)} | fragStart <= k < fragEnd
      ensures rowLo <= RowOfByte(im, k) <= rowHi
    {
      TouchedRow(im, plane, fragStart, fragEnd, rowLo, rowHi, k);
    }
    TouchedEnds(im, plane, fragStart, fragEnd, rowLo, rowHi);
    var k: nat :| InRange(im, start, size, edge, k) && RowOfByte(im, k) == lo;
    var l: nat :| InRange(im, start, size, edge, l) && RowOfByte(im, l) == hi;
    assert InRange(im, start, size, end, fragStart) && InRange(im, start, size, end, fragEnd - 1);
    assert InRange(im, start, size, end, k) && InRange(im, start, size, end, l);
  }

  lemma HullSame(im: Image, start: nat, size: nat, edge: nat, edge': nat, lo: nat, hi: nat)
    requires im.width > 0 && im.height > 0 && Hull(im, start, size, edge, lo, hi) && edge <= edge'
        && start + size <= edge
    ensures Hull(im, start, size, edge', lo, hi)
  {
    hide RowOfByte;
    var k: nat :| InRange(im, start, size, edge, k) && RowOfByte(im, k) == lo;
    var l: nat :| InRange(im, start, size, edge, l) && RowOfByte(im, l) == hi;
    assert InRange(im, start, size, edge', k) && InRange(im, start, size, edge', l);
  }

  ghost predicate TouchedUpTo(im: Image, start: nat, size: nat, upto: nat, touched: bool, rowLo: nat, rowHi: nat)
    requires im.width > 0 && im.height > 0
  {
    && (touched <==> size > 0 && start < upto)
    && (touched ==> Hull(im, start, size, upto, rowLo, rowHi) && rowHi < im.height)
  }

  /** What one more plane adds to the rows touched. */
  method TouchPlane(im: Image, p: nat, rangeStart: nat, rangeSize: nat, touched: bool, rowLo: nat, rowHi: nat)
    returns (touched': bool, rowLo': nat, rowHi': nat)
    requires im.width > 0 && im.height > 0
        && TouchedUpTo(im, rangeStart, rangeSize, p * PlaneSize(im), touched, rowLo, rowHi)
    ensures TouchedUpTo(im, rangeStart, rangeSize, p * PlaneSize(im) + PlaneSize(im), touched', rowLo', rowHi')
  {
    RowInPlane(im, 0);
    hide Hull, Touches, PlaneSize, Stride, RowIndex;
    touched', rowLo', rowHi' := touched, rowLo, rowHi;
    var planeStart := p * PlaneSize(im);
    var planeEnd := planeStart + PlaneSize(im);
    var lo := if rangeStart > planeStart then rangeStart else planeStart;
    var hiExcl := if rangeStart + rangeSize < planeEnd then rangeStart + rangeSize else planeEnd;
    if lo < hiExcl {
      TouchesIs(im, p, lo, hiExcl);
      var first := RowIndex(im, lo - planeStart);
      var last := RowIndex(im, hiExcl - 1 - planeStart);
      TouchedEnds(im, p, lo, hiExcl, first, last);
      if last >= im.height {
        last := im.height - 1;
      }
      if touched {
        HullMore(im, rangeStart, rangeSize, p, lo, hiExcl, first, last, rowLo, rowHi);
      } else {
        HullFirst(im, rangeStart, rangeSize, p, lo, hiExcl, first, last);
      }
      if !touched || first < rowLo {
        rowLo' := first;
      }
      if !touched || last > rowHi {
        rowHi' := last;
      }
      touched' := true;
    } else if touched {
      HullSame(im, rangeStart, rangeSize, planeStart, planeEnd, rowLo, rowHi);
    }
  }

  /** The output rows that a range of the planes touches, over all four planes. */
  method FindTouchedOutputRows(im: Image, rangeStart: nat, rangeSize: nat)
      returns (touched: bool, rowLo: nat, rowHi: nat)
    requires im.width > 0 && im.height > 0
    ensures touched <==> rangeSize > 0 && rangeStart < TotalLength(im)
    ensures touched ==> Hull(im, rangeStart, rangeSize, TotalLength(im), rowLo, rowHi) && rowHi < im.height
  {
    hide Hull, PlaneSize;
    touched, rowLo, rowHi := false, 0, 0;
    for p := 0 to 4
      invariant TouchedUpTo(im, rangeStart, rangeSize, p * PlaneSize(im), touched, rowLo, rowHi)
    {
      touched, rowLo, rowHi := TouchPlane(im, p, rangeStart, rangeSize, touched, rowLo, rowHi);
      assert p * PlaneSize(im) + PlaneSize(im) == (p + 1) * PlaneSize(im);
    }
  }

  /** Row n of the file is the first that a page of the planes needs. */
  ghost predicate StartsPage(im: Image, page: nat, n: nat)
    requires WholeSource(im.src) && im.width > 0 && im.height > 0
  {
    && (forall k: nat {:trigger NativeOfByte(im, k)} ::
          InRange(im, page * PAGE_SIZE, PAGE_SIZE, TotalLength(im), k) ==> n <= NativeOfByte(im, k))
    && (exists k: nat :: InRange(im, page * PAGE_SIZE, PAGE_SIZE, TotalLength(im), k) && NativeOfByte(im, k) == n)
  }

  lemma PageStart(im: Image, page: nat, rowLo: nat, rowHi: nat)
    requires WholeSource(im.src) && !im.src.topDown && im.width > 0 && im.height > 0
    requires Hull(im, page * PAGE_SIZE, PAGE_SIZE, TotalLength(im), rowLo, rowHi) && rowLo <= rowHi < im.height
    ensures var lo := RleNativeRowRange(im, rowLo, rowHi).0; 0 <= lo < im.src.height && StartsPage(im, page, lo)
  {
    hide RowOfByte, NativeFor, RleNativeRowRange, InRange;
    NativeRange(im, rowLo, rowHi, rowHi);
    var lo := RleNativeRowRange(im, rowLo, rowHi).0;
    forall k: nat {:trigger NativeOfByte(im, k)} | InRange(im, page * PAGE_SIZE, PAGE_SIZE, TotalLength(im), k)
      ensures lo <= NativeOfByte(im, k)
    {
      assert rowLo <= RowOfByte(im, k) <= rowHi;
      NativeRange(im, rowLo, rowHi, RowOfByte(im, k));
    }
    var k: nat :| InRange(im, page * PAGE_SIZE, PAGE_SIZE, TotalLength(im), k) && RowOfByte(im, k) == rowHi;
    assert NativeOfByte(im, k) == lo;
  }

  lemma HullOrder(im: Image, start: nat, size: nat, upto: nat, lo: nat, hi: nat)
    requires im.width > 0 && im.height > 0 && Hull(im, start, size, upto, lo, hi)
    ensures lo <= hi
  {
  }

  /** The first row each page needs. */
  method PageRows(im: Image) returns (rows: seq<nat>)
    requires WholeSource(im.src) && !im.src.topDown && im.width > 0 && im.height > 0
    ensures |rows| == (TotalLength(im) + PAGE_SIZE - 1) / PAGE_SIZE
    ensures forall i :: 0 <= i < |rows| ==> rows[i] < im.src.height && StartsPage(im, i, rows[i])
  {
    hide Hull, StartsPage, RleNativeRowRange;
    rows := [];
    var pages := (TotalLength(im) + PAGE_SIZE - 1) / PAGE_SIZE;
    for i := 0 to pages
      invariant |rows| == i
      invariant forall j :: 0 <= j < i ==> rows[j] < im.src.height && StartsPage(im, j, rows[j])
    {
      var touched, rowLo, rowHi := FindTouchedOutputRows(im, i * PAGE_SIZE, PAGE_SIZE);
      HullOrder(im, i * PAGE_SIZE, PAGE_SIZE, TotalLength(im), rowLo, rowHi);
      PageStart(im, i, rowLo, rowHi);
      var (nativeLo, nativeHi) := RleNativeRowRange(im, rowLo, rowHi);
      rows := rows + [nativeLo];
    }
  }

  /** Saves the cursor's state for every page that starts with the row it comes to next. */
  method SavePages(cursor: Cursor, rows: seq<nat>, nativeRow: nat, reload: seq<Checkpoint>)
      returns (reload': seq<Checkpoint>)
    requires cursor.Valid() && cursor.nextRow == nativeRow && |reload| == |rows| && AllReady(cursor.src, reload)
    requires forall i :: 0 <= i < |rows| && rows[i] < nativeRow ==> reload[i].nextRow == rows[i]
    ensures |reload'| == |rows| && AllReady(cursor.src, reload')
    ensures forall i :: 0 <= i < |rows| && rows[i] < nativeRow + 1 ==> reload'[i].nextRow == rows[i]
  {
    hide Ready;
    reload' := reload;
    for i := 0 to |rows|
      invariant |reload'| == |rows| && AllReady(cursor.src, reload')
      invariant forall j :: 0 <= j < |rows| && (rows[j] < nativeRow || (rows[j] == nativeRow && j < i)) ==>
                  reload'[j].nextRow == rows[j]
    {
      if rows[i] == nativeRow {
        var cp := cursor.SaveCheckpoint();
        reload' := reload'[i := cp];
      }
    }
  }

  /** BuildReloadIndex: for each page a state from which decoding can go on, at the first row of the file that page
      needs. */
  method BuildReloadIndex(im: Image) returns (reload: seq<Checkpoint>)
    requires Drawable(im) && im.src.rle
    ensures |reload| == (TotalLength(im) + PAGE_SIZE - 1) / PAGE_SIZE && AllReady(im.src, reload)
    ensures forall i :: 0 <= i < |reload| ==> StartsPage(im, i, reload[i].nextRow)
  {
    hide StartsPage, Ready, NativeRow;
    var rows := PageRows(im);
    StartReady(im.src);
    reload := seq(|rows|, i => START);
    var cursor := new Cursor(im.src);
    for nativeRow := 0 to im.src.height
      invariant fresh(cursor) && fresh(cursor.rowBuffer) && cursor.Valid() && cursor.src == im.src
      invariant cursor.nextRow == nativeRow
      invariant |reload| == |rows| && AllReady(im.src, reload)
      invariant forall i :: 0 <= i < |rows| && rows[i] < nativeRow ==> reload[i].nextRow == rows[i]
    {
      reload := SavePages(cursor, rows, nativeRow, reload);
      var found, row := cursor.Next();
    }
  }
}
