/** Reading a bitmap row by row, from a compressed stream no faster than the rows are asked for. */
module RowCursor {
  import opened Words
  import opened RleStream

  /** What BmpParse finds: `pixels` and `rowStride` for plain files, `stream` for compressed ones, which are stored
      bottom row first. */
  datatype Source = Source(width: nat, height: nat, topDown: bool, rle: bool, stream: Stream, pixels: seq<Byte>,
      rowStride: nat)

  /** As much of the file as its header says there is. */
  predicate WholeSource(src: Source) {
    && src.width > 0 && src.height > 0
    && if src.rle then !src.topDown else src.height * src.rowStride <= |src.pixels|
  }

  lemma RowInside(src: Source, n: nat)
    requires WholeSource(src) && !src.rle && n < src.height
    ensures n * src.rowStride + src.rowStride <= |src.pixels|
  {
    assert (src.height - 1 - n) * src.rowStride >= 0;
    assert src.height * src.rowStride == n * src.rowStride + src.rowStride + (src.height - 1 - n) * src.rowStride;
  }

  /** Row n in the order the file has them. */
  function NativeRow(src: Source, n: nat): seq<Byte>
    requires WholeSource(src) && n < src.height
  {
    if src.rle then seq(src.width, c requires 0 <= c < src.width => Picture(src.stream, c, n))
    else
      RowInside(src, n);
      src.pixels[n * src.rowStride..n * src.rowStride + src.rowStride]
  }

  /** A cell of a compressed row is the picture's; of any other, the byte as many rows and columns into the file. */
  lemma NativeCell(src: Source, n: nat, c: nat)
    requires WholeSource(src) && n < src.height && c < if src.rle then src.width else src.rowStride
    ensures c < |NativeRow(src, n)|
    ensures src.rle ==> NativeRow(src, n)[c] == Picture(src.stream, c, n)
    ensures !src.rle ==>
        n * src.rowStride + c < |src.pixels| && NativeRow(src, n)[c] == src.pixels[n * src.rowStride + c]
  {
    if !src.rle {
      RowInside(src, n);
    }
  }

  /** What a cursor saves and resumes from. */
  datatype Checkpoint = Checkpoint(pen: Pen, nextRow: nat)

  const START := Checkpoint(Pen(0, 0, 0, false), 0)

  predicate CellLeft(s: Stream, pen: Pen, c: nat, r: nat) {
    Picture(s, c, r) == Rest(s, pen, c, r, 0)
  }

  /** What is left of the stream paints every row from r on. */
  ghost predicate RowsLeft(s: Stream, pen: Pen, from: nat) {
    forall c: nat, r: nat {:trigger CellLeft(s, pen, c, r)} :: r >= from ==> CellLeft(s, pen, c, r)
  }

  /** A cursor's state between two rows: the stream is not past the row it is asked for next. */
  ghost predicate Ready(src: Source, cp: Checkpoint) {
    && cp.nextRow <= src.height
    && (src.rle ==> (cp.pen.finished || cp.nextRow <= cp.pen.y) && RowsLeft(src.stream, cp.pen, cp.nextRow))
  }

  lemma StartReady(src: Source)
    ensures Ready(src, START)
  {
    forall c: nat, r: nat ensures CellLeft(src.stream, START.pen, c, r) { PictureRest(src.stream, c, r); }
  }

  /** The first i shades have been drawn from x on. */
  predicate Drawn(was: seq<Byte>, now: seq<Byte>, x: nat, shades: seq<Byte>, i: nat) {
    |now| == |was| && i <= |shades| && forall c :: 0 <= c < |now| ==>
        now[c] == if x <= c < x + i then shades[c - x] else was[c]
  }

  /** What is left of the stream finishes row r over what the buffer holds. */
  ghost predicate RowLeft(s: Stream, pen: Pen, r: nat, buffer: seq<Byte>) {
    forall c {:trigger buffer[c]} :: 0 <= c < |buffer| ==> Picture(s, c, r) == Rest(s, pen, c, r, buffer[c])
  }

  class Cursor {
    const src: Source
    const rowBuffer: array<Byte>
    var pos: nat
    var x: nat
    var y: nat
    var finished: bool
    var nextRow: nat

    /** BmpRowCursorInit. */
    constructor (source: Source)
      requires WholeSource(source)
      ensures Valid() && src == source && View() == START && fresh(rowBuffer)
    {
      src := source;
      rowBuffer := new Byte[source.width];
      pos, x, y, finished, nextRow := 0, 0, 0, false, 0;
      new;
      StartReady(source);
    }

    ghost function View(): Checkpoint
      reads this
    {
      Checkpoint(Pen(pos, x, y, finished), nextRow)
    }

    ghost predicate Valid()
      reads this
    {
      WholeSource(src) && rowBuffer.Length == src.width && Ready(src, View())
    }

    /** BmpRowCursorSaveCheckpoint. */
    method SaveCheckpoint() returns (cp: Checkpoint)
      ensures cp == View()
    {
      cp := Checkpoint(Pen(pos, x, y, finished), nextRow);
    }

    /** BmpRowCursorResume, into a cursor just made: any saved state will do, whatever cursor it was saved from. */
    method Resume(cp: Checkpoint)
      requires Valid() && Ready(src, cp)
      modifies this
      ensures Valid() && (src.rle ==> View() == cp)
    {
      if src.rle {
        pos, x, y, finished, nextRow := cp.pen.pos, cp.pen.x, cp.pen.y, cp.pen.finished, cp.nextRow;
      }
    }

    /** BmpRowCursorNext: the next row of the picture, or nothing once all have been given. */
    method Next() returns (found: bool, row: seq<Byte>)
      requires Valid()
      modifies this, rowBuffer
      ensures Valid() && found == (old(nextRow) < src.height)
      ensures found ==> nextRow == old(nextRow) + 1 && row == NativeRow(src, old(nextRow))
      ensures !found ==> View() == old(View())
    {
      found, row := nextRow < src.height, [];
      if found {
        if src.rle {
          row := NextRle();
        } else {
          RowInside(src, nextRow);
          row := src.pixels[nextRow * src.rowStride..nextRow * src.rowStride + src.rowStride];
          nextRow := nextRow + 1;
        }
      }
    }

    /** BmpRowCursorNextRLE. */
    method NextRle() returns (row: seq<Byte>)
      requires Valid() && src.rle && nextRow < src.height
      modifies this, rowBuffer
      ensures Valid() && nextRow == old(nextRow) + 1 && row == NativeRow(src, old(nextRow))
    {
      var targetRow := nextRow;
      ClearRow();
      if finished || targetRow < y {
        RowSkipped(src.stream, View().pen, targetRow, rowBuffer[..]);
      } else {
        RowBegun(src.stream, View().pen, targetRow, rowBuffer[..]);
        while !finished && y == targetRow
          invariant nextRow == targetRow && (finished || targetRow <= y)
          invariant RowLeft(src.stream, View().pen, targetRow, rowBuffer[..])
          invariant RowsLeft(src.stream, View().pen, targetRow + 1)
          decreases !finished, |src.stream.data| - pos
        {
          ghost var pen, was := View().pen, rowBuffer[..];
          ReadToken();
          TokenRead(src.stream, pen, targetRow, was, rowBuffer[..]);
        }
      }
      RowDone(src, View().pen, targetRow, rowBuffer[..]);
      row := rowBuffer[..];
      nextRow := nextRow + 1;
    }

    method ClearRow()
      requires rowBuffer.Length == src.width
      modifies rowBuffer
      ensures forall c :: 0 <= c < rowBuffer.Length ==> rowBuffer[c] == 0
    {
      for i := 0 to rowBuffer.Length
        invariant forall c :: 0 <= c < i ==> rowBuffer[c] == 0
      {
        rowBuffer[i] := 0;
      }
    }

    /** One token: whatever it inks of the current row goes into the buffer. */
    method ReadToken()
      requires !finished && rowBuffer.Length == src.width
      modifies this`pos, this`x, this`y, this`finished, rowBuffer
      ensures View().pen == Marked(src.stream, old(View().pen))
      ensures var mark := MarkAt(src.stream, old(pos)).0;
              if mark.Ink? then Drawn(old(rowBuffer[..]), rowBuffer[..], old(x), mark.shades, |mark.shades|)
              else rowBuffer[..] == old(rowBuffer[..])
    {
      var len := |src.stream.data|;
      if pos + 2 > len {
        finished := true;
        return;
      }
      var count, second := src.stream.data[pos], src.stream.data[pos + 1];
      pos := pos + 2;
      if count != 0 {
        DrawRun(count, second);
      } else if second == 0 {
        x, y := 0, y + 1;
      } else if second == 1 {
        finished := true;
      } else if second == 2 {
        if pos + 2 > len {
          finished := true;
        } else {
          x, y, pos := x + src.stream.data[pos], y + src.stream.data[pos + 1], pos + 2;
        }
      } else {
        DrawLiterals(second);
        var n: nat := second;
        var bytesNeeded := if src.stream.four then (n + 1) / 2 else n;
        pos := pos + bytesNeeded;
        if bytesNeeded % 2 == 1 && pos < len {
          pos := pos + 1;
        }
      }
    }

    /** One pixel, if it is inside the row. */
    method DrawPixel(shade: Byte)
      requires rowBuffer.Length == src.width
      modifies this`x, rowBuffer
      ensures x == old(x) + 1
      ensures forall c :: 0 <= c < rowBuffer.Length ==> rowBuffer[c] == if c == old(x) then shade else old(rowBuffer[c])
    {
      if x < src.width {
        rowBuffer[x] := shade;
      }
      x := x + 1;
    }

    /** An encoded run. */
    method DrawRun(count: Byte, value: Byte)
      requires rowBuffer.Length == src.width
      modifies this`x, rowBuffer
      ensures var shades := seq(count, i requires 0 <= i < count => RunShade(src.stream.four, value, i));
              x == old(x) + count && Drawn(old(rowBuffer[..]), rowBuffer[..], old(x), shades, count)
    {
      ghost var x0, was := x, rowBuffer[..];
      ghost var shades := seq(count, i requires 0 <= i < count => RunShade(src.stream.four, value, i));
      for i := 0 to count
        invariant x == x0 + i && Drawn(was, rowBuffer[..], x0, shades, i)
      {
        ghost var before := rowBuffer[..];
        DrawPixel(RunShade(src.stream.four, value, i));
        DrawnMore(was, before, rowBuffer[..], x0, shades, i);
      }
    }

    /** An absolute run, or as much of it as the stream has. */
    method DrawLiterals(n: Byte)
      requires rowBuffer.Length == src.width
      modifies this`x, rowBuffer
      ensures var at := pos;
              var k := LiteralCount(src.stream, at, n);
              var shades := seq(k, i requires 0 <= i < k => LiteralShade(src.stream, at, i));
              x == old(x) + k && Drawn(old(rowBuffer[..]), rowBuffer[..], old(x), shades, k)
    {
      ghost var x0, was := x, rowBuffer[..];
      ghost var at := pos;
      ghost var k := LiteralCount(src.stream, at, n);
      ghost var shades := seq(k, i requires 0 <= i < k => LiteralShade(src.stream, at, i));
      var i := 0;
      while i < n
        invariant pos == at && i <= k && x == x0 + i && Drawn(was, rowBuffer[..], x0, shades, i)
      {
        if LiteralAt(src.stream.four, pos, i) >= |src.stream.data| {
          break;
        }
        ghost var before := rowBuffer[..];
        DrawPixel(LiteralShade(src.stream, pos, i));
        DrawnMore(was, before, rowBuffer[..], x0, shades, i);
        i := i + 1;
      }
    }
  }

  // ---- Each step of it ----

  lemma DrawnMore(was: seq<Byte>, before: seq<Byte>, now: seq<Byte>, x: nat, shades: seq<Byte>, i: nat)
    requires Drawn(was, before, x, shades, i) && i < |shades| && |now| == |before|
    requires forall c :: 0 <= c < |now| ==> now[c] == if c == x + i then shades[i] else before[c]
    ensures Drawn(was, now, x, shades, i + 1)
  {
  }

  /** A row the stream is already past, or never came to, was not painted. */
  lemma RowSkipped(s: Stream, pen: Pen, r: nat, buffer: seq<Byte>)
    requires (pen.finished || r < pen.y) && RowsLeft(s, pen, r)
    requires forall c :: 0 <= c < |buffer| ==> buffer[c] == 0
    ensures RowLeft(s, pen, r, buffer) && RowsLeft(s, pen, r + 1)
  {
    RowBegun(s, pen, r, buffer);
  }

  lemma RowBegun(s: Stream, pen: Pen, r: nat, buffer: seq<Byte>)
    requires RowsLeft(s, pen, r)
    requires forall c :: 0 <= c < |buffer| ==> buffer[c] == 0
    ensures RowLeft(s, pen, r, buffer) && RowsLeft(s, pen, r + 1)
  {
    forall c | 0 <= c < |buffer|
      ensures Picture(s, c, r) == Rest(s, pen, c, r, buffer[c])
    {
      assert CellLeft(s, pen, c, r);
    }
  }

  lemma TokenRead(s: Stream, pen: Pen, r: nat, was: seq<Byte>, now: seq<Byte>)
    requires !pen.finished && pen.y == r && RowLeft(s, pen, r, was) && RowsLeft(s, pen, r + 1)
    requires var mark := MarkAt(s, pen.pos).0;
             if mark.Ink? then Drawn(was, now, pen.x, mark.shades, |mark.shades|) else now == was
    ensures RowLeft(s, Marked(s, pen), r, now) && RowsLeft(s, Marked(s, pen), r + 1)
  {
    hide Picture, Rest;
    forall c | 0 <= c < |now|
      ensures Picture(s, c, r) == Rest(s, Marked(s, pen), c, r, now[c])
    {
      RestStep(s, pen, c, r, was[c]);
    }
    forall c: nat, q: nat | q >= r + 1
      ensures CellLeft(s, Marked(s, pen), c, q)
    {
      assert CellLeft(s, pen, c, q);
      RestStep(s, pen, c, q, 0);
    }
  }

  /** Once the stream has left the row, the buffer holds it. */
  lemma RowDone(src: Source, pen: Pen, r: nat, buffer: seq<Byte>)
    requires WholeSource(src) && src.rle && r < src.height && |buffer| == src.width
    requires (pen.finished || r < pen.y) && RowLeft(src.stream, pen, r, buffer)
    ensures buffer == NativeRow(src, r)
  {
    hide Picture, Rest;
    forall c | 0 <= c < |buffer|
      ensures buffer[c] == Picture(src.stream, c, r)
    {
      RestPassed(src.stream, pen, c, r, buffer[c]);
    }
  }
}
