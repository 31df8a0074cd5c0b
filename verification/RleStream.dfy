/** A BI_RLE8 or BI_RLE4 stream (section 2.1.1.7 of MS-WMF) read all at once: its marks, and the canvas they paint. */
module RleStream {
  import opened Words

  /** `four` says which of the two encodings `data` is in. */
  datatype Stream = Stream(data: seq<Byte>, four: bool)

  /** What one token does to the pen: ink some pixels rightwards, go to the start of the next row, jump, or stop. */
  datatype Mark = Ink(shades: seq<Byte>) | NewLine | Jump(dx: nat, dy: nat) | Finish

  // ---- Tokens ----

  function High(b: Byte): Byte {
    b / 16
  }

  function Low(b: Byte): Byte {
    b % 16
  }

  /** The i-th pixel of an encoded run: its one index, or its two in turn. */
  function RunShade(four: bool, value: Byte, i: nat): Byte {
    if !four then value else if i % 2 == 1 then Low(value) else High(value)
  }

  /** The i-th pixel of an absolute run at `at`, if the stream goes that far. */
  function LiteralAt(four: bool, at: nat, i: nat): nat {
    if four then at + i / 2 else at + i
  }

  function LiteralShade(s: Stream, at: nat, i: nat): Byte
    requires LiteralAt(s.four, at, i) < |s.data|
  {
    var b := s.data[LiteralAt(s.four, at, i)];
    if !s.four then b else if i % 2 == 1 then Low(b) else High(b)
  }

  /** How many pixels of an absolute run of n are there: all, or those before the stream is cut off. */
  function LiteralCount(s: Stream, at: nat, n: nat): (k: nat)
    ensures k <= n && (forall i :: 0 <= i < k ==> LiteralAt(s.four, at, i) < |s.data|)
    ensures k < n ==> LiteralAt(s.four, at, k) >= |s.data|
  {
    if at >= |s.data| then 0
    else
      var there := if s.four then 2 * (|s.data| - at) else |s.data| - at;
      if n < there then n else there
  }

  function LiteralBytes(four: bool, n: nat): nat {
    if four then (n + 1) / 2 else n
  }

  /** Where the stream goes on after an absolute run of n at `at`: on an even count of bytes. */
  function AfterLiteral(s: Stream, at: nat, n: nat): nat {
    var bytes := LiteralBytes(s.four, n);
    at + bytes + if bytes % 2 == 1 && at + bytes < |s.data| then 1 else 0
  }

  /** The mark at a position, and where the next one is. A stream that is cut off ends there. */
  function MarkAt(s: Stream, pos: nat): (r: (Mark, nat))
    ensures r.0 != Finish ==> pos < r.1 && pos < |s.data|
  {
    if pos + 2 > |s.data| then (Finish, pos)
    else
      var count, second := s.data[pos], s.data[pos + 1];
      if count > 0 then (Ink(seq(count, i requires 0 <= i < count => RunShade(s.four, second, i))), pos + 2)
      else if second == 0 then (NewLine, pos + 2)
      else if second == 1 then (Finish, pos + 2)
      else if second == 2 then
        if pos + 4 > |s.data| then (Finish, pos + 2) else (Jump(s.data[pos + 2], s.data[pos + 3]), pos + 4)
      else
        var k := LiteralCount(s, pos + 2, second);
        (Ink(seq(k, i requires 0 <= i < k => LiteralShade(s, pos + 2, i))), AfterLiteral(s, pos + 2, second))
  }

  /** The whole stream from a position on. */
  function Marks(s: Stream, pos: nat): seq<Mark>
    decreases if pos < |s.data| then |s.data| - pos else 0
  {
    var (mark, next) := MarkAt(s, pos);
    if mark == Finish then [] else [mark] + Marks(s, next)
  }

  // ---- The canvas ----

  type Canvas = map<(nat, nat), Byte>

  function Draw(canvas: Canvas, x: nat, y: nat, shades: seq<Byte>): Canvas
    decreases |shades|
  {
    if shades == [] then canvas else Draw(canvas[(x, y) := shades[0]], x + 1, y, shades[1..])
  }

  /** Paints a whole stream's marks, the pen starting at column x of row y. */
  function Paint(marks: seq<Mark>, x: nat, y: nat, canvas: Canvas): Canvas
    decreases |marks|
  {
    if marks == [] then canvas
    else match marks[0]
      case Ink(shades) => Paint(marks[1..], x + |shades|, y, Draw(canvas, x, y, shades))
      case NewLine => Paint(marks[1..], 0, y + 1, canvas)
      case Jump(dx, dy) => Paint(marks[1..], x + dx, y + dy, canvas)
      case Finish => canvas
  }

  /** What nothing was painted on is index 0. */
  function Shade(canvas: Canvas, c: nat, r: nat): Byte {
    if (c, r) in canvas then canvas[(c, r)] else 0
  }

  /** The picture: the whole stream painted on an empty canvas. */
  function Picture(s: Stream, c: nat, r: nat): Byte {
    Shade(Paint(Marks(s, 0), 0, 0, map[]), c, r)
  }

  // ---- One cell of it ----

  /** Column c once `shades` have been drawn from column x on over `under`. */
  function Inked(under: Byte, x: nat, shades: seq<Byte>, c: nat): Byte {
    if x <= c < x + |shades| then shades[c - x] else under
  }

  /** What the marks leave at column c of row r, over `under`. */
  function Cell(marks: seq<Mark>, x: nat, y: nat, c: nat, r: nat, under: Byte): Byte
    decreases |marks|
  {
    if marks == [] then under
    else match marks[0]
      case Ink(shades) => Cell(marks[1..], x + |shades|, y, c, r, if y == r then Inked(under, x, shades, c) else under)
      case NewLine => Cell(marks[1..], 0, y + 1, c, r, under)
      case Jump(dx, dy) => Cell(marks[1..], x + dx, y + dy, c, r, under)
      case Finish => under
  }

  lemma {:induction false} DrawCell(canvas: Canvas, x: nat, y: nat, shades: seq<Byte>, c: nat, r: nat)
    ensures Shade(Draw(canvas, x, y, shades), c, r) == if y == r then Inked(Shade(canvas, c, r), x, shades, c)
        else Shade(canvas, c, r)
    decreases |shades|
  {
    if shades != [] {
      DrawCell(canvas[(x, y) := shades[0]], x + 1, y, shades[1..], c, r);
    }
  }

  lemma {:induction false} PaintCell(marks: seq<Mark>, x: nat, y: nat, canvas: Canvas, c: nat, r: nat)
    ensures Shade(Paint(marks, x, y, canvas), c, r) == Cell(marks, x, y, c, r, Shade(canvas, c, r))
    decreases |marks|
  {
    if marks != [] {
      match marks[0]
      case Ink(shades) =>
        DrawCell(canvas, x, y, shades, c, r);
        PaintCell(marks[1..], x + |shades|, y, Draw(canvas, x, y, shades), c, r);
      case NewLine => PaintCell(marks[1..], 0, y + 1, canvas, c, r);
      case Jump(dx, dy) => PaintCell(marks[1..], x + dx, y + dy, canvas, c, r);
      case Finish =>
    }
  }

  /** The pen never goes back up. */
  lemma {:induction false} PassedRow(marks: seq<Mark>, x: nat, y: nat, c: nat, r: nat, under: Byte)
    requires r < y
    ensures Cell(marks, x, y, c, r, under) == under
    decreases |marks|
  {
    if marks != [] {
      match marks[0]
      case Ink(shades) => PassedRow(marks[1..], x + |shades|, y, c, r, under);
      case NewLine => PassedRow(marks[1..], 0, y + 1, c, r, under);
      case Jump(dx, dy) => PassedRow(marks[1..], x + dx, y + dy, c, r, under);
      case Finish =>
    }
  }

  // ---- The stream from where a decoder stands ----

  /** Where a decoder stands in the stream. */
  datatype Pen = Pen(pos: nat, x: nat, y: nat, finished: bool)

  /** What the rest of the stream leaves at a cell. */
  function Rest(s: Stream, pen: Pen, c: nat, r: nat, under: Byte): Byte {
    if pen.finished then under else Cell(Marks(s, pen.pos), pen.x, pen.y, c, r, under)
  }

  /** One mark on: what it leaves at a cell, and where it leaves the pen. */
  function Marked(s: Stream, pen: Pen): Pen
    requires !pen.finished
  {
    var (mark, next) := MarkAt(s, pen.pos);
    match mark
    case Ink(shades) => Pen(next, pen.x + |shades|, pen.y, false)
    case NewLine => Pen(next, 0, pen.y + 1, false)
    case Jump(dx, dy) => Pen(next, pen.x + dx, pen.y + dy, false)
    case Finish => Pen(next, pen.x, pen.y, true)
  }

  function UnderMark(s: Stream, pen: Pen, c: nat, r: nat, under: Byte): Byte {
    var mark := MarkAt(s, pen.pos).0;
    if mark.Ink? && pen.y == r then Inked(under, pen.x, mark.shades, c) else under
  }

  /** Reading one mark changes nothing of what the whole leaves. */
  lemma RestStep(s: Stream, pen: Pen, c: nat, r: nat, under: Byte)
    requires !pen.finished
    ensures Rest(s, pen, c, r, under) == Rest(s, Marked(s, pen), c, r, UnderMark(s, pen, c, r, under))
  {
    var (mark, next) := MarkAt(s, pen.pos);
    if mark != Finish {
      assert Marks(s, pen.pos)[0] == mark && Marks(s, pen.pos)[1..] == Marks(s, next);
    }
  }

  lemma PictureRest(s: Stream, c: nat, r: nat)
    ensures Picture(s, c, r) == Rest(s, Pen(0, 0, 0, false), c, r, 0)
  {
    PaintCell(Marks(s, 0), 0, 0, map[], c, r);
  }

  lemma RestPassed(s: Stream, pen: Pen, c: nat, r: nat, under: Byte)
    requires pen.finished || r < pen.y
    ensures Rest(s, pen, c, r, under) == under
  {
    if !pen.finished {
      PassedRow(Marks(s, pen.pos), pen.x, pen.y, c, r, under);
    }
  }
}
