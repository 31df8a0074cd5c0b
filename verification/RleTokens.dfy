/** Writing a BI_RLE8 or BI_RLE4 stream byte by byte: what is written is what the decoder's marks say. */
module RleTokens {
  import opened Words
  import opened RleStream

  /** The tokens of the format: a run of one index, or of two in turn; pixels one by one; the end of a row; a jump. */
  datatype Token =
    | Repeat(count: nat, first: Byte, second: Byte)
    | Literal(shades: seq<Byte>)
    | RowEnd
    | Move(right: nat, down: nat)

  predicate Nibbles(shades: seq<Byte>) {
    forall i :: 0 <= i < |shades| ==> shades[i] < 16
  }

  /** What the encoding can say: counts of one byte, literal pixels at least three, and two indices to a byte if it
      is the one with four bits to a pixel. */
  predicate CanWrite(four: bool, t: Token) {
    match t
    case Repeat(count, first, second) =>
      0 < count < 0x100 && if four then first < 16 && second < 16 else first == second
    case Literal(shades) => 3 <= |shades| < 0x100 && (four ==> Nibbles(shades))
    case RowEnd => true
    case Move(right, down) => right < 0x100 && down < 0x100
  }

  predicate CanWriteAll(four: bool, ts: seq<Token>) {
    forall i :: 0 <= i < |ts| ==> CanWrite(four, ts[i])
  }

  /** Two pixels to a byte, the first in the high half; an odd one at the end has its byte to itself. */
  function Packed(shades: seq<Byte>): (r: seq<Byte>)
    requires Nibbles(shades)
    ensures |r| == (|shades| + 1) / 2
  {
    seq((|shades| + 1) / 2, k requires 0 <= k < (|shades| + 1) / 2 =>
        (shades[2 * k] * 16 + if 2 * k + 1 < |shades| then shades[2 * k + 1] else 0) as Byte)
  }

  function EvenPadded(bytes: seq<Byte>): seq<Byte> {
    if |bytes| % 2 == 0 then bytes else bytes + [0]
  }

  /** The bytes of a literal run, after its two first. */
  function LiteralData(four: bool, shades: seq<Byte>): (r: seq<Byte>)
    requires four ==> Nibbles(shades)
    ensures |r| % 2 == 0 && |r| >= LiteralBytes(four, |shades|)
  {
    EvenPadded(if four then Packed(shades) else shades)
  }

  function TokenBytes(four: bool, t: Token): seq<Byte>
    requires CanWrite(four, t)
  {
    match t
    case Repeat(count, first, second) => [count, if four then first * 16 + second else first]
    case Literal(shades) => [0, |shades|] + LiteralData(four, shades)
    case RowEnd => [0, 0]
    case Move(right, down) => [0, 2, right, down]
  }

  /** The pixels of a run: the two indices in turn, from the first. */
  function Alternating(count: nat, first: Byte, second: Byte): seq<Byte> {
    seq(count, i requires 0 <= i < count => if i % 2 == 0 then first else second)
  }

  function Meant(t: Token): Mark {
    match t
    case Repeat(count, first, second) => Ink(Alternating(count, first, second))
    case Literal(shades) => Ink(shades)
    case RowEnd => NewLine
    case Move(right, down) => Jump(right, down)
  }

  function MeantAll(ts: seq<Token>): (r: seq<Mark>)
    ensures |r| == |ts|
  {
    if ts == [] then [] else [Meant(ts[0])] + MeantAll(ts[1..])
  }

  /** The tokens, and the end of the bitmap after them. */
  function StreamBytes(four: bool, ts: seq<Token>): (r: seq<Byte>)
    requires CanWriteAll(four, ts)
    ensures |r| >= 2
  {
    if ts == [] then [0, 1] else TokenBytes(four, ts[0]) + StreamBytes(four, ts[1..])
  }

  // ---- One token ----

  /** The stream has these bytes from `pos` on. */
  predicate HasAt(s: Stream, pos: nat, bytes: seq<Byte>) {
    pos + |bytes| <= |s.data| && s.data[pos..pos + |bytes|] == bytes
  }

  lemma HasEnd(s: Stream, pos: nat, bytes: seq<Byte>)
    requires HasAt(s, pos, bytes)
    ensures pos + |bytes| <= |s.data|
  {
  }

  lemma ByteAt(s: Stream, pos: nat, bytes: seq<Byte>, k: nat)
    requires HasAt(s, pos, bytes) && k < |bytes|
    ensures s.data[pos + k] == bytes[k]
  {
    assert s.data[pos..pos + |bytes|][k] == bytes[k];
  }

  lemma SplitAt(s: Stream, pos: nat, head: seq<Byte>, rest: seq<Byte>)
    requires HasAt(s, pos, head + rest)
    ensures HasAt(s, pos, head) && HasAt(s, pos + |head|, rest)
  {
    var bytes := head + rest;
    assert s.data[pos..pos + |head|] == bytes[..|head|];
    assert s.data[pos + |head|..pos + |head| + |rest|] == bytes[|head|..];
  }

  lemma RepeatRead(s: Stream, pos: nat, t: Token)
    requires t.Repeat? && CanWrite(s.four, t) && HasAt(s, pos, TokenBytes(s.four, t))
    ensures MarkAt(s, pos) == (Meant(t), pos + 2)
  {
    ByteAt(s, pos, TokenBytes(s.four, t), 0);
    ByteAt(s, pos, TokenBytes(s.four, t), 1);
    assert MarkAt(s, pos).0.shades == Alternating(t.count, t.first, t.second);
  }

  lemma EscapeRead(s: Stream, pos: nat, t: Token)
    requires (t.RowEnd? || t.Move?) && CanWrite(s.four, t) && HasAt(s, pos, TokenBytes(s.four, t))
    ensures MarkAt(s, pos) == (Meant(t), pos + |TokenBytes(s.four, t)|)
  {
    ByteAt(s, pos, TokenBytes(s.four, t), 0);
    ByteAt(s, pos, TokenBytes(s.four, t), 1);
    if t.Move? {
      ByteAt(s, pos, TokenBytes(s.four, t), 2);
      ByteAt(s, pos, TokenBytes(s.four, t), 3);
    }
  }

  /** Each half of a byte is a pixel. */
  lemma HalfOf(shades: seq<Byte>, i: nat)
    requires Nibbles(shades) && i < |shades|
    ensures var b := Packed(shades)[i / 2]; shades[i] == if i % 2 == 0 then b / 16 else b % 16
  {
    var k := i / 2;
    assert shades[2 * k] < 16 && (2 * k + 1 < |shades| ==> shades[2 * k + 1] < 16);
  }

  lemma PaddedAt(bytes: seq<Byte>, k: nat)
    requires k < |bytes|
    ensures k < |EvenPadded(bytes)| && EvenPadded(bytes)[k] == bytes[k]
  {
  }

  lemma HalfPixel(s: Stream, at: nat, shades: seq<Byte>, i: nat)
    requires i < |shades| && s.four && Nibbles(shades) && HasAt(s, at, EvenPadded(Packed(shades)))
    ensures at + i / 2 < |s.data| && shades[i] == if i % 2 == 0 then s.data[at + i / 2] / 16
        else s.data[at + i / 2] % 16
  {
    HalfOf(shades, i);
    var packed := Packed(shades);
    hide Packed, Nibbles;
    PaddedAt(packed, i / 2);
    ByteAt(s, at, EvenPadded(packed), i / 2);
    HasEnd(s, at, EvenPadded(packed));
    hide EvenPadded, HasAt;
  }

  lemma WholePixel(s: Stream, at: nat, shades: seq<Byte>, i: nat)
    requires i < |shades| && !s.four && HasAt(s, at, EvenPadded(shades))
    ensures at + i < |s.data| && shades[i] == s.data[at + i]
  {
    PaddedAt(shades, i);
    ByteAt(s, at, EvenPadded(shades), i);
    HasEnd(s, at, EvenPadded(shades));
    hide EvenPadded, HasAt;
  }

  /** Every pixel of a literal run is where the decoder looks for it. */
  lemma LiteralPixel(s: Stream, at: nat, shades: seq<Byte>, i: nat)
    requires i < |shades| && (s.four ==> Nibbles(shades))
    requires HasAt(s, at, LiteralData(s.four, shades))
    ensures LiteralAt(s.four, at, i) < |s.data| && LiteralShade(s, at, i) == shades[i]
  {
    hide HasAt, EvenPadded, Packed, Nibbles;
    if s.four {
      HalfPixel(s, at, shades, i);
    } else {
      WholePixel(s, at, shades, i);
    }
  }

  lemma LiteralGoesOn(s: Stream, at: nat, shades: seq<Byte>)
    requires s.four ==> Nibbles(shades)
    requires at + |LiteralData(s.four, shades)| < |s.data|
    ensures LiteralCount(s, at, |shades|) == |shades|
    ensures AfterLiteral(s, at, |shades|) == at + |LiteralData(s.four, shades)|
  {
  }

  lemma LiteralRead(s: Stream, pos: nat, t: Token)
    requires t.Literal? && CanWrite(s.four, t) && HasAt(s, pos, TokenBytes(s.four, t))
    requires pos + |TokenBytes(s.four, t)| < |s.data|
    ensures MarkAt(s, pos) == (Meant(t), pos + |TokenBytes(s.four, t)|)
  {
    var bytes, n := LiteralData(s.four, t.shades), |t.shades|;
    assert TokenBytes(s.four, t) == [0, n] + bytes;
    SplitAt(s, pos, [0, n], bytes);
    ByteAt(s, pos, [0, n], 0);
    ByteAt(s, pos, [0, n], 1);
    LiteralGoesOn(s, pos + 2, t.shades);
    forall i | 0 <= i < n
      ensures LiteralAt(s.four, pos + 2, i) < |s.data| && LiteralShade(s, pos + 2, i) == t.shades[i]
    {
      LiteralPixel(s, pos + 2, t.shades, i);
    }
    hide TokenBytes, LiteralData, LiteralAt, LiteralShade, LiteralCount, AfterLiteral, HasAt;
    assert MarkAt(s, pos).0.shades == t.shades;
  }

  lemma TokenRead(s: Stream, pos: nat, t: Token)
    requires CanWrite(s.four, t) && HasAt(s, pos, TokenBytes(s.four, t))
    requires pos + |TokenBytes(s.four, t)| < |s.data|
    ensures MarkAt(s, pos) == (Meant(t), pos + |TokenBytes(s.four, t)|) && Meant(t) != Finish
  {
    match t
    case Repeat(_, _, _) => RepeatRead(s, pos, t);
    case Literal(_) => LiteralRead(s, pos, t);
    case _ => EscapeRead(s, pos, t);
  }

  // ---- Whole streams ----

  lemma MarksNext(s: Stream, pos: nat)
    requires MarkAt(s, pos).0 != Finish
    ensures Marks(s, pos) == [MarkAt(s, pos).0] + Marks(s, MarkAt(s, pos).1)
  {
    hide MarkAt;
  }

  lemma EndRead(s: Stream, pos: nat)
    requires HasAt(s, pos, [0, 1])
    ensures Marks(s, pos) == []
  {
    ByteAt(s, pos, [0, 1], 0);
    ByteAt(s, pos, [0, 1], 1);
  }

  lemma FirstWritten(four: bool, ts: seq<Token>)
    requires CanWriteAll(four, ts) && ts != []
    ensures CanWrite(four, ts[0]) && CanWriteAll(four, ts[1..])
    ensures StreamBytes(four, ts) == TokenBytes(four, ts[0]) + StreamBytes(four, ts[1..])
    ensures MeantAll(ts) == [Meant(ts[0])] + MeantAll(ts[1..])
  {
    hide CanWrite;
  }

  lemma NothingWritten(four: bool)
    ensures CanWriteAll(four, []) && StreamBytes(four, []) == [0, 1] && MeantAll([]) == []
  {
  }

  lemma {:induction false} ReadFrom(s: Stream, pos: nat, ts: seq<Token>)
    requires CanWriteAll(s.four, ts) && HasAt(s, pos, StreamBytes(s.four, ts))
    ensures Marks(s, pos) == MeantAll(ts)
    decreases |ts|
  {
    hide *;
    if ts == [] {
      NothingWritten(s.four);
      EndRead(s, pos);
    } else {
      FirstWritten(s.four, ts);
      var head, rest := TokenBytes(s.four, ts[0]), StreamBytes(s.four, ts[1..]);
      SplitAt(s, pos, head, rest);
      HasEnd(s, pos + |head|, rest);
      TokenRead(s, pos, ts[0]);
      MarksNext(s, pos);
      ReadFrom(s, pos + |head|, ts[1..]);
    }
  }

  /** Whatever tokens are written, in either encoding, the decoder reads those, up to the end of the bitmap and
      whatever comes after it. */
  lemma TokensRead(four: bool, ts: seq<Token>, after: seq<Byte>)
    requires CanWriteAll(four, ts)
    ensures Marks(Stream(StreamBytes(four, ts) + after, four), 0) == MeantAll(ts)
  {
    var bytes := StreamBytes(four, ts);
    assert (bytes + after)[0..|bytes|] == bytes;
    ReadFrom(Stream(bytes + after, four), 0, ts);
  }

  // ---- Whole pictures ----

  /** A row written pixel by pixel. */
  function RowTokens(row: seq<Byte>): (r: seq<Token>)
    ensures |r| == |row| && forall i :: 0 <= i < |r| ==> r[i] == Repeat(1, row[i], row[i])
  {
    seq(|row|, i requires 0 <= i < |row| => Repeat(1, row[i], row[i]))
  }

  /** Rows written from the first on, each with its end. */
  function RowsTokens(rows: seq<seq<Byte>>): seq<Token> {
    if rows == [] then [] else RowTokens(rows[0]) + ([RowEnd] + RowsTokens(rows[1..]))
  }

  function Pixel(rows: seq<seq<Byte>>, x: nat, c: nat, r: nat, under: Byte): Byte {
    if r >= |rows| then under
    else if r == 0 then (if x <= c < x + |rows[0]| then rows[0][c - x] else under)
    else if c < |rows[r]| then rows[r][c] else under
  }

  lemma {:induction false} RowCell(row: seq<Byte>, rest: seq<Token>, x: nat, y: nat, c: nat, r: nat, under: Byte)
    ensures Cell(MeantAll(RowTokens(row) + rest), x, y, c, r, under) ==
            Cell(MeantAll(rest), x + |row|, y, c, r, if y == r && x <= c < x + |row| then row[c - x] else under)
    decreases |row|
  {
    if row == [] {
      assert RowTokens(row) + rest == rest;
    } else {
      var ts := RowTokens(row) + rest;
      assert ts[1..] == RowTokens(row[1..]) + rest;
      assert ts[0] == Repeat(1, row[0], row[0]);
      assert Alternating(1, row[0], row[0]) == [row[0]];
      CellNext(ts, x, y, c, r, under);
      RowCell(row[1..], rest, x + 1, y, c, r, if y == r && c == x then row[0] else under);
    }
  }

  lemma CellNext(ts: seq<Token>, x: nat, y: nat, c: nat, r: nat, under: Byte)
    requires ts != []
    ensures Cell(MeantAll(ts), x, y, c, r, under) ==
            match ts[0]
            case RowEnd => Cell(MeantAll(ts[1..]), 0, y + 1, c, r, under)
            case Move(right, down) => Cell(MeantAll(ts[1..]), x + right, y + down, c, r, under)
            case _ => Cell(MeantAll(ts[1..]), x + |Meant(ts[0]).shades|, y, c, r,
                           if y == r then Inked(under, x, Meant(ts[0]).shades, c) else under)
  {
    assert MeantAll(ts)[0] == Meant(ts[0]) && MeantAll(ts)[1..] == MeantAll(ts[1..]);
  }

  lemma {:induction false} RowsCell(rows: seq<seq<Byte>>, x: nat, y: nat, c: nat, r: nat, under: Byte)
    ensures Cell(MeantAll(RowsTokens(rows)), x, y, c, r, under) ==
        if r >= y then Pixel(rows, x, c, r - y, under) else under
    decreases |rows|
  {
    if rows != [] {
      var rest := [RowEnd] + RowsTokens(rows[1..]);
      var under' := if y == r && x <= c < x + |rows[0]| then rows[0][c - x] else under;
      RowCell(rows[0], rest, x, y, c, r, under);
      assert rest[1..] == RowsTokens(rows[1..]);
      CellNext(rest, x + |rows[0]|, y, c, r, under');
      RowsCell(rows[1..], 0, y + 1, c, r, under');
    }
  }

  lemma {:induction false} CanWriteRows(four: bool, rows: seq<seq<Byte>>)
    requires four ==> forall i :: 0 <= i < |rows| ==> Nibbles(rows[i])
    ensures CanWriteAll(four, RowsTokens(rows))
  {
    if rows != [] {
      CanWriteRows(four, rows[1..]);
      assert four ==> Nibbles(rows[0]);
    }
  }

  /** Any picture, written row by row after a jump of `right` and `down`, is painted there: the first row from column
      `right` on, those after it from the left edge, and index 0 everywhere else. */
  lemma PictureWritten(four: bool, right: nat, down: nat, rows: seq<seq<Byte>>, c: nat, r: nat)
    requires right < 0x100 && down < 0x100
    requires four ==> forall i :: 0 <= i < |rows| ==> Nibbles(rows[i])
    ensures CanWriteAll(four, [Move(right, down)] + RowsTokens(rows))
    ensures Picture(Stream(StreamBytes(four, [Move(right, down)] + RowsTokens(rows)), four), c, r) ==
        if r < down || r - down >= |rows| then 0
        else
          var row, from := rows[r - down], if r == down then right else 0;
          if from <= c < from + |row| then row[c - from] else 0
  {
    var ts := [Move(right, down)] + RowsTokens(rows);
    CanWriteRows(four, rows);
    assert CanWriteAll(four, ts);
    assert ts[1..] == RowsTokens(rows);
    hide StreamBytes, CanWriteAll, MeantAll, Marks, RowsTokens, Paint, Cell;
    TokensRead(four, ts, []);
    assert StreamBytes(four, ts) + [] == StreamBytes(four, ts);
    PaintCell(MeantAll(ts), 0, 0, map[], c, r);
    CellNext(ts, 0, 0, c, r, 0);
    RowsCell(rows, right, down, c, r, 0);
  }
}
