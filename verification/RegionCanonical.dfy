/** What a finished build promises: the points of the rows fed, in a form that
    depends on nothing but those points; and the rectangle shortcut around it. */
module RegionCanonical {
  import opened Words
  import opened Options
  import opened RegionFormat
  import opened RegionRows
  import opened RegionTokens
  import opened RegionBuilder

  /** Decoding a built region gives back the bands, and so exactly the points, of the rows fed. */
  lemma BuiltRegion(y0: int, rows: seq<seq<Int16>>)
    requires Fits(y0, rows) && NarrowRows(rows)
    ensures WellFormed(RegionOfRows(y0, rows))
    ensures BandsOf(RegionOfRows(y0, rows)) == BandsOfRows(y0, rows)
    ensures forall x, y :: InRegion(RegionOfRows(y0, rows), x, y) <==> InRows(y0, rows, x, y)
  {
    hide Decode, Encoded, BandsOfRows;
    BandsGood(y0, rows);
    var bs := BandsOfRows(y0, rows);
    DecodeEncoded(bs);
    forall x, y
      ensures InBands(bs, x, y) <==> InRows(y0, rows, x, y)
    {
      BandsHoldRows(y0, rows, x, y);
    }
  }

  /** Canonical form: builds of the same points in strict rows give the same header and the same bytes. */
  lemma BuiltCanonical(y0: int, rows: seq<seq<Int16>>, z0: int, others: seq<seq<Int16>>)
    requires Fits(y0, rows) && NarrowRows(rows) && Fits(z0, others) && NarrowRows(others)
    requires AreStrict(rows) && AreStrict(others)
    ensures SamePoints(y0, rows, z0, others) <==> RegionOfRows(y0, rows) == RegionOfRows(z0, others)
  {
    hide Fits, NarrowRows, AreStrict, RegionOfRows, BandsOfRows;
    BuiltRegion(y0, rows);
    BuiltRegion(z0, others);
    if SamePoints(y0, rows, z0, others) {
      SameRegion(y0, rows, z0, others);
    }
    if RegionOfRows(y0, rows) == RegionOfRows(z0, others) {
      forall x, y
        ensures InRows(y0, rows, x, y) <==> InRows(z0, others, x, y)
      {
        assert InRegion(RegionOfRows(y0, rows), x, y) <==> InRows(y0, rows, x, y);
      }
    }
  }

  lemma SameRegion(y0: int, rows: seq<seq<Int16>>, z0: int, others: seq<seq<Int16>>)
    requires Fits(y0, rows) && NarrowRows(rows) && Fits(z0, others) && NarrowRows(others)
    requires AreStrict(rows) && AreStrict(others) && SamePoints(y0, rows, z0, others)
    ensures RegionOfRows(y0, rows) == RegionOfRows(z0, others)
  {
    CanonicalBands(y0, rows, z0, others);
  }

  /** The builder makes this region of strict rows; by CanonicalUnique its points determine it. */
  ghost predicate Canonical(r: Region) {
    exists y0, rows :: CanonicalOf(r, y0, rows)
  }

  ghost predicate CanonicalOf(r: Region, y0: int, rows: seq<seq<Int16>>) {
    Fits(y0, rows) && NarrowRows(rows) && AreStrict(rows) && r == RegionOfRows(y0, rows)
  }

  /** The bands of a canonical region are strict. */
  lemma CanonicalStrict(r: Region)
    requires Canonical(r)
    ensures WellFormed(r) && EachStrict(BandsOf(r))
  {
    hide Fits, NarrowRows, AreStrict, RegionOfRows, EachStrict, WellFormed, BandsOf, BandsOfRows;
    var y0, rows :| CanonicalOf(r, y0, rows);
    BuiltRegion(y0, rows);
    BandsStrictIff(y0, rows);
  }

  /** A region with the same points as another canonical one is that one. */
  lemma CanonicalUnique(r: Region, s: Region)
    requires Canonical(r) && Canonical(s)
    ensures r == s <==> forall x, y :: InRegion(r, x, y) <==> InRegion(s, x, y)
  {
    hide Fits, NarrowRows, AreStrict, RegionOfRows, WellFormed, InRegion, InRows;
    var y0, rows :| CanonicalOf(r, y0, rows);
    var z0, others :| CanonicalOf(s, z0, others);
    BuiltRegion(y0, rows);
    BuiltRegion(z0, others);
    if forall x, y :: InRegion(r, x, y) <==> InRegion(s, x, y) {
      assert SamePoints(y0, rows, z0, others);
    }
    BuiltCanonical(y0, rows, z0, others);
  }

  /** What is built of rows is canonical exactly if they are strict; otherwise joining their spans gives other bytes for
      the same points. */
  lemma BuiltCanonicalIff(y0: int, rows: seq<seq<Int16>>)
    requires Fits(y0, rows) && NarrowRows(rows)
    ensures Canonical(RegionOfRows(y0, rows)) <==> AreStrict(rows)
    ensures Fits(y0, UnsplitRows(rows)) && NarrowRows(UnsplitRows(rows)) && AreStrict(UnsplitRows(rows))
    ensures SamePoints(y0, rows, y0, UnsplitRows(rows))
    ensures RegionOfRows(y0, rows) == RegionOfRows(y0, UnsplitRows(rows)) <==> AreStrict(rows)
  {
    hide Fits, NarrowRows, AreStrict, RegionOfRows, UnsplitRows, SamePoints, EachStrict, WellFormed, BandsOf,
         BandsOfRows;
    BuiltRegion(y0, rows);
    BandsStrictIff(y0, rows);
    UnsplitRowsFit(y0, rows);
    if AreStrict(rows) {
      assert CanonicalOf(RegionOfRows(y0, rows), y0, rows);
    }
    if Canonical(RegionOfRows(y0, rows)) {
      CanonicalStrict(RegionOfRows(y0, rows));
    }
    assert CanonicalOf(RegionOfRows(y0, UnsplitRows(rows)), y0, UnsplitRows(rows));
  }

  // ---- The 14-bit span count ----

  /** The bytes full mode writes for a band, whatever its number of spans. */
  function FullBytes(y0: Int16, y1: Int16, pts: seq<Int16>): seq<Byte> {
    var spans := |pts| / 2;
    [0x80 + 0x40 + spans % 64, spans / 64 % 256, LowByte(y0), HighByte(y0), LowByte(y1), HighByte(y1)]
    + WordBytes(pts)
  }

  /** Full mode can be read back exactly when the number of spans fits its 14 bits. */
  lemma FullModeLimit(y0: Int16, y1: Int16, pts: seq<Int16>)
    requires |pts| % 2 == 0 && pts != []
    ensures ParseToken(FullBytes(y0, y1, pts)) == Some((Full(y0, y1, pts), 6 + 2 * |pts|)) <==> |pts| / 2 <= MAX_SPANS
  {
    var s := FullBytes(y0, y1, pts);
    var spans := |pts| / 2;
    if spans <= MAX_SPANS {
      assert spans / 64 % 256 == spans / 64;
      assert FullHeader(y0, y1, spans) + WordBytes(pts) + [] == s;
      ParseFullBytes(y0, y1, pts, []);
    } else {
      assert s[0] as int % 64 + 64 * (s[1] as int) <= MAX_SPANS;
    }
  }

  // ---- Rectangles ----

  /** CdCreateRectRegion: writes its single full-mode band directly. */
  function CreateRectRegion(x: int, y: int, width: int, height: int): Region {
    if width <= 0 || height <= 0 then NoData
    else
      Data(1, 0, 0,
           [0x80 + 0x40 + 1, 0]
           + WordBytes([ToInt16(y), ToInt16(y + height)])
           + WordBytes([ToInt16(x), ToInt16(x + width)]))
  }

  predicate RectInRange(x: int, y: int, width: int, height: int) {
    InRange(x) && InRange(y) && (width > 0 && height > 0 ==> InRange(x + width) && InRange(y + height))
  }

  lemma RectBytes(y0: Int16, y1: Int16, x0: Int16, x1: Int16)
    ensures [0x80 + 0x40 + 1, 0] + WordBytes([y0, y1]) + WordBytes([x0, x1])
         == Serialize([Full(y0, y1, [x0, x1])])
  {
    var t := Full(y0, y1, [x0, x1]);
    assert Serialize([t]) == TokenBytes(t) + Serialize([]);
    assert [0x80 + 0x40 + 1, 0] + WordBytes([y0, y1]) == FullHeader(y0, y1, 1);
  }

  lemma RectIsEncoded(b: Band)
    requires GoodBand(b) && |b.pts| == 2
    ensures EachGood([b])
    ensures [0x80 + 0x40 + 1, 0] + WordBytes([b.y0, b.y1]) + WordBytes(b.pts) == Encoded([b])
  {
    hide GoodBand, WordBytes, TokenBytes;
    var t := Full(b.y0, b.y1, b.pts);
    RectBytes(b.y0, b.y1, b.pts[0], b.pts[1]);
    assert b.pts == [b.pts[0], b.pts[1]];
    assert Front([b]) == [] && Tokens([b]) == AppendToken(Tokens([]), t);
    assert AppendToken(Tokens([]), t) == [t];
  }

  /** A rectangle region holds exactly the points of the rectangle. */
  lemma RectRegion(x: int, y: int, width: int, height: int)
    requires RectInRange(x, y, width, height)
    ensures WellFormed(CreateRectRegion(x, y, width, height))
    ensures forall px, py ::
              InRegion(CreateRectRegion(x, y, width, height), px, py) <==> x <= px < x + width && y <= py < y + height
  {
    hide Decode, Encoded, WordBytes;
    if width > 0 && height > 0 {
      var b := Band(y, y + height, [x, x + width]);
      RectIsEncoded(b);
      DecodeEncoded([b]);
      forall px, py
        ensures InBands([b], px, py) <==> x <= px < x + width && y <= py < y + height
      {
        InRowAt(b.pts, if px < x then 0 else if px < x + width then 1 else 2, px);
        assert [b][0] == b;
      }
    }
  }

  /** One scanline fed n times. */
  function EqualRows(row: seq<Int16>, n: nat): seq<seq<Int16>> {
    seq(n, _ => row)
  }

  lemma {:induction false} FedEqualRows(y0: int, row: seq<Int16>, n: nat)
    requires row != []
    ensures n > 0 ==> Fed(y0, EqualRows(row, n)).cur == Some(row)
    ensures 0 < n <= MAX_HEIGHT ==> Fed(y0, EqualRows(row, n)) == Build([], y0, Some(row), n)
    ensures n > MAX_HEIGHT ==> |Fed(y0, EqualRows(row, n)).done| >= 1
  {
    if n > 0 {
      var rows := EqualRows(row, n);
      FedEqualRows(y0, row, n - 1);
      assert Front(rows) == EqualRows(row, n - 1);
    }
  }

  lemma RectGood(y0: Int16, y1: Int16, x0: Int16, x1: Int16)
    requires y0 < y1 && x0 < x1
    ensures GoodBand(Band(y0, y1, [x0, x1]))
  {
  }

  lemma RectRows(y0: int, row: seq<Int16>, n: nat)
    requires IsRow(row) && |row| == 2 && -0x8000 <= y0 && y0 + n <= 0x7FFF
    ensures Fits(y0, EqualRows(row, n)) && NarrowRows(EqualRows(row, n))
  {
    hide IsRow;
  }

  lemma TallRows(y0: int, row: seq<Int16>, n: nat)
    requires row != [] && n > MAX_HEIGHT
    requires Fits(y0, EqualRows(row, n)) && NarrowRows(EqualRows(row, n))
    ensures RegionOfRows(y0, EqualRows(row, n)).Data? && RegionOfRows(y0, EqualRows(row, n)).numBands >= 2
  {
    hide Encoded, Fits, NarrowRows, Fed;
    FedEqualRows(y0, row, n);
  }

  lemma ShortRows(y0: Int16, row: seq<Int16>, n: nat)
    requires row != [] && 0 < n <= MAX_HEIGHT && y0 + n <= 0x7FFF
    requires Fits(y0, EqualRows(row, n)) && NarrowRows(EqualRows(row, n))
    ensures EachGood([Band(y0, y0 + n, row)])
    ensures RegionOfRows(y0, EqualRows(row, n)) == Data(1, 0, 0, Encoded([Band(y0, y0 + n, row)]))
  {
    hide Encoded, Fits, NarrowRows, Fed, GoodBand;
    FedEqualRows(y0, row, n);
    BandsGood(y0, EqualRows(row, n));
    assert BandsOfRows(y0, EqualRows(row, n)) == [Band(y0, y0 + n, row)];
  }

  /** The shortcut gives the builder's own bytes exactly for heights the builder keeps in one band. */
  lemma RectCanonical(x: int, y: int, width: int, height: int)
    requires RectInRange(x, y, width, height) && width > 0 && height > 0
    ensures var rows := EqualRows([x, x + width], height);
            Fits(y, rows) && NarrowRows(rows)
            && (CreateRectRegion(x, y, width, height) == RegionOfRows(y, rows) <==> height <= MAX_HEIGHT)
  {
    hide Encoded, WordBytes, Fits, NarrowRows, RegionOfRows, GoodBand;
    var row: seq<Int16> := [x, x + width];
    var rows := EqualRows(row, height);
    RectRows(y, row, height);
    if height <= MAX_HEIGHT {
      var b := Band(y, y + height, row);
      ShortRows(y, row, height);
      assert GoodBand(b) by { RectGood(y, y + height, x, x + width); }
      RectIsEncoded(b);
    } else {
      TallRows(y, row, height);
    }
  }
}
