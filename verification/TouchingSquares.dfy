/** Two squares side by side: they make a rectangle, but not the region the builder makes of one. */
module TouchingSquares {
  import opened Arithmetic
  import opened Words
  import opened RegionFormat
  import opened RegionRows
  import opened RegionBuilder
  import opened RegionCanonical
  import opened PolygonRows
  import opened PolygonSpans
  import opened PolygonTouch
  import opened Polygons

  function Square(l: int): Polygon {
    Rectangle(l, 0, l + 4, 4)
  }

  /** The squares at columns l and m, in that order. */
  function Squares(l: int, m: int): seq<Polygon> {
    [Square(l), Square(m)]
  }

  // ---- Where they are crossed ----

  lemma SquareFits(l: int)
    requires 0 <= l <= 4
    ensures PolygonFits(Square(l))
  {
    var p := Square(l);
    forall j | 0 <= j < 4
      ensures EdgeFits(p[j], Next(p, j))
    {
      assert Abs(Next(p, j).x - p[j].x) == 0 || Abs(Next(p, j).y - p[j].y) == 0;
    }
  }

  lemma SquareCrosses(l: int, y: int)
    requires 0 <= y < 4
    ensures EdgeCrossings(Square(l), y, 4) == [Crossing(l + 4, 1), Crossing(l, -1)]
  {
    RectangleEdges(l, 0, l + 4, 4, y);
  }

  lemma SquaresCross(l: int, m: int, y: int)
    requires 0 <= y < 4
    ensures Crossings(Squares(l, m), y) ==
        [Crossing(l + 4, 1), Crossing(l, -1), Crossing(m + 4, 1), Crossing(m, -1)]
  {
    SquareCrosses(l, y);
    SquareCrosses(m, y);
    var ps := Squares(l, m);
    assert |ps[0]| == |ps[1]| == 4 && ps[..1] == [Square(l)] && ps[..1][..0] == [];
    hide EdgeCrossings, Square;
    assert Crossings(ps[..1], y) == [] + EdgeCrossings(Square(l), y, 4);
  }

  lemma SquaresWithin(l: int, m: int)
    ensures Within(Squares(l, m), 0, 4)
  {
  }

  // ---- Their rows ----

  lemma IntoOne(a: Crossing, c: Crossing)
    ensures Insert([a], c) == if a.x <= c.x then [a, c] else [c, a]
  {
    assert [a][..0] == [];
  }

  lemma IntoTwo(a: Crossing, b: Crossing, c: Crossing)
    requires a.x <= b.x
    ensures Insert([a, b], c) ==
            if b.x <= c.x then [a, b, c] else if a.x <= c.x then [a, c, b] else [c, a, b]
  {
    assert [a, b][..1] == [a];
    IntoOne(a, c);
  }

  lemma IntoThree(a: Crossing, b: Crossing, c: Crossing, d: Crossing)
    requires a.x <= b.x <= c.x
    ensures Insert([a, b, c], d) ==
            if c.x <= d.x then [a, b, c, d] else if b.x <= d.x then [a, b, d, c]
            else if a.x <= d.x then [a, d, b, c] else [d, a, b, c]
  {
    assert [a, b, c][..2] == [a, b];
    IntoTwo(a, b, d);
  }

  lemma SortedFour(a: Crossing, b: Crossing, c: Crossing, d: Crossing)
    ensures Sorted([a, b, c, d]) == Insert(Insert(Insert([a], b), c), d)
  {
    assert [a, b, c, d][..3] == [a, b, c] && [a, b, c][..2] == [a, b] && [a, b][..1] == [a] && [a][..0] == [];
    assert Sorted([a]) == [a];
    hide Insert;
    assert Sorted([a, b]) == Insert([a], b);
    assert Sorted([a, b, c]) == Insert(Insert([a], b), c);
  }

  lemma LeftFirst()
    ensures Sorted([Crossing(4, 1), Crossing(0, -1), Crossing(8, 1), Crossing(4, -1)])
        == [Crossing(0, -1), Crossing(4, 1), Crossing(4, -1), Crossing(8, 1)]
  {
    var a, b, c, d := Crossing(4, 1), Crossing(0, -1), Crossing(8, 1), Crossing(4, -1);
    hide Sorted, Insert;
    SortedFour(a, b, c, d);
    IntoOne(a, b);
    IntoTwo(b, a, c);
    IntoThree(b, a, c, d);
  }

  lemma RightFirst()
    ensures Sorted([Crossing(8, 1), Crossing(4, -1), Crossing(4, 1), Crossing(0, -1)])
        == [Crossing(0, -1), Crossing(4, -1), Crossing(4, 1), Crossing(8, 1)]
  {
    var a, b, c, d := Crossing(8, 1), Crossing(4, -1), Crossing(4, 1), Crossing(0, -1);
    hide Sorted, Insert;
    SortedFour(a, b, c, d);
    IntoOne(a, b);
    IntoTwo(b, a, c);
    IntoThree(b, c, a, d);
  }

  lemma TotalsFour(cs: seq<Crossing>, fill: Fill)
    requires |cs| == 4
    ensures Total(cs[..1], fill) == Worth(cs[0], fill)
    ensures Total(cs[..2], fill) == Worth(cs[0], fill) + Worth(cs[1], fill)
    ensures Total(cs[..3], fill) == Worth(cs[0], fill) + Worth(cs[1], fill) + Worth(cs[2], fill)
    ensures Total(cs[..4], fill) == Worth(cs[0], fill) + Worth(cs[1], fill) + Worth(cs[2], fill) + Worth(cs[3], fill)
  {
    assert cs[..0] == [] && Total([], fill) == 0;
    TallyNext(cs, 0, fill, 0);
    TallyNext(cs, 1, fill, 0);
    TallyNext(cs, 2, fill, 0);
    TallyNext(cs, 3, fill, 0);
  }

  /** The span is closed and opened again at column 4. */
  lemma ClosedBetween(fill: Fill)
    ensures var cs := [Crossing(0, -1), Crossing(4, 1), Crossing(4, -1), Crossing(8, 1)];
            Fits16(cs) && SpansOf(cs, fill) == [0, 4, 4, 8]
  {
    var cs := [Crossing(0, -1), Crossing(4, 1), Crossing(4, -1), Crossing(8, 1)];
    TotalsFour(cs, fill);
    ScanOnce(cs, fill, 0);
    ScanOnce(cs, fill, 1);
    ScanOnce(cs, fill, 2);
    ScanOnce(cs, fill, 3);
    assert ScanTo(cs, fill, 0) == Scan([], false, 0);
    hide Total, ScanTo;
  }

  /** By the winding rule the other order keeps it open there. */
  lemma OpenBetween()
    ensures var cs := [Crossing(0, -1), Crossing(4, -1), Crossing(4, 1), Crossing(8, 1)];
            Fits16(cs) && SpansOf(cs, Winding) == [0, 8]
  {
    var cs := [Crossing(0, -1), Crossing(4, -1), Crossing(4, 1), Crossing(8, 1)];
    TotalsFour(cs, Winding);
    ScanOnce(cs, Winding, 0);
    ScanOnce(cs, Winding, 1);
    ScanOnce(cs, Winding, 2);
    ScanOnce(cs, Winding, 3);
    assert ScanTo(cs, Winding, 0) == Scan([], false, 0);
    hide Total, ScanTo;
  }

  // ---- Their region ----

  lemma SquaresDrawable(l: int, m: int)
    requires 0 <= l <= 4 && 0 <= m <= 4
    ensures Drawable(Squares(l, m))
  {
    SquareFits(l);
    SquareFits(m);
    hide PolygonFits;
  }

  lemma SquaresEmpty(l: int, m: int, fill: Fill, y: int)
    requires Drawable(Squares(l, m)) && !(0 <= y < 4)
    ensures PolyRow(Squares(l, m), fill, y) == []
  {
    SquaresWithin(l, m);
    NoCrossings(Squares(l, m), 0, 4, y);
    hide Drawable, Crossings;
    assert Sorted([]) == [];
  }

  lemma LeftFirstRow(fill: Fill, y: int)
    requires Drawable(Squares(0, 4)) && 0 <= y < 4
    ensures PolyRow(Squares(0, 4), fill, y) == [0, 4, 4, 8]
  {
    hide Drawable, Crossings, Sorted, SpansOf, Square, Squares, Fits16;
    SquaresCross(0, 4, y);
    LeftFirst();
    ClosedBetween(fill);
  }

  lemma RightFirstRow(y: int)
    requires Drawable(Squares(4, 0)) && 0 <= y < 4
    ensures PolyRow(Squares(4, 0), Winding, y) == [0, 8]
  {
    hide Drawable, Crossings, Sorted, SpansOf, Square, Squares, Fits16;
    SquaresCross(4, 0, y);
    RightFirst();
    OpenBetween();
  }

  lemma LeftFirstNarrow(fill: Fill)
    requires Drawable(Squares(0, 4))
    ensures NarrowPolygons(Squares(0, 4), fill)
  {
    hide PolyRow, Drawable;
    forall y
      ensures |PolyRow(Squares(0, 4), fill, y)| <= 2 * MAX_SPANS
    {
      if 0 <= y < 4 {
        LeftFirstRow(fill, y);
      } else {
        SquaresEmpty(0, 4, fill, y);
      }
    }
  }

  lemma FourPoints(x: int)
    ensures InRow([0, 4, 4, 8], x) <==> 0 <= x < 8
    ensures !IsStrict([0, 4, 4, 8])
  {
    var row: seq<Int16> := [0, 4, 4, 8];
    assert InSpan(row, 0, x) <==> 0 <= x < 4;
    assert InSpan(row, 1, x) <==> 4 <= x < 8;
    assert row[1] == row[2];
  }

  lemma LeftFirstInside(fill: Fill, x: int, y: int)
    requires Drawable(Squares(0, 4))
    ensures Inside(Squares(0, 4), fill, x, y) <==> 0 <= x < 8 && 0 <= y < 4
  {
    PolyRowInside(Squares(0, 4), fill, y);
    hide Drawable, PolyRow, InRow, IsStrict, IsRow, Splits, Inside;
    if 0 <= y < 4 {
      LeftFirstRow(fill, y);
      FourPoints(x);
    } else {
      SquaresEmpty(0, 4, fill, y);
      NoPoints(x);
    }
  }

  lemma RectRowsStrict()
    ensures AreStrict(EqualRows([0, 0 + 8], 4)) && RectInRange(0, 0, 8, 4)
  {
  }

  lemma BuiltIsCanonical(r: Region, y0: int, rows: seq<seq<Int16>>)
    requires Fits(y0, rows) && NarrowRows(rows) && AreStrict(rows) && r == RegionOfRows(y0, rows)
    ensures Canonical(r)
  {
    hide Fits, NarrowRows, AreStrict, RegionOfRows;
    assert CanonicalOf(r, y0, rows);
  }

  lemma RectangleCanonical()
    ensures Canonical(CreateRectRegion(0, 0, 8, 4)) && RectInRange(0, 0, 8, 4)
  {
    hide CreateRectRegion, RegionOfRows, Fits, NarrowRows, AreStrict, EqualRows, Canonical, RectInRange;
    RectRowsStrict();
    RectCanonical(0, 0, 8, 4);
    BuiltIsCanonical(CreateRectRegion(0, 0, 8, 4), 0, EqualRows([0, 0 + 8], 4));
  }

  /** Two squares side by side hold the points of a rectangle, but their spans touch in every row, and the region
      made of them is not the rectangle's. */
  lemma SquaresTouch(fill: Fill)
    ensures Drawable(Squares(0, 4)) && NarrowPolygons(Squares(0, 4), fill)
    ensures forall y :: 0 <= y < 4 ==> PolyRow(Squares(0, 4), fill, y) == [0, 4, 4, 8]
    ensures !Canonical(PolyRegion(Squares(0, 4), fill)) && Canonical(CreateRectRegion(0, 0, 8, 4))
    ensures forall x, y ::
              InRegion(PolyRegion(Squares(0, 4), fill), x, y) <==> InRegion(CreateRectRegion(0, 0, 8, 4), x, y)
  {
    hide *;
    SquaresDrawable(0, 4);
    LeftFirstNarrow(fill);
    RectangleCanonical();
    RectRegion(0, 0, 8, 4);
    PolyRegionPoints(Squares(0, 4), fill);
    forall x, y
      ensures Inside(Squares(0, 4), fill, x, y) <==> 0 <= x < 0 + 8 && 0 <= y < 0 + 4
    {
      LeftFirstInside(fill, x, y);
    }
    forall y | 0 <= y < 4 ensures PolyRow(Squares(0, 4), fill, y) == [0, 4, 4, 8] { LeftFirstRow(fill, y); }
    PolyRowInside(Squares(0, 4), fill, 0);
    FourPoints(0);
    SplitIs(Squares(0, 4), fill, 0);
    PolyRegionCanonicalIff(Squares(0, 4), fill);
  }

  lemma SplitIs(ps: seq<Polygon>, fill: Fill, y: int)
    ensures RowSplits(ps, fill, y) <==> Splits(Sorted(Crossings(ps, y)), fill)
  {
  }

  /** By the winding rule the same squares the other way round make spans that do not touch. */
  lemma SquaresJoined()
    ensures Drawable(Squares(4, 0))
    ensures forall y :: 0 <= y < 4 ==> PolyRow(Squares(4, 0), Winding, y) == [0, 8]
  {
    hide *;
    SquaresDrawable(4, 0);
    forall y | 0 <= y < 4 ensures PolyRow(Squares(4, 0), Winding, y) == [0, 8] { RightFirstRow(y); }
  }
}
