/** The region of a set of polygons, built row by row. */
module Polygons {
  import opened Arithmetic
  import opened Words
  import opened RegionFormat
  import opened RegionRows
  import opened RegionBuilder
  import opened RegionCanonical
  import opened PolygonRows
  import opened PolygonSpans
  import opened PolygonTouch

  // ---- Which polygons can be drawn ----

  predicate InWord(x: int) {
    -0x8000 <= x <= 0x7FFF
  }

  /** The edge starts inside the range of a region, and the product the crossing is worked out from fits 32 bits. */
  predicate EdgeFits(a: Vertex, b: Vertex) {
    InWord(a.x) && InWord(a.y) && Abs(b.x - a.x) * Abs(b.y - a.y) <= 0x7FFF_FFFF
  }

  predicate PolygonFits(p: Polygon) {
    forall j :: 0 <= j < |p| ==> EdgeFits(p[j], Next(p, j))
  }

  predicate Drawable(ps: seq<Polygon>) {
    forall i :: 0 <= i < |ps| && |ps[i]| >= 3 ==> PolygonFits(ps[i])
  }

  lemma Share(m: nat, t: nat, e: nat)
    requires e > 0 && t <= e
    ensures m * t >= 0 && 0 <= m * t / e <= m && m * t <= m * e
  {
    Multiples(t, e, m);
    assert m * t == t * m && m * e == e * m;
    var q := m * t / e;
    assert q * e <= m * t;
    if q > m {
      Multiples(m + 1, q, e);
    }
  }

  lemma DivideByMinus(n: nat, e: nat)
    requires e > 0
    ensures n / -(e as int) == -(n / e)
  {
    var q, r := n / e, n % e;
    assert n == q * e + r && n == -q * -(e as int) + r;
  }

  /** A crossing lies between the ends of its edge. */
  lemma CrossingBetween(a: Vertex, b: Vertex, y: int)
    requires Crosses(a, b, y) && EdgeFits(a, b)
    ensures var x := CrossingOf(a, b, y).x; a.x <= x <= b.x || b.x <= x <= a.x
  {
    var m, t, e := Abs(b.x - a.x), Abs(y - a.y), Abs(b.y - a.y);
    var n, d := (b.x - a.x) * (y - a.y), b.y - a.y;
    Share(m, t, e);
    Signs(b.x - a.x, y - a.y);
    var size: int := m * t;
    assert n == size || n == -size;
    WrapNot(n);
    QuotientWithin(n, d, m);
    SameSide(b.x - a.x, y - a.y, d);
    hide TruncDiv, Wrap32;
  }

  lemma WrapNot(n: int)
    requires -0x7FFF_FFFF <= n <= 0x7FFF_FFFF
    ensures Wrap32(n) == n
  {
  }

  lemma QuotientWithin(n: int, d: int, m: int)
    requires d != 0 && Abs(n) / Abs(d) <= m
    ensures -m <= TruncDiv(n, d) <= m
  {
    DivideByMinus(Abs(n), Abs(d));
  }

  lemma Signs(p: int, q: int)
    ensures p * q == (if (p < 0) == (q < 0) then Abs(p) * Abs(q) else -(Abs(p) * Abs(q)))
  {
    if p < 0 && q < 0 {
      assert p * q == -p * -q;
    } else if p < 0 {
      assert p * q == -(-p * q);
    } else if q < 0 {
      assert p * q == -(p * -q);
    }
  }

  /** The quotient lies on the side the edge goes to. */
  lemma SameSide(dx: int, t: int, d: int)
    requires d != 0 && (0 <= t < d || d <= t < 0)
    ensures dx >= 0 ==> TruncDiv(dx * t, d) >= 0
    ensures dx <= 0 ==> TruncDiv(dx * t, d) <= 0
  {
    Signs(dx, t);
    var n: nat := Abs(dx) * Abs(t);
    DivideByMinus(n, Abs(d));
  }

  lemma QuotientNear(n: int, d: int)
    requires d != 0
    ensures var rest := n - TruncDiv(n, d) * d;
            -Abs(d) < rest < Abs(d) && (n >= 0 ==> rest >= 0) && (n <= 0 ==> rest <= 0)
  {
    if n >= 0 {
      assert n == n / d * d + n % d;
    } else {
      assert -n == -n / d * d + -n % d;
    }
  }

  /** An edge crosses the rows from its upper end to just above its lower one, where its line is: the crossing is less
      than a column away from that, on the side of the corner the edge comes from; and it counts downwards. */
  lemma CrossingOnLine(a: Vertex, b: Vertex, y: int)
    requires EdgeFits(a, b)
    ensures Crosses(a, b, y) <==> (if a.y < b.y then a.y <= y < b.y else b.y <= y < a.y)
    ensures Crosses(a, b, y) ==>
              var c, dx, dy := CrossingOf(a, b, y), b.x - a.x, b.y - a.y;
              var off := dx * (y - a.y) - (c.x - a.x) * dy;
              && -Abs(dy) < off < Abs(dy)
              && (dx * (y - a.y) >= 0 ==> off >= 0) && (dx * (y - a.y) <= 0 ==> off <= 0)
              && (a.x <= c.x <= b.x || b.x <= c.x <= a.x)
              && c.direction == (if dy > 0 then 1 else -1)
  {
    if Crosses(a, b, y) {
      var m, t, e := Abs(b.x - a.x), Abs(y - a.y), Abs(b.y - a.y);
      CrossingBetween(a, b, y);
      Share(m, t, e);
      Signs(b.x - a.x, y - a.y);
      WrapNot((b.x - a.x) * (y - a.y));
      QuotientNear((b.x - a.x) * (y - a.y), b.y - a.y);
      hide TruncDiv, Wrap32;
    }
  }

  function Rectangle(x0: int, y0: int, x1: int, y1: int): Polygon {
    [Vertex(x0, y0), Vertex(x1, y0), Vertex(x1, y1), Vertex(x0, y1)]
  }

  lemma NextEdge(p: Polygon, y: int, n: nat)
    requires 0 < n <= |p|
    ensures EdgeCrossings(p, y, n) ==
            EdgeCrossings(p, y, n - 1)
            + if Crosses(p[n - 1], Next(p, n - 1), y) then [CrossingOf(p[n - 1], Next(p, n - 1), y)] else []
  {
  }

  lemma UprightEdge(x: int, from: int, to: int, y: int)
    requires Crosses(Vertex(x, from), Vertex(x, to), y)
    ensures CrossingOf(Vertex(x, from), Vertex(x, to), y) == Crossing(x, if from < to then 1 else -1)
  {
    assert (x - x) * (y - from) == 0;
  }

  lemma RectangleEdges(x0: int, y0: int, x1: int, y1: int, y: int)
    requires y0 < y1
    ensures EdgeCrossings(Rectangle(x0, y0, x1, y1), y, 4) ==
        if y0 <= y < y1 then [Crossing(x1, 1), Crossing(x0, -1)] else []
  {
    var p := Rectangle(x0, y0, x1, y1);
    if y0 <= y < y1 {
      UprightEdge(x1, y0, y1, y);
      UprightEdge(x0, y1, y0, y);
    }
    assert EdgeCrossings(p, y, 0) == [];
    NextEdge(p, y, 1);
    NextEdge(p, y, 2);
    NextEdge(p, y, 3);
    NextEdge(p, y, 4);
    hide EdgeCrossings, CrossingOf;
  }

  lemma RectangleCrosses(x0: int, y0: int, x1: int, y1: int, y: int)
    requires y0 < y1
    ensures Crossings([Rectangle(x0, y0, x1, y1)], y) ==
        if y0 <= y < y1 then [Crossing(x1, 1), Crossing(x0, -1)] else []
  {
    RectangleEdges(x0, y0, x1, y1, y);
    var p := Rectangle(x0, y0, x1, y1);
    assert [p][..0] == [];
    hide EdgeCrossings;
    assert Crossings([p], y) == [] + EdgeCrossings(p, y, 4);
  }

  /** By either rule a pixel is inside a rectangle exactly if it is: its left and upper edges count, the others not. */
  lemma RectangleInside(x0: int, y0: int, x1: int, y1: int, fill: Fill, x: int, y: int)
    requires x0 < x1 && y0 < y1
    ensures Inside([Rectangle(x0, y0, x1, y1)], fill, x, y) <==> x0 <= x < x1 && y0 <= y < y1
  {
    RectangleCrosses(x0, y0, x1, y1, y);
    hide Crossings;
    var right, left := Crossing(x1, 1), Crossing(x0, -1);
    assert [right, left][..1] == [right] && [right][..0] == [];
    assert Tally([right], fill, x) == if x1 <= x then Worth(right, fill) else 0;
    assert Tally([right, left], fill, x) == Tally([right], fill, x) + if x0 <= x then Worth(left, fill) else 0;
  }

  lemma {:induction false} EdgesFit(p: Polygon, y: int, n: nat)
    requires PolygonFits(p) && n <= |p|
    ensures Fits16(EdgeCrossings(p, y, n))
  {
    if n > 0 {
      EdgesFit(p, y, n - 1);
      var a, b := p[n - 1], Next(p, n - 1);
      assert EdgeFits(a, b);
      assert InWord(b.x) by {
        assert EdgeFits(p[if n == |p| then 0 else n], Next(p, if n == |p| then 0 else n));
      }
      if Crosses(a, b, y) {
        CrossingBetween(a, b, y);
      }
    }
  }

  lemma {:induction false} CrossingsFit(ps: seq<Polygon>, y: int)
    requires Drawable(ps)
    ensures Fits16(Crossings(ps, y))
  {
    if ps != [] {
      var n := |ps| - 1;
      CrossingsFit(ps[..n], y);
      if |ps[n]| >= 3 {
        EdgesFit(ps[n], y, |ps[n]|);
      }
    }
  }

  // ---- Rows ----

  /** The crossings of a row, edge by edge. */
  method RowCrossings(ps: seq<Polygon>, y: int) returns (cs: seq<Crossing>)
    ensures cs == Crossings(ps, y)
  {
    cs := [];
    for p := 0 to |ps|
      invariant cs == Crossings(ps[..p], y)
    {
      assert ps[..p + 1][..p] == ps[..p];
      if |ps[p]| >= 3 {
        ghost var before := cs;
        for i := 0 to |ps[p]|
          invariant cs == before + EdgeCrossings(ps[p], y, i)
        {
          var next := (i + 1) % |ps[p]|;
          NextIndex(ps[p], i);
          var a, b := ps[p][i], ps[p][next];
          if a.y != b.y && ((a.y <= y && y < b.y) || (b.y <= y && y < a.y)) {
            cs := cs + [CrossingOf(a, b, y)];
          }
        }
      }
    }
    assert ps[..|ps|] == ps;
  }

  lemma NextIndex(p: Polygon, i: nat)
    requires i < |p|
    ensures p[(i + 1) % |p|] == Next(p, i)
  {
    if i + 1 < |p| {
      assert (i + 1) % |p| == i + 1;
    } else {
      assert |p| % |p| == 0;
    }
  }

  /** The columns of a row that are inside. */
  ghost predicate RowInside(ps: seq<Polygon>, fill: Fill, row: seq<Int16>, y: int) {
    forall x :: InRow(row, x) <==> Inside(ps, fill, x, y)
  }

  /** What crosses a row, by column, closes every span it opens. */
  lemma SortedCrossings(ps: seq<Polygon>, fill: Fill, y: int)
    ensures var cs := Sorted(Crossings(ps, y));
            && SortedTo(cs, 0) && Closed(cs, fill) && |cs| % 2 == 0 && (Drawable(ps) ==> Fits16(cs))
            && forall x :: Counts(Tally(cs, fill, x), fill) <==> Inside(ps, fill, x, y)
  {
    if Drawable(ps) { CrossingsFit(ps, y); }
    RowBalances(ps, y);
    TotalCount(Crossings(ps, y));
    SortedSorts(Crossings(ps, y));
    SortedShuffles(Crossings(ps, y));
    hide Tally, Total, Sorted, Crossings, Drawable, At;
    ShuffledAlike(Crossings(ps, y), Sorted(Crossings(ps, y)));
  }

  lemma ShuffledAlike(a: seq<Crossing>, b: seq<Crossing>)
    requires Shuffled(a, b)
    ensures |a| == |b| && (Fits16(a) ==> Fits16(b)) && (EachWay(a) ==> EachWay(b))
  {
    assert |a| == |multiset(a)| && |b| == |multiset(b)|;
    forall i | 0 <= i < |b|
      ensures b[i] in a
    {
      assert b[i] in multiset(b) && b[i] in multiset(a);
    }
  }

  /** The spans of a row. */
  function PolyRow(ps: seq<Polygon>, fill: Fill, y: int): seq<Int16>
    requires Drawable(ps)
  {
    SortedCrossings(ps, fill, y);
    SpansOf(Sorted(Crossings(ps, y)), fill)
  }

  lemma PolyRowInside(ps: seq<Polygon>, fill: Fill, y: int)
    requires Drawable(ps)
    ensures IsRow(PolyRow(ps, fill, y)) && RowInside(ps, fill, PolyRow(ps, fill, y), y)
    ensures IsStrict(PolyRow(ps, fill, y)) <==> !Splits(Sorted(Crossings(ps, y)), fill)
  {
    SortedCrossings(ps, fill, y);
    var cs := Sorted(Crossings(ps, y));
    hide Sorted, Crossings, Drawable, SortedTo, Fits16, Closed, IsRow, IsStrict, SpansOf, Splits, Paired;
    SpansBounded(cs, fill);
    StrictIff(cs, fill);
  }

  /** One row of spans. */
  method ScanRow(ps: seq<Polygon>, fill: Fill, y: int) returns (row: seq<Int16>)
    ensures Drawable(ps) ==> row == PolyRow(ps, fill, y)
  {
    var found := RowCrossings(ps, y);
    SortedCrossings(ps, fill, y);
    if found == [] {
      return [];
    }
    var cs := SortCrossings(found);
    hide Tally, Total, Crossings, Sorted, Counts, Fits16, Drawable, SpansOf;
    if fill == Alternate {
      row := AlternateSpans(cs);
    } else {
      row := WindingSpans(cs);
    }
  }

  // ---- The region ----

  /** The least and the greatest row of the first n corners, starting from low and high. */
  function Reach(p: Polygon, n: nat, low: int, high: int): (int, int)
    requires n <= |p|
  {
    if n == 0 then (low, high)
    else
      var (l, h) := Reach(p, n - 1, low, high);
      (if p[n - 1].y < l then p[n - 1].y else l, if p[n - 1].y > h then p[n - 1].y else h)
  }

  /** The first and the last row a corner is on. */
  function Height(ps: seq<Polygon>): (int, int) {
    if ps == [] then (32767, -32768)
    else
      var n := |ps| - 1;
      var (l, h) := Height(ps[..n]);
      if |ps[n]| >= 3 then Reach(ps[n], |ps[n]|, l, h) else (l, h)
  }

  method Bounds(ps: seq<Polygon>) returns (low: int, high: int)
    ensures (low, high) == Height(ps)
  {
    low, high := 32767, -32768;
    for i := 0 to |ps|
      invariant (low, high) == Height(ps[..i])
    {
      assert ps[..i + 1][..i] == ps[..i];
      if |ps[i]| >= 3 {
        ghost var l, h := low, high;
        for j := 0 to |ps[i]|
          invariant (low, high) == Reach(ps[i], j, l, h)
        {
          var y := ps[i][j].y;
          if y < low { low := y; }
          if y > high { high := y; }
        }
      }
    }
    assert ps[..|ps|] == ps;
  }

  /** The corners lie from one row to another. */
  predicate Within(ps: seq<Polygon>, low: int, high: int) {
    forall i, j :: 0 <= i < |ps| && |ps[i]| >= 3 && 0 <= j < |ps[i]| ==> low <= ps[i][j].y <= high
  }

  lemma {:induction false} ReachHolds(p: Polygon, n: nat, low: int, high: int)
    requires n <= |p|
    ensures var (l, h) := Reach(p, n, low, high);
            l <= low && high <= h && forall j :: 0 <= j < n ==> l <= p[j].y <= h
    ensures var (l, h) := Reach(p, n, low, high);
            PolygonFits(p) && InWord(low) && InWord(high) ==> InWord(l) && InWord(h)
  {
    if n > 0 {
      ReachHolds(p, n - 1, low, high);
      assert PolygonFits(p) ==> EdgeFits(p[n - 1], Next(p, n - 1));
    }
  }

  lemma {:induction false} HeightHolds(ps: seq<Polygon>)
    ensures Within(ps, Height(ps).0, Height(ps).1)
    ensures Drawable(ps) ==> InWord(Height(ps).0) && InWord(Height(ps).1)
  {
    if ps != [] {
      var n := |ps| - 1;
      HeightHolds(ps[..n]);
      if |ps[n]| >= 3 {
        ReachHolds(ps[n], |ps[n]|, Height(ps[..n]).0, Height(ps[..n]).1);
      }
    }
  }

  lemma {:induction false} NoEdges(p: Polygon, y: int, n: nat)
    requires n <= |p|
    requires (forall j :: 0 <= j < |p| ==> p[j].y > y) || (forall j :: 0 <= j < |p| ==> p[j].y <= y)
    ensures EdgeCrossings(p, y, n) == []
  {
    if n > 0 {
      NoEdges(p, y, n - 1);
    }
  }

  /** Above and below the corners nothing crosses. */
  lemma {:induction false} NoCrossings(ps: seq<Polygon>, low: int, high: int, y: int)
    requires Within(ps, low, high) && (y < low || high <= y)
    ensures Crossings(ps, y) == []
  {
    if ps != [] {
      var n := |ps| - 1;
      NoCrossings(ps[..n], low, high, y);
      if |ps[n]| >= 3 {
        NoEdges(ps[n], y, |ps[n]|);
      }
    }
  }

  /** The rows from the first with a corner to the last. */
  function PolyRows(ps: seq<Polygon>, fill: Fill): (rows: seq<seq<Int16>>)
    requires Drawable(ps)
    ensures |rows| == (if Height(ps).0 < Height(ps).1 then Height(ps).1 - Height(ps).0 else 0)
    ensures forall k {:trigger rows[k]} :: 0 <= k < |rows| ==> rows[k] == PolyRow(ps, fill, Height(ps).0 + k)
  {
    seq(if Height(ps).0 < Height(ps).1 then Height(ps).1 - Height(ps).0 else 0,
        k requires 0 <= k => PolyRow(ps, fill, Height(ps).0 + k))
  }

  /** No row has more spans than the region format can count. */
  ghost predicate NarrowPolygons(ps: seq<Polygon>, fill: Fill)
    requires Drawable(ps)
  {
    forall y :: |PolyRow(ps, fill, y)| <= 2 * MAX_SPANS
  }

  lemma PolyRowsFit(ps: seq<Polygon>, fill: Fill)
    requires Drawable(ps) && NarrowPolygons(ps, fill)
    ensures PolyRows(ps, fill) != [] ==> Fits(Height(ps).0, PolyRows(ps, fill)) && NarrowRows(PolyRows(ps, fill))
  {
    HeightHolds(ps);
    var rows := PolyRows(ps, fill);
    hide Drawable, Height, PolyRow, IsRow, PolyRows, RowInside;
    forall k | 0 <= k < |rows|
      ensures IsRow(rows[k]) && |rows[k]| <= 2 * MAX_SPANS
    {
      PolyRowInside(ps, fill, Height(ps).0 + k);
    }
  }

  /** The region of the polygons. */
  ghost function PolyRegion(ps: seq<Polygon>, fill: Fill): Region
    requires Drawable(ps) && NarrowPolygons(ps, fill)
  {
    PolyRowsFit(ps, fill);
    if PolyRows(ps, fill) == [] then NoData else RegionOfRows(Height(ps).0, PolyRows(ps, fill))
  }

  /** A point is in the region exactly if it is inside. */
  lemma PolyRegionPoints(ps: seq<Polygon>, fill: Fill)
    requires Drawable(ps) && NarrowPolygons(ps, fill)
    ensures WellFormed(PolyRegion(ps, fill))
    ensures forall x, y :: InRegion(PolyRegion(ps, fill), x, y) <==> Inside(ps, fill, x, y)
  {
    var low, rows := Height(ps).0, PolyRows(ps, fill);
    PolyRowsFit(ps, fill);
    RowsInside(ps, fill);
    if rows != [] {
      hide Drawable, NarrowPolygons, PolyRows, Fits, NarrowRows, WellFormed, InRegion, InRows, RegionOfRows, Height;
      BuiltRegion(low, rows);
    }
  }

  lemma RowsInside(ps: seq<Polygon>, fill: Fill)
    requires Drawable(ps)
    ensures forall x, y :: InRows(Height(ps).0, PolyRows(ps, fill), x, y) <==> Inside(ps, fill, x, y)
  {
    HeightHolds(ps);
    var low, high, rows := Height(ps).0, Height(ps).1, PolyRows(ps, fill);
    hide Height, InRow, Within, Drawable, PolyRow, PolyRows;
    forall x, y
      ensures InRows(low, rows, x, y) <==> Inside(ps, fill, x, y)
    {
      if low <= y < low + |rows| {
        PolyRowInside(ps, fill, y);
        assert rows[y - low] == PolyRow(ps, fill, low + (y - low));
      } else {
        NoCrossings(ps, low, high, y);
      }
    }
  }

  // ---- Its form ----

  /** Between two crossings of the row at one column one is outside the polygons, but inside on either side of it. */
  predicate RowSplits(ps: seq<Polygon>, fill: Fill, y: int) {
    Splits(Sorted(Crossings(ps, y)), fill)
  }

  lemma RowsStrictIff(ps: seq<Polygon>, fill: Fill)
    requires Drawable(ps)
    ensures AreStrict(PolyRows(ps, fill)) <==> forall y :: !RowSplits(ps, fill, y)
  {
    HeightHolds(ps);
    var low, high, rows := Height(ps).0, Height(ps).1, PolyRows(ps, fill);
    hide Height, Drawable, PolyRow, PolyRows, IsStrict, IsRow, RowInside;
    forall k | 0 <= k < |rows|
      ensures IsStrict(rows[k]) <==> !RowSplits(ps, fill, low + k)
    {
      PolyRowInside(ps, fill, low + k);
    }
    forall y | y < low || high <= y
      ensures !RowSplits(ps, fill, y)
    {
      NoCrossings(ps, low, high, y);
    }
    if AreStrict(rows) {
      forall y
        ensures !RowSplits(ps, fill, y)
      {
        if low <= y < high {
          assert IsStrict(rows[y - low]) <==> !RowSplits(ps, fill, low + (y - low));
        }
      }
    }
  }

  /** The region is the canonical one of its points if and only if the crossings split no row; otherwise its bytes
      are not those the builder makes of the same rows with touching spans joined. */
  lemma PolyRegionCanonicalIff(ps: seq<Polygon>, fill: Fill)
    requires Drawable(ps) && NarrowPolygons(ps, fill)
    ensures Canonical(PolyRegion(ps, fill)) <==> forall y :: !RowSplits(ps, fill, y)
    ensures var low, rows := Height(ps).0, PolyRows(ps, fill);
            rows != [] ==>
              && Fits(low, UnsplitRows(rows)) && NarrowRows(UnsplitRows(rows)) && AreStrict(UnsplitRows(rows))
              && SamePoints(low, rows, low, UnsplitRows(rows))
              && (PolyRegion(ps, fill) == RegionOfRows(low, UnsplitRows(rows)) <==>
                    forall y :: !RowSplits(ps, fill, y))
  {
    PolyRowsFit(ps, fill);
    RowsStrictIff(ps, fill);
    var low, rows := Height(ps).0, PolyRows(ps, fill);
    hide Drawable, NarrowPolygons, PolyRows, Fits, NarrowRows, RegionOfRows, AreStrict, UnsplitRows, Canonical,
         SamePoints, RowSplits, Height;
    NothingCanonical();
    if rows != [] {
      BuiltCanonicalIff(low, rows);
    }
  }

  lemma NothingCanonical()
    ensures Canonical(NoData) && AreStrict([])
  {
    assert RegionOfRows(0, []) == NoData;
    assert CanonicalOf(NoData, 0, []);
  }

  /** Some edge crosses the row at a column that is inside, as is the one before it. */
  ghost predicate CrossedInside(ps: seq<Polygon>, y: int) {
    exists c {:trigger c in Crossings(ps, y)} ::
      c in Crossings(ps, y) && Inside(ps, Alternate, c.x - 1, y) && Inside(ps, Alternate, c.x, y)
  }

  lemma AroundIs(ps: seq<Polygon>, y: int, i: nat)
    requires i < |Sorted(Crossings(ps, y))|
    ensures var cs := Sorted(Crossings(ps, y));
            InsideAround(cs, i) <==> Inside(ps, Alternate, cs[i].x - 1, y) && Inside(ps, Alternate, cs[i].x, y)
  {
    SortedCrossings(ps, Alternate, y);
    hide Crossings, Sorted, Closed, Tally, Counts, Fits16, Drawable;
  }

  lemma SortedMembers(cs: seq<Crossing>, c: Crossing)
    ensures c in Sorted(cs) <==> c in cs
  {
    SortedShuffles(cs);
    hide Sorted;
    assert c in multiset(cs) <==> c in cs;
    assert c in multiset(Sorted(cs)) <==> c in Sorted(cs);
  }

  lemma AroundCrossed(ps: seq<Polygon>, y: int, i: nat)
    requires i < |Sorted(Crossings(ps, y))| && InsideAround(Sorted(Crossings(ps, y)), i)
    ensures CrossedInside(ps, y)
  {
    AroundIs(ps, y, i);
    hide Crossings, Sorted, Inside, InsideAround;
    var found := Crossings(ps, y);
    var c := Sorted(found)[i];
    SortedMembers(found, c);
    assert c in Crossings(ps, y) && Inside(ps, Alternate, c.x - 1, y) && Inside(ps, Alternate, c.x, y);
  }

  ghost predicate SomewhereAround(cs: seq<Crossing>) {
    exists i {:trigger InsideAround(cs, i)} :: 0 <= i < |cs| && InsideAround(cs, i)
  }

  lemma CrossedAround(ps: seq<Polygon>, y: int, c: Crossing)
    requires c in Crossings(ps, y) && Inside(ps, Alternate, c.x - 1, y) && Inside(ps, Alternate, c.x, y)
    ensures SomewhereAround(Sorted(Crossings(ps, y)))
  {
    hide Crossings, Sorted, Inside, InsideAround;
    var cs := Sorted(Crossings(ps, y));
    SortedMembers(Crossings(ps, y), c);
    var i :| 0 <= i < |cs| && cs[i] == c;
    AroundIs(ps, y, i);
  }

  /** By the even-odd rule the order of the edges plays no part. */
  lemma EvenOddSplits(ps: seq<Polygon>, y: int)
    ensures RowSplits(ps, Alternate, y) <==> CrossedInside(ps, y)
  {
    var cs := Sorted(Crossings(ps, y));
    SortedSorts(Crossings(ps, y));
    AlternateSplitsIff(cs);
    hide Crossings, Sorted, Inside, Splits, InsideAround, SortedTo;
    assert RowSplits(ps, Alternate, y) <==> SomewhereAround(cs);
    if SomewhereAround(cs) {
      var i :| 0 <= i < |cs| && InsideAround(cs, i);
      AroundCrossed(ps, y, i);
    }
    if CrossedInside(ps, y) {
      var c :| c in Crossings(ps, y) && Inside(ps, Alternate, c.x - 1, y) && Inside(ps, Alternate, c.x, y);
      CrossedAround(ps, y, c);
    }
  }

  // ---- Making it ----

  /** CdCreatePolyPolygonRegion. A point is in the region exactly if it is inside the polygons, and the region is in
      canonical form exactly if no row is split. Nothing is said of it if an edge is out of range, or a row has more
      spans than can be counted. */
  method CreatePolyPolygonRegion(ps: seq<Polygon>, fill: Fill) returns (r: Region)
    ensures Drawable(ps) && NarrowPolygons(ps, fill) ==> r == PolyRegion(ps, fill) && WellFormed(r)
    ensures Drawable(ps) && NarrowPolygons(ps, fill) ==>
              forall x, y :: InRegion(r, x, y) <==> Inside(ps, fill, x, y)
    ensures Drawable(ps) && NarrowPolygons(ps, fill) ==>
              (Canonical(r) <==> forall y :: !RowSplits(ps, fill, y))
  {
    var low, high := Bounds(ps);
    hide Height, Canonical, WellFormed, Drawable, InRegion, NarrowPolygons, RowSplits;
    if low >= high {
      r := NoData;
    } else {
      r := BuildRows(ps, fill, low, high);
    }
    if Drawable(ps) && NarrowPolygons(ps, fill) {
      PolyRegionPoints(ps, fill);
      PolyRegionCanonicalIff(ps, fill);
    }
  }

  method BuildRows(ps: seq<Polygon>, fill: Fill, low: int, high: int) returns (r: Region)
    requires (low, high) == Height(ps) && low < high
    ensures Drawable(ps) && NarrowPolygons(ps, fill) ==> r == PolyRegion(ps, fill)
  {
    hide *;
    ghost var good := Drawable(ps) && NarrowPolygons(ps, fill);
    ghost var all := if good then PolyRows(ps, fill) else [];
    if good { RowsCounted(ps, fill, low, high); }
    var stored := -0x8000 <= low && high <= 0x7FFF;
    var out := new RegionBuilder(ToInt16(low));
    if stored { WordSame(low); }
    for y := low to high
      invariant fresh(out) && (stored ==> out.Valid() && out.firstY == low && |out.rows| == y - low && high <= 0x7FFF)
      invariant good ==> stored && |all| == high - low && out.rows == all[..y - low]
    {
      var row := ScanRow(ps, fill, y);
      if good { RowGood(ps, fill, y, row); }
      if stored && IsRow(row) && |row| <= 2 * MAX_SPANS {
        FeedRow(out, row);
      } else {
        stored := false;
      }
    }
    if stored {
      r := out.FinishRegion();
    } else {
      r := *;
    }
    if good { RegionIs(ps, fill, low, all, out.rows); }
  }

  lemma RowsCounted(ps: seq<Polygon>, fill: Fill, low: int, high: int)
    requires Drawable(ps) && NarrowPolygons(ps, fill) && (low, high) == Height(ps) && low < high
    ensures |PolyRows(ps, fill)| == high - low && -0x8000 <= low && high <= 0x7FFF
  {
    HeightHolds(ps);
  }

  lemma RegionIs(ps: seq<Polygon>, fill: Fill, low: int, all: seq<seq<Int16>>, rows: seq<seq<Int16>>)
    requires Drawable(ps) && NarrowPolygons(ps, fill) && low == Height(ps).0 && all == PolyRows(ps, fill) && all != []
    requires rows == all[..|all|]
    ensures rows == all && Fits(low, rows) && NarrowRows(rows) && PolyRegion(ps, fill) == RegionOfRows(low, rows)
  {
    PolyRowsFit(ps, fill);
    hide PolyRows, Height, RegionOfRows, Fits, NarrowRows, Drawable, NarrowPolygons;
  }

  lemma RowGood(ps: seq<Polygon>, fill: Fill, y: int, row: seq<Int16>)
    requires Drawable(ps) && NarrowPolygons(ps, fill) && Height(ps).0 <= y < Height(ps).1 && row == PolyRow(ps, fill, y)
    ensures IsRow(row) && |row| <= 2 * MAX_SPANS
    ensures var rows, k := PolyRows(ps, fill), y - Height(ps).0;
            k < |rows| && rows[..k + 1] == rows[..k] + [row]
  {
    PolyRowInside(ps, fill, y);
    hide PolyRow, Drawable, Height, IsRow, RowInside, PolyRows;
    var rows, k := PolyRows(ps, fill), y - Height(ps).0;
    assert |PolyRow(ps, fill, y)| <= 2 * MAX_SPANS;
    assert rows[k] == PolyRow(ps, fill, Height(ps).0 + k);
    NextSlice(rows, k);
  }

  lemma NextSlice(rows: seq<seq<Int16>>, k: nat)
    requires k < |rows|
    ensures rows[..k + 1] == rows[..k] + [rows[k]]
  {
  }

  lemma WordSame(x: int)
    requires -0x8000 <= x <= 0x7FFF
    ensures ToInt16(x) == x
  {
  }

  method FeedRow(out: RegionBuilder, row: seq<Int16>)
    requires out.Valid() && IsRow(row) && |row| <= 2 * MAX_SPANS && out.firstY + |out.rows| < 0x7FFF
    modifies out
    ensures out.Valid() && out.firstY == old(out.firstY) && out.rows == old(out.rows) + [row]
  {
    assert Fits(out.firstY, out.rows) && NarrowRows(out.rows);
    assert |row| % 2 == 0;
    hide Fits, NarrowRows, IsRow, RegionBuilder.Holding, Fed;
    OneMoreRow(out.firstY, out.rows, row);
    out.AddScanline(|row| / 2, row, false);
  }
}
