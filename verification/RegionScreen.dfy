/** A region's bands in screen coordinates, and the scanline they show at each row. */
module RegionScreen {
  import opened Words
  import opened RegionFormat
  import opened RegionRows
  import opened RegionIterator

  function Shift(p: seq<Int16>, dx: int): (q: seq<Int16>)
    ensures |q| == |p|
  {
    seq(|p|, i requires 0 <= i < |p| => ToInt16(p[i] + dx))
  }

  function MovedBand(b: Band, dx: int, dy: int): Band {
    Band(ToInt16(b.y0 + dy), ToInt16(b.y1 + dy), Shift(b.pts, dx))
  }

  function Moved(bs: seq<Band>, dx: int, dy: int): (cs: seq<Band>)
    ensures |cs| == |bs|
  {
    seq(|bs|, i requires 0 <= i < |bs| => MovedBand(bs[i], dx, dy))
  }

  /** The bands of a region after its translation. */
  function ScreenBands(r: Region): (cs: seq<Band>)
    ensures |cs| == |BandsOf(r)|
  {
    Moved(BandsOf(r), TransX(r), TransY(r))
  }

  lemma ShiftFacts(p: seq<Int16>, dx: int)
    requires IsRow(p) && forall i :: 0 <= i < |p| ==> InRange(p[i] + dx)
    ensures IsRow(Shift(p, dx))
    ensures forall i :: 0 <= i < |p| ==> Shift(p, dx)[i] == p[i] + dx
  {
    forall i | 0 <= i < |p|
      ensures Shift(p, dx)[i] == p[i] + dx
    {
      assert InRange(p[i] + dx);
    }
  }

  lemma ShiftPoints(p: seq<Int16>, q: seq<Int16>, dx: int, x: int)
    requires |p| == |q| && forall i :: 0 <= i < |p| ==> q[i] == p[i] + dx
    ensures InRow(q, x) <==> InRow(p, x - dx)
  {
    if InRow(q, x) {
      var i: nat :| InSpan(q, i, x);
      assert InSpan(p, i, x - dx);
    }
    if InRow(p, x - dx) {
      var i: nat :| InSpan(p, i, x - dx);
      assert InSpan(q, i, x);
    }
  }

  lemma MovedBandFacts(b: Band, dx: int, dy: int, x: int)
    requires GoodBand(b) && BandInRange(b, dx, dy)
    ensures GoodBand(MovedBand(b, dx, dy))
    ensures MovedBand(b, dx, dy).y0 == b.y0 + dy && MovedBand(b, dx, dy).y1 == b.y1 + dy
    ensures forall i :: 0 <= i < |b.pts| ==> MovedBand(b, dx, dy).pts[i] == b.pts[i] + dx
    ensures InRow(MovedBand(b, dx, dy).pts, x) <==> InRow(b.pts, x - dx)
  {
    hide Shift, IsRow;
    ShiftFacts(b.pts, dx);
    ShiftPoints(b.pts, Shift(b.pts, dx), dx, x);
  }

  lemma ScreenBandAt(r: Region, i: nat)
    requires WellFormed(r) && i < |BandsOf(r)|
    ensures GoodBand(BandsOf(r)[i]) && BandInRange(BandsOf(r)[i], TransX(r), TransY(r))
    ensures ScreenBands(r)[i] == MovedBand(BandsOf(r)[i], TransX(r), TransY(r))
  {
    hide GoodBand, BandInRange, Decode;
  }

  lemma ScreenGood(r: Region)
    requires WellFormed(r)
    ensures GoodBands(ScreenBands(r))
    ensures forall x, y :: InRegion(r, x, y) <==> InBands(ScreenBands(r), x, y)
  {
    hide GoodBand, BandInRange, MovedBand, Decode, InHeight;
    var bs, cs := BandsOf(r), ScreenBands(r);
    forall i | 0 <= i < |cs|
      ensures GoodBand(cs[i]) && cs[i].y0 == bs[i].y0 + TransY(r) && cs[i].y1 == bs[i].y1 + TransY(r)
    {
      ScreenBandAt(r, i);
      MovedBandFacts(bs[i], TransX(r), TransY(r), 0);
    }
    forall x, y
      ensures InRegion(r, x, y) <==> InBands(cs, x, y)
    {
      forall i | 0 <= i < |cs|
        ensures InHeight(cs[i], y) && InRow(cs[i].pts, x)
           <==> InHeight(bs[i], y - TransY(r)) && InRow(bs[i].pts, x - TransX(r))
      {
        ScreenBandAt(r, i);
        MovedBandFacts(bs[i], TransX(r), TransY(r), x);
        HeightMoves(bs[i], cs[i], TransY(r), y);
      }
    }
  }

  lemma HeightMoves(b: Band, c: Band, dy: int, y: int)
    requires c.y0 == b.y0 + dy && c.y1 == b.y1 + dy
    ensures InHeight(c, y) <==> InHeight(b, y - dy)
  {
  }

  /** The events of a walk, in terms of the screen bands. */
  lemma ScreenEvents(r: Region, i: nat)
    requires WellFormed(r) && i < |BandsOf(r)|
    ensures var c := ScreenBands(r)[i];
            BandEvent(BandsOf(r)[i], TransY(r)) == BandStart(c.y0, c.y1)
    ensures var b, c := BandsOf(r)[i], ScreenBands(r)[i];
            |b.pts| == |c.pts| && forall j :: 0 <= j < |b.pts| / 2 ==>
              RectEvent(b, j, TransX(r), TransY(r)) == Rect(c.y0, c.y1, c.pts[2 * j], c.pts[2 * j + 1])
  {
    hide GoodBand, BandInRange, Decode, WellFormed;
    ScreenBandAt(r, i);
    MovedBandFacts(BandsOf(r)[i], TransX(r), TransY(r), 0);
  }

  // ---- Rows ----

  /** The scanline the bands show at row y. */
  function RowAt(bs: seq<Band>, y: int): seq<Int16> {
    if bs == [] then [] else if InHeight(bs[0], y) then bs[0].pts else RowAt(bs[1..], y)
  }

  lemma {:induction false} RowAtBand(bs: seq<Band>, y: int, k: nat)
    requires GoodBands(bs) && k < |bs| && InHeight(bs[k], y)
    ensures RowAt(bs, y) == bs[k].pts
  {
    if k > 0 {
      assert bs[0].y1 <= bs[k].y0;
      RowAtBand(bs[1..], y, k - 1);
    }
  }

  lemma {:induction false} RowAtGap(bs: seq<Band>, y: int)
    requires forall k :: 0 <= k < |bs| ==> !InHeight(bs[k], y)
    ensures RowAt(bs, y) == []
  {
    if bs != [] {
      RowAtGap(bs[1..], y);
    }
  }

  /** A point is in the bands when it is in the scanline they show at its row. */
  lemma RowAtPoints(bs: seq<Band>, y: int)
    requires GoodBands(bs)
    ensures IsRow(RowAt(bs, y))
    ensures forall x :: InBands(bs, x, y) <==> InRow(RowAt(bs, y), x)
  {
    if k: nat :| k < |bs| && InHeight(bs[k], y) {
      RowAtBand(bs, y, k);
      forall m | 0 <= m < |bs| && InHeight(bs[m], y)
        ensures m == k
      {
      }
    } else {
      RowAtGap(bs, y);
      forall x ensures !InRow([], x) { NoPoints(x); }
    }
  }

  lemma ShiftStrict(p: seq<Int16>, q: seq<Int16>, dx: int)
    requires IsStrict(p) && |p| == |q| && forall i :: 0 <= i < |p| ==> q[i] == p[i] + dx
    ensures IsStrict(q)
  {
  }

  /** Moving a region leaves its rows strict. */
  lemma ScreenStrict(r: Region)
    requires WellFormed(r) && EachStrict(BandsOf(r))
    ensures EachStrict(ScreenBands(r))
  {
    hide GoodBand, BandInRange, MovedBand, Decode, IsStrict, WellFormed;
    forall i | 0 <= i < |ScreenBands(r)|
      ensures IsStrict(ScreenBands(r)[i].pts)
    {
      ScreenBandAt(r, i);
      var b := BandsOf(r)[i];
      MovedBandFacts(b, TransX(r), TransY(r), 0);
      ShiftLength(b, TransX(r), TransY(r));
      ShiftStrict(b.pts, ScreenBands(r)[i].pts, TransX(r));
    }
  }

  lemma ShiftLength(b: Band, dx: int, dy: int)
    ensures |MovedBand(b, dx, dy).pts| == |b.pts|
  {
  }

  lemma {:induction false} RowAtStrict(bs: seq<Band>, y: int)
    requires EachStrict(bs)
    ensures IsStrict(RowAt(bs, y))
  {
    if bs != [] && !InHeight(bs[0], y) {
      RowAtStrict(bs[1..], y);
    }
  }

  // ---- Edges ----

  /** The rows at which bands start and end, in stream order. */
  function EdgeAt(bs: seq<Band>, m: nat): Int16
    requires m < 2 * |bs|
  {
    if m % 2 == 0 then bs[m / 2].y0 else bs[m / 2].y1
  }

  lemma EdgesInOrder(bs: seq<Band>, m: nat, n: nat)
    requires GoodBands(bs) && m <= n < 2 * |bs|
    ensures EdgeAt(bs, m) <= EdgeAt(bs, n)
  {
    var i, k := m / 2, n / 2;
    if i < k {
      assert bs[i].y1 <= bs[k].y0;
    }
  }

  /** Between neighbouring edges nothing changes. */
  lemma SliceUniform(bs: seq<Band>, top: int, bottom: int, y: int)
    requires top <= y < bottom
    requires forall m :: 0 <= m < 2 * |bs| ==> EdgeAt(bs, m) <= top || bottom <= EdgeAt(bs, m)
    ensures RowAt(bs, y) == RowAt(bs, top)
  {
    if bs != [] {
      assert EdgeAt(bs, 0) == bs[0].y0 && EdgeAt(bs, 1) == bs[0].y1;
      forall m | 0 <= m < 2 * |bs[1..]|
        ensures EdgeAt(bs[1..], m) == EdgeAt(bs, m + 2)
      {
      }
      SliceUniform(bs[1..], top, bottom, y);
    }
  }

  lemma OutsideEdges(bs: seq<Band>, y: int)
    requires forall m :: 0 <= m < 2 * |bs| ==> y < EdgeAt(bs, m)
    ensures RowAt(bs, y) == []
  {
    forall k | 0 <= k < |bs| ensures !InHeight(bs[k], y) {
      assert EdgeAt(bs, 2 * k) == bs[k].y0;
    }
    RowAtGap(bs, y);
  }

  lemma BelowEdges(bs: seq<Band>, y: int)
    requires forall m :: 0 <= m < 2 * |bs| ==> EdgeAt(bs, m) <= y
    ensures RowAt(bs, y) == []
  {
    forall k | 0 <= k < |bs| ensures !InHeight(bs[k], y) {
      assert EdgeAt(bs, 2 * k + 1) == bs[k].y1;
    }
    RowAtGap(bs, y);
  }
}
