/** When spans of a row touch: what has to be so of the crossings. */
module PolygonTouch {
  import opened Words
  import opened RegionRows
  import opened PolygonRows
  import opened PolygonSpans

  /** What has been crossed before crossing i leaves one outside. */
  predicate Out(cs: seq<Crossing>, fill: Fill, i: nat)
    requires i <= |cs|
  {
    !Counts(Total(cs[..i], fill), fill)
  }

  /** Between two crossings at one column one is outside, though inside on either side of the column. */
  predicate SplitAt(cs: seq<Crossing>, fill: Fill, i: nat)
    requires 0 < i < |cs|
  {
    && Out(cs, fill, i) && cs[i - 1].x == cs[i].x
    && Counts(Tally(cs, fill, cs[i].x - 1), fill) && Counts(Tally(cs, fill, cs[i].x), fill)
  }

  predicate Splits(cs: seq<Crossing>, fill: Fill) {
    exists i {:trigger SplitAt(cs, fill, i)} :: 0 < i < |cs| && SplitAt(cs, fill, i)
  }

  // ---- Where spans open ----

  /** A span opens at b, with one outside before it, and the crossing before it not left of e. */
  predicate OpensAt(cs: seq<Crossing>, fill: Fill, i: nat, e: int, b: int)
    requires i <= |cs|
  {
    exists o {:trigger Out(cs, fill, o)} :: 0 < o < i && Out(cs, fill, o) && e <= cs[o - 1].x && cs[o].x == b
  }

  /** Every span but the first opens so after the one before it, and so does the one still open. */
  predicate Opened(s: Scan, cs: seq<Crossing>, fill: Fill, i: nat)
    requires i <= |cs|
  {
    && (forall k :: 0 < k < |s.row| && k % 2 == 0 ==> OpensAt(cs, fill, i, s.row[k - 1], s.row[k]))
    && (s.open && s.row != [] ==> OpensAt(cs, fill, i, s.row[|s.row| - 1], s.start))
  }

  lemma OpensLater(cs: seq<Crossing>, fill: Fill, i: nat, e: int, b: int)
    requires i < |cs| && OpensAt(cs, fill, i, e, b)
    ensures OpensAt(cs, fill, i + 1, e, b)
  {
  }

  lemma OpensHere(cs: seq<Crossing>, fill: Fill, i: nat, e: int)
    requires 0 < i < |cs| && Out(cs, fill, i) && e <= cs[i - 1].x
    ensures OpensAt(cs, fill, i + 1, e, cs[i].x)
  {
  }

  lemma FilledEnd(s: Scan, cs: seq<Crossing>, fill: Fill, i: nat)
    requires i <= |cs| && Filled(s, cs, i, fill)
    ensures |s.row| % 2 == 0 && (s.open <==> !Out(cs, fill, i))
    ensures s.row != [] ==> i > 0 && s.row[|s.row| - 1] <= cs[i - 1].x
    ensures s.open ==> i > 0
  {
  }

  lemma OpenedNext(s: Scan, cs: seq<Crossing>, fill: Fill, i: nat)
    requires i < |cs| && Fits16(cs) && Filled(s, cs, i, fill) && Opened(s, cs, fill, i)
    ensures Opened(ScanNext(s, cs[i].x, Counts(Total(cs[..i + 1], fill), fill)), cs, fill, i + 1)
  {
    FilledEnd(s, cs, fill, i);
    var next := ScanNext(s, cs[i].x, Counts(Total(cs[..i + 1], fill), fill));
    var n := i + 1;
    hide Total, Counts, Out, Filled, OpensAt;
    if s.row != [] {
      if s.open {
        OpensLater(cs, fill, i, s.row[|s.row| - 1], s.start);
      } else {
        OpensHere(cs, fill, i, s.row[|s.row| - 1]);
      }
    }
    forall k | 0 < k < |next.row| && k % 2 == 0
      ensures OpensAt(cs, fill, n, next.row[k - 1], next.row[k])
    {
      if k < |s.row| {
        OpensLater(cs, fill, i, s.row[k - 1], s.row[k]);
      }
    }
  }

  lemma {:induction false} ScanOpened(cs: seq<Crossing>, fill: Fill, i: nat)
    requires i <= |cs| && SortedTo(cs, 0) && Fits16(cs) && CountsOnce(cs, fill)
    ensures Opened(ScanTo(cs, fill, i), cs, fill, i)
  {
    if i > 0 {
      ScanOpened(cs, fill, i - 1);
      ScanFilled(cs, fill, i - 1);
      hide Opened, Filled;
      OpenedNext(ScanTo(cs, fill, i - 1), cs, fill, i - 1);
    }
  }

  // ---- Inside spans ----

  /** Strictly between a and b one is never outside. */
  predicate Solid(cs: seq<Crossing>, fill: Fill, i: nat, a: int, b: int)
    requires i <= |cs|
  {
    forall o {:trigger Out(cs, fill, o)} :: 0 < o < i && a < cs[o].x < b ==> !Out(cs, fill, o)
  }

  /** So it is in every span, and in the one still open. */
  predicate Solids(s: Scan, cs: seq<Crossing>, fill: Fill, i: nat)
    requires i <= |cs|
  {
    && (forall k :: 0 < k < |s.row| && k % 2 == 1 ==> Solid(cs, fill, i, s.row[k - 1], s.row[k]))
    && (s.open ==> Solid(cs, fill, i, s.start, 0x8000))
  }

  lemma SolidLater(cs: seq<Crossing>, fill: Fill, i: nat, a: int, b: int)
    requires i < |cs| && Solid(cs, fill, i, a, b) && (a < cs[i].x < b && i > 0 ==> !Out(cs, fill, i))
    ensures Solid(cs, fill, i + 1, a, b)
  {
  }

  lemma SolidNarrow(cs: seq<Crossing>, fill: Fill, i: nat, a: int, b: int)
    requires i <= |cs| && Solid(cs, fill, i, a, 0x8000) && b <= 0x8000
    ensures Solid(cs, fill, i, a, b)
  {
  }

  lemma SolidFrom(cs: seq<Crossing>, fill: Fill, i: nat)
    requires i < |cs| && SortedTo(cs, 0)
    ensures Solid(cs, fill, i + 1, cs[i].x, 0x8000)
  {
  }

  lemma SolidsNext(s: Scan, cs: seq<Crossing>, fill: Fill, i: nat)
    requires i < |cs| && SortedTo(cs, 0) && Fits16(cs) && Filled(s, cs, i, fill) && Solids(s, cs, fill, i)
    ensures Solids(ScanNext(s, cs[i].x, Counts(Total(cs[..i + 1], fill), fill)), cs, fill, i + 1)
  {
    var next := ScanNext(s, cs[i].x, Counts(Total(cs[..i + 1], fill), fill));
    var n := i + 1;
    assert |s.row| % 2 == 0;
    assert s.open ==> !Out(cs, fill, i);
    assert i > 0 ==> cs[i - 1].x <= cs[i].x;
    hide Total, Counts, Out, FilledAt, Paired, Solid;
    if s.open {
      SolidLater(cs, fill, i, s.start, 0x8000);
      SolidNarrow(cs, fill, n, s.start, cs[i].x);
    } else {
      SolidFrom(cs, fill, i);
    }
    forall k | 0 < k < |next.row| && k % 2 == 1
      ensures Solid(cs, fill, n, next.row[k - 1], next.row[k])
    {
      if k < |s.row| {
        SolidLater(cs, fill, i, s.row[k - 1], s.row[k]);
      }
    }
  }

  lemma {:induction false} ScanSolids(cs: seq<Crossing>, fill: Fill, i: nat)
    requires i <= |cs| && SortedTo(cs, 0) && Fits16(cs) && CountsOnce(cs, fill)
    ensures Solids(ScanTo(cs, fill, i), cs, fill, i)
  {
    if i > 0 {
      ScanSolids(cs, fill, i - 1);
      ScanFilled(cs, fill, i - 1);
      hide Solids, Filled;
      SolidsNext(ScanTo(cs, fill, i - 1), cs, fill, i - 1);
    }
  }

  // ---- Both ways ----

  lemma SidesInside(row: seq<Int16>, k: nat)
    requires Paired(row) && 0 < k < |row| && k % 2 == 0
    ensures InRow(row, row[k - 1] as int - 1) && InRow(row, row[k])
  {
    assert InSpan(row, k / 2 - 1, row[k - 1] as int - 1) && InSpan(row, k / 2, row[k]);
  }

  /** Spans that touch meet where the crossings split the row. */
  lemma TouchSplits(cs: seq<Crossing>, fill: Fill, k: nat)
    requires SortedTo(cs, 0) && Fits16(cs) && Closed(cs, fill)
    requires var row := SpansOf(cs, fill); 0 < k < |row| && k % 2 == 0 && row[k - 1] == row[k]
    ensures Splits(cs, fill)
  {
    var row := SpansOf(cs, fill);
    SpansBounded(cs, fill);
    ScanOpened(cs, fill, |cs|);
    SidesInside(row, k);
    assert OpensAt(cs, fill, |cs|, row[k - 1], row[k]);
    hide ScanTo, Total, Tally, Counts, Out, Opened, Paired, InRow;
    var o :| 0 < o < |cs| && Out(cs, fill, o) && row[k - 1] <= cs[o - 1].x && cs[o].x == row[k];
    assert SplitAt(cs, fill, o);
  }

  lemma SpansApart(row: seq<Int16>, i: nat, j: nat)
    requires Paired(row) && 2 * i + 1 < |row| && 2 * j + 1 < |row|
    ensures i < j ==> row[2 * i + 1] <= row[2 * j]
    ensures i + 1 < j ==> row[2 * i + 1] < row[2 * j]
  {
    if i + 1 < j {
      assert row[2 * i + 1] <= row[2 * (i + 1)] < row[2 * (i + 1) + 1] <= row[2 * j];
    }
  }

  /** A span that holds one side of a column, and one that holds the other, touch there or are one. */
  lemma MeetAt(row: seq<Int16>, i: nat, j: nat, m: int)
    requires Paired(row) && InSpan(row, i, m - 1) && InSpan(row, j, m)
    ensures i == j ==> row[2 * i] < m < row[2 * i + 1]
    ensures i != j ==> j == i + 1 && row[2 * j - 1] == row[2 * j]
  {
    SpansApart(row, i, j);
    SpansApart(row, j, i);
  }

  /** And where the crossings split the row, spans touch. */
  lemma SplitTouches(cs: seq<Crossing>, fill: Fill, o: nat)
    requires SortedTo(cs, 0) && Fits16(cs) && Closed(cs, fill) && 0 < o < |cs| && SplitAt(cs, fill, o)
    ensures !TouchFree(SpansOf(cs, fill))
  {
    var row := SpansOf(cs, fill);
    SpansBounded(cs, fill);
    ScanSolids(cs, fill, |cs|);
    hide ScanTo, Total, Tally, Counts, Out, Paired;
    var m := cs[o].x;
    assert InRow(row, m - 1) && InRow(row, m);
    var i: nat :| InSpan(row, i, m - 1);
    var j: nat :| InSpan(row, j, m);
    MeetAt(row, i, j, m);
    assert Solid(cs, fill, |cs|, row[2 * i + 1 - 1], row[2 * i + 1]);
    assert 2 * j % 2 == 0;
  }

  /** No two spans of a row touch if and only if its crossings do not split it. */
  lemma StrictIff(cs: seq<Crossing>, fill: Fill)
    requires SortedTo(cs, 0) && Fits16(cs) && Closed(cs, fill)
    ensures IsRow(SpansOf(cs, fill)) && (IsStrict(SpansOf(cs, fill)) <==> !Splits(cs, fill))
  {
    var row := SpansOf(cs, fill);
    SpansBounded(cs, fill);
    StrictIfTouchFree(row);
    hide SpansOf, IsStrict, IsRow, SplitAt, Bounded, Closed;
    if !TouchFree(row) {
      var k :| 0 < k < |row| && k % 2 == 0 && row[k - 1] >= row[k];
      assert row[k - 1] <= row[k];
      TouchSplits(cs, fill, k);
    }
    if Splits(cs, fill) {
      var o: nat :| 0 < o < |cs| && SplitAt(cs, fill, o);
      SplitTouches(cs, fill, o);
    }
  }

  // ---- The even-odd rule ----

  /** One is inside on either side of crossing i's column. */
  predicate InsideAround(cs: seq<Crossing>, i: nat)
    requires i < |cs|
  {
    Counts(Tally(cs, Alternate, cs[i].x - 1), Alternate) && Counts(Tally(cs, Alternate, cs[i].x), Alternate)
  }

  lemma {:induction false} TallyUpTo(cs: seq<Crossing>, fill: Fill, x: int, n: nat)
    requires n <= |cs| && (forall j :: 0 <= j < n ==> cs[j].x <= x) && forall j :: n <= j < |cs| ==> x < cs[j].x
    ensures Tally(cs, fill, x) == Total(cs[..n], fill)
  {
    if n == |cs| {
      TallyPast(cs, fill, x);
      assert cs[..n] == cs;
    } else {
      TallyUpTo(cs[..|cs| - 1], fill, x, n);
      assert cs[..|cs| - 1][..n] == cs[..n];
    }
  }

  lemma FirstAt(cs: seq<Crossing>, i: nat) returns (f: nat)
    requires SortedTo(cs, 0) && i < |cs|
    ensures f <= i && cs[f].x == cs[i].x && (forall j :: 0 <= j < f ==> cs[j].x < cs[i].x)
  {
    f := i;
    while f > 0 && cs[f - 1].x == cs[i].x
      invariant f <= i && cs[f].x == cs[i].x
    {
      f := f - 1;
    }
  }

  /** By the even-odd rule a row is split exactly where it is crossed though inside on either side. */
  lemma AlternateSplitsIff(cs: seq<Crossing>)
    requires SortedTo(cs, 0)
    ensures Splits(cs, Alternate) <==> exists i {:trigger InsideAround(cs, i)} :: 0 <= i < |cs| && InsideAround(cs, i)
  {
    if Splits(cs, Alternate) {
      var i: nat :| 0 < i < |cs| && SplitAt(cs, Alternate, i);
      assert InsideAround(cs, i);
    }
    if i: nat :| i < |cs| && InsideAround(cs, i) {
      var f := FirstAt(cs, i);
      var m := cs[i].x;
      TallyUpTo(cs, Alternate, m - 1, f);
      TotalCount(cs[..f]);
      TotalCount(cs[..f + 1]);
      hide Tally, Total;
      if f + 1 == |cs| || m < cs[f + 1].x {
        TallyUpTo(cs, Alternate, m, f + 1);
      }
      assert SplitAt(cs, Alternate, f + 1);
    }
  }
}
