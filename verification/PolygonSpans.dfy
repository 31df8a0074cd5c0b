/** The spans of a row, as a function of where polygons cross it: which columns they hold, and when two of them
    touch. */
module PolygonSpans {
  import opened Words
  import opened RegionRows
  import opened PolygonRows

  /** The columns the spans hold are those inside by the crossings. */
  ghost predicate Bounded(row: seq<Int16>, cs: seq<Crossing>, fill: Fill) {
    forall x :: InRow(row, x) <==> Counts(Tally(cs, fill, x), fill)
  }

  /** Spans from left to right, none of them empty. */
  predicate Paired(row: seq<Int16>) {
    && |row| % 2 == 0
    && (forall i, j :: 0 <= i < j < |row| ==> row[i] <= row[j])
    && (forall i :: 0 <= i < |row| && i % 2 == 1 ==> row[i - 1] < row[i])
  }

  /** None begins where the one before it ends. */
  predicate TouchFree(row: seq<Int16>) {
    forall i :: 0 < i < |row| && i % 2 == 0 ==> row[i - 1] < row[i]
  }

  lemma StrictIfTouchFree(row: seq<Int16>)
    requires Paired(row)
    ensures IsRow(row) && (IsStrict(row) <==> TouchFree(row))
  {
    if TouchFree(row) {
      forall i, j | 0 <= i < j < |row|
        ensures row[i] < row[j]
      {
        assert row[j - 1] < row[j];
      }
    }
  }

  predicate Fits16(cs: seq<Crossing>) {
    forall i :: 0 <= i < |cs| ==> -0x8000 <= cs[i].x <= 0x7FFF
  }

  // ---- The row of a list of crossings ----

  /** Spans closed so far, and whether one is open from `start` on. */
  datatype Scan = Scan(row: seq<Int16>, open: bool, start: Int16)

  /** A crossing at x opens a span, closes one, or lies inside one; a span closed where it was opened is none. */
  function ScanNext(s: Scan, x: Int16, now: bool): Scan {
    var begin := if s.open then s.start else x;
    Scan(if s.open && !now && begin < x then s.row + [begin, x] else s.row, now, begin)
  }

  /** A span is open while what has been crossed counts. */
  function ScanTo(cs: seq<Crossing>, fill: Fill, i: nat): Scan
    requires i <= |cs| && Fits16(cs)
  {
    if i == 0 then Scan([], false, 0)
    else ScanNext(ScanTo(cs, fill, i - 1), cs[i - 1].x, Counts(Total(cs[..i], fill), fill))
  }

  function SpansOf(cs: seq<Crossing>, fill: Fill): seq<Int16>
    requires Fits16(cs)
  {
    ScanTo(cs, fill, |cs|).row
  }

  lemma InRowPair(row: seq<Int16>, a: Int16, b: Int16, x: int)
    requires |row| % 2 == 0
    ensures InRow(row + [a, b], x) <==> InRow(row, x) || a <= x < b
  {
    var more := row + [a, b];
    if i: nat :| InSpan(row, i, x) {
      assert InSpan(more, i, x);
    }
    if a <= x < b {
      assert InSpan(more, |row| / 2, x);
    }
    if i: nat :| InSpan(more, i, x) {
      assert i < |row| / 2 ==> InSpan(row, i, x);
    }
  }

  lemma TallyNext(cs: seq<Crossing>, i: nat, fill: Fill, x: int)
    requires i < |cs|
    ensures Tally(cs[..i + 1], fill, x) == Tally(cs[..i], fill, x) + if cs[i].x <= x then Worth(cs[i], fill) else 0
    ensures Total(cs[..i + 1], fill) == Total(cs[..i], fill) + Worth(cs[i], fill)
  {
    assert cs[..i + 1][..i] == cs[..i];
  }

  /** At and right of all crossings the tally is all of it. */
  lemma {:induction false} TallyPast(cs: seq<Crossing>, fill: Fill, x: int)
    requires forall i :: 0 <= i < |cs| ==> cs[i].x <= x
    ensures Tally(cs, fill, x) == Total(cs, fill)
  {
    if cs != [] {
      TallyPast(cs[..|cs| - 1], fill, x);
    }
  }

  lemma {:induction false} TotalCount(cs: seq<Crossing>)
    ensures Total(cs, Alternate) == |cs|
  {
    if cs != [] {
      TotalCount(cs[..|cs| - 1]);
    }
  }

  ghost predicate Filled(s: Scan, cs: seq<Crossing>, i: nat, fill: Fill)
    requires i <= |cs|
  {
    && Paired(s.row)
    && (forall j :: 0 <= j < |s.row| ==> i > 0 && s.row[j] <= cs[i - 1].x && (s.open ==> s.row[j] <= s.start))
    && (s.open ==> i > 0 && s.start <= cs[i - 1].x)
    && s.open == Counts(Total(cs[..i], fill), fill)
    && forall x :: FilledAt(s, cs, i, fill, x)
  }

  ghost predicate FilledAt(s: Scan, cs: seq<Crossing>, i: nat, fill: Fill, x: int)
    requires i <= |cs|
  {
    InRow(s.row, x) || (s.open && s.start <= x) <==> Counts(Tally(cs[..i], fill, x), fill)
  }

  lemma NotPast(row: seq<Int16>, x: int)
    requires Paired(row) && forall j :: 0 <= j < |row| ==> row[j] <= x
    ensures !InRow(row, x)
  {
  }

  lemma PairedMore(row: seq<Int16>, a: Int16, b: Int16)
    requires Paired(row) && a < b && forall j :: 0 <= j < |row| ==> row[j] <= a
    ensures Paired(row + [a, b]) && forall j :: 0 <= j < |row| + 2 ==> (row + [a, b])[j] <= b
  {
  }

  predicate CountsOnce(cs: seq<Crossing>, fill: Fill) {
    forall i :: 0 <= i < |cs| ==> Worth(cs[i], fill) == 1 || Worth(cs[i], fill) == -1
  }

  lemma TotalNext(cs: seq<Crossing>, i: nat, fill: Fill)
    requires i < |cs| && CountsOnce(cs, fill)
    ensures Counts(Total(cs[..i], fill), fill) || Counts(Total(cs[..i + 1], fill), fill)
  {
    TallyNext(cs, i, fill, 0);
    TotalCount(cs[..i]);
  }

  lemma FillAt(s: Scan, cs: seq<Crossing>, i: nat, fill: Fill, at: int)
    requires i < |cs| && SortedTo(cs, 0) && Fits16(cs) && CountsOnce(cs, fill) && Filled(s, cs, i, fill)
    ensures FilledAt(ScanNext(s, cs[i].x, Counts(Total(cs[..i + 1], fill), fill)), cs, i + 1, fill, at)
  {
    assert FilledAt(s, cs, i, fill, at);
    var x := cs[i].x;
    TallyNext(cs, i, fill, at);
    TotalNext(cs, i, fill);
    InRowPair(s.row, if s.open then s.start else x, x, at);
    if x <= at {
      TallyPast(cs[..i], fill, at);
      NotPast(s.row, at);
    }
    hide Tally, Total, InRow, Counts, Worth;
  }

  /** One crossing. */
  lemma FillNext(s: Scan, cs: seq<Crossing>, i: nat, fill: Fill)
    requires i < |cs| && SortedTo(cs, 0) && Fits16(cs) && CountsOnce(cs, fill) && Filled(s, cs, i, fill)
    ensures Filled(ScanNext(s, cs[i].x, Counts(Total(cs[..i + 1], fill), fill)), cs, i + 1, fill)
  {
    var x := cs[i].x;
    var next, n := ScanNext(s, x, Counts(Total(cs[..i + 1], fill), fill)), i + 1;
    TotalNext(cs, i, fill);
    if s.open && s.start < x { PairedMore(s.row, s.start, x); }
    assert forall j :: 0 <= j < |next.row| ==> next.row[j] <= x && (next.open ==> next.row[j] <= next.start);
    hide FilledAt, Paired, Tally, Total, Counts, Worth, ScanNext;
    forall at ensures FilledAt(next, cs, n, fill, at) { FillAt(s, cs, i, fill, at); }
  }

  lemma FillStart(cs: seq<Crossing>, fill: Fill)
    ensures Filled(Scan([], false, 0), cs, 0, fill)
  {
  }

  lemma {:induction false} ScanFilled(cs: seq<Crossing>, fill: Fill, i: nat)
    requires i <= |cs| && SortedTo(cs, 0) && Fits16(cs) && CountsOnce(cs, fill)
    ensures Filled(ScanTo(cs, fill, i), cs, i, fill)
  {
    if i == 0 {
      FillStart(cs, fill);
    } else {
      ScanFilled(cs, fill, i - 1);
      hide Filled;
      FillNext(ScanTo(cs, fill, i - 1), cs, i - 1, fill);
    }
  }

  /** The crossings of closed polygons leave no span open. */
  predicate Closed(cs: seq<Crossing>, fill: Fill) {
    CountsOnce(cs, fill) && !Counts(Total(cs, fill), fill)
  }

  /** The spans of a row hold exactly the columns inside by its crossings. */
  lemma SpansBounded(cs: seq<Crossing>, fill: Fill)
    requires SortedTo(cs, 0) && Fits16(cs) && Closed(cs, fill)
    ensures Paired(SpansOf(cs, fill)) && Bounded(SpansOf(cs, fill), cs, fill)
  {
    ScanFilled(cs, fill, |cs|);
    assert cs[..|cs|] == cs;
    hide Tally, Total, ScanTo;
    var s := ScanTo(cs, fill, |cs|);
    forall x
      ensures InRow(s.row, x) <==> Counts(Tally(cs, fill, x), fill)
    {
      assert FilledAt(s, cs, |cs|, fill, x);
    }
  }

  // ---- The loops ----

  lemma ScanOnce(cs: seq<Crossing>, fill: Fill, i: nat)
    requires i < |cs| && Fits16(cs)
    ensures ScanTo(cs, fill, i + 1) == ScanNext(ScanTo(cs, fill, i), cs[i].x, Counts(Total(cs[..i + 1], fill), fill))
  {
  }

  lemma ScanTwice(cs: seq<Crossing>, i: nat)
    requires i + 1 < |cs| && i % 2 == 0 && Fits16(cs) && !ScanTo(cs, Alternate, i).open
    ensures var (s, s') := (ScanTo(cs, Alternate, i), ScanTo(cs, Alternate, i + 2));
            !s'.open && s'.row == if cs[i].x < cs[i + 1].x then s.row + [cs[i].x, cs[i + 1].x] else s.row
  {
    ScanOnce(cs, Alternate, i);
    ScanOnce(cs, Alternate, i + 1);
    TotalCount(cs[..i + 1]);
    TotalCount(cs[..i + 2]);
    hide ScanTo, Total;
  }

  /** The even-odd rule: from each odd crossing to the next. */
  method AlternateSpans(cs: seq<Crossing>) returns (row: seq<Int16>)
    requires SortedTo(cs, 0) && |cs| % 2 == 0
    ensures Fits16(cs) ==> row == SpansOf(cs, Alternate)
  {
    row := [];
    var i := 0;
    assert Fits16(cs) ==> ScanTo(cs, Alternate, 0) == Scan([], false, 0);
    hide ScanTo;
    while i + 1 < |cs|
      invariant 0 <= i <= |cs| && i % 2 == 0
      invariant Fits16(cs) ==> row == ScanTo(cs, Alternate, i).row && !ScanTo(cs, Alternate, i).open
    {
      var xStart, xEnd := cs[i].x, cs[i + 1].x;
      if xStart > xEnd {
        xStart, xEnd := xEnd, xStart;
      }
      if Fits16(cs) { ScanTwice(cs, i); }
      if xStart != xEnd {
        row := row + [ToInt16(xStart), ToInt16(xEnd)];
      }
      i := i + 2;
    }
  }

  /** The winding rule: from where the winding leaves zero to where it comes back. */
  method WindingSpans(cs: seq<Crossing>) returns (row: seq<Int16>)
    requires SortedTo(cs, 0)
    ensures Fits16(cs) ==> row == SpansOf(cs, Winding)
  {
    row := [];
    var winding, startX := 0, 0;
    for i := 0 to |cs|
      invariant winding == Total(cs[..i], Winding)
      invariant Fits16(cs) ==> row == ScanTo(cs, Winding, i).row && ScanTo(cs, Winding, i).open == (winding != 0)
      invariant Fits16(cs) && winding != 0 ==> ScanTo(cs, Winding, i).start == startX && i > 0 && startX <= cs[i - 1].x
    {
      TallyNext(cs, i, Winding, 0);
      if winding == 0 {
        startX := cs[i].x;
      }
      winding := winding + cs[i].direction;
      hide Total;
      if winding == 0 {
        var xEnd := cs[i].x;
        var xStart := startX;
        if xStart > xEnd {
          xStart, xEnd := xEnd, xStart;
        }
        if xStart < xEnd {
          row := row + [ToInt16(xStart), ToInt16(xEnd)];
        }
      }
    }
  }
}
