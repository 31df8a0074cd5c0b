/** Regions as sets of points: the rows a region is built from, the bands they
    are grouped into, and why that grouping depends only on the points. */
module RegionRows {
  import opened Words
  import opened Options
  import opened RegionFormat

  const MAX_HEIGHT := 32000

  // ---- Points ----

  predicate Increasing(p: seq<Int16>) {
    forall i, j :: 0 <= i < j < |p| ==> p[i] < p[j]
  }

  predicate Ordered(p: seq<Int16>) {
    forall i, j :: 0 <= i < j < |p| ==> p[i] <= p[j]
  }

  /** A scanline: toggle points from left to right, in pairs. */
  predicate IsRow(p: seq<Int16>) {
    |p| % 2 == 0 && Ordered(p)
  }

  /** One in which no span is empty, and none begins where the one before it ends. */
  predicate IsStrict(p: seq<Int16>) {
    |p| % 2 == 0 && Increasing(p)
  }

  predicate AreRows(rows: seq<seq<Int16>>) {
    forall i :: 0 <= i < |rows| ==> IsRow(rows[i])
  }

  predicate AreStrict(rows: seq<seq<Int16>>) {
    forall i :: 0 <= i < |rows| ==> IsStrict(rows[i])
  }

  predicate InSpan(p: seq<Int16>, i: nat, x: int) {
    2 * i + 1 < |p| && p[2 * i] <= x < p[2 * i + 1]
  }

  ghost predicate InRow(p: seq<Int16>, x: int) {
    exists i: nat :: InSpan(p, i, x)
  }

  predicate InHeight(b: Band, y: int) {
    b.y0 <= y < b.y1
  }

  ghost predicate InBands(bs: seq<Band>, x: int, y: int) {
    exists k :: 0 <= k < |bs| && InHeight(bs[k], y) && InRow(bs[k].pts, x)
  }

  /** The point set of scanlines fed one below the other from y0 down. */
  ghost predicate InRows(y0: int, rows: seq<seq<Int16>>, x: int, y: int) {
    y0 <= y < y0 + |rows| && InRow(rows[y - y0], x)
  }

  /** Whether x is inside depends on how many toggles are at or before it. */
  lemma InRowAt(p: seq<Int16>, k: nat, x: int)
    requires IsRow(p) && k <= |p|
    requires k > 0 ==> p[k - 1] <= x
    requires k < |p| ==> x < p[k]
    ensures InRow(p, x) <==> k % 2 == 1
  {
    if k % 2 == 1 {
      assert InSpan(p, k / 2, x);
    } else {
    }
  }

  lemma FirstPoint(p: seq<Int16>)
    requires IsRow(p) && p != []
    ensures forall x :: InRow(p, x) ==> p[0] <= x
  {
    forall x | InRow(p, x)
      ensures p[0] <= x
    {
      var i: nat :| InSpan(p, i, x);
      assert p[0] <= p[2 * i];
    }
  }

  lemma FirstInside(p: seq<Int16>)
    requires IsStrict(p) && p != []
    ensures InRow(p, p[0])
  {
    assert InSpan(p, 0, p[0]);
  }

  lemma InTail(p: seq<Int16>, x: int)
    requires IsRow(p) && p != []
    ensures IsRow(p[2..])
    ensures InRow(p[2..], x) ==> p[1] <= x
    ensures InRow(p, x) <==> InRow(p[2..], x) || p[0] <= x < p[1]
  {
    if InRow(p[2..], x) {
      var i: nat :| InSpan(p[2..], i, x);
      assert InSpan(p, i + 1, x);
    }
    if InRow(p, x) && !(p[0] <= x < p[1]) {
      var i: nat :| InSpan(p, i, x);
      assert i > 0 && InSpan(p[2..], i - 1, x);
    }
    if p[0] <= x < p[1] {
      assert InSpan(p, 0, x);
    }
  }

  /** A scanline whose spans do not touch is determined by the points in it. */
  lemma {:induction false} RowUnique(p: seq<Int16>, q: seq<Int16>)
    requires IsStrict(p) && IsStrict(q)
    requires forall x :: InRow(p, x) <==> InRow(q, x)
    ensures p == q
  {
    if p == [] && q == [] {
    } else if p == [] {
      FirstInside(q);
    } else if q == [] {
      FirstInside(p);
    } else {
      SameFirst(p, q);
      SpanEnd(p, q);
      SpanEnd(q, p);
      forall x
        ensures InRow(p[2..], x) <==> InRow(q[2..], x)
      {
        InTail(p, x);
        InTail(q, x);
      }
      RowUnique(p[2..], q[2..]);
      assert p == p[..2] + p[2..] && q == q[..2] + q[2..];
    }
  }

  lemma SameFirst(p: seq<Int16>, q: seq<Int16>)
    requires IsStrict(p) && IsStrict(q) && p != [] && q != []
    requires forall x :: InRow(p, x) <==> InRow(q, x)
    ensures p[0] == q[0]
  {
    FirstInside(p);
    FirstInside(q);
    FirstPoint(p);
    FirstPoint(q);
  }

  lemma SpanEnd(p: seq<Int16>, q: seq<Int16>)
    requires IsStrict(p) && IsStrict(q) && p != [] && q != []
    requires p[0] == q[0]
    requires forall x :: InRow(p, x) <==> InRow(q, x)
    ensures p[1] <= q[1]
  {
    if q[1] < p[1] {
      assert InSpan(p, 0, q[1]);
      assert InRow(p, q[1]);
      InRowAt(q, 2, q[1]);
    }
  }

  // ---- Grouping rows into bands ----

  /** What the builder knows between scanlines: the bands finished, and the
      latest scanline with the number of times it has been seen in a row. */
  datatype Build = Build(done: seq<Band>, y: int, cur: Option<seq<Int16>>, height: nat)

  function Flushed(b: Build): seq<Band> {
    if b.cur.None? || b.cur.value == [] then b.done
    else b.done + [Band(ToInt16(b.y), ToInt16(b.y + b.height), b.cur.value)]
  }

  function Feed(b: Build, row: seq<Int16>): Build {
    if b.cur.None? then
      if row == [] then b.(y := b.y + 1) else b.(cur := Some(row), height := 1)
    else if b.cur.value == row && b.height < MAX_HEIGHT then b.(height := b.height + 1)
    else Build(Flushed(b), b.y + b.height, Some(row), 1)
  }

  function Fed(y0: int, rows: seq<seq<Int16>>): Build {
    if rows == [] then Build([], y0, None, 0) else Feed(Fed(y0, Front(rows)), Last(rows))
  }

  function BandsOfRows(y0: int, rows: seq<seq<Int16>>): seq<Band> {
    Flushed(Fed(y0, rows))
  }

  predicate GoodBand(b: Band) {
    b.y0 < b.y1 && b.pts != [] && IsRow(b.pts) && |b.pts| <= 2 * MAX_SPANS
  }

  predicate EachGood(bs: seq<Band>) {
    forall i :: 0 <= i < |bs| ==> GoodBand(bs[i])
  }

  /** Bands as they may be stored: non-empty and in order from top to bottom. */
  predicate GoodBands(bs: seq<Band>) {
    && EachGood(bs)
    && (forall i, j :: 0 <= i < j < |bs| ==> bs[i].y1 <= bs[j].y0)
  }

  predicate Fits(y0: int, rows: seq<seq<Int16>>) {
    -0x8000 <= y0 && y0 + |rows| <= 0x7FFF && AreRows(rows)
  }

  /** The bands finished so far hold the rows above b.y, and the pending height
      is that of equal rows ending at the latest one. */
  ghost predicate Holds(b: Build, y0: int, rows: seq<seq<Int16>>) {
    && (b.cur.None? ==> b.done == [] && b.y == y0 + |rows| && forall i :: 0 <= i < |rows| ==> rows[i] == [])
    && (b.cur.Some? ==> 1 <= b.height <= MAX_HEIGHT && y0 <= b.y && b.y + b.height == y0 + |rows|
                        && forall i :: b.y - y0 <= i < |rows| ==> rows[i] == b.cur.value)
    && (forall x, y :: InBands(b.done, x, y) <==> y < b.y && InRows(y0, rows, x, y))
  }

  lemma InBandsAppend(bs: seq<Band>, b: Band, x: int, y: int)
    ensures InBands(bs + [b], x, y) <==> InBands(bs, x, y) || (InHeight(b, y) && InRow(b.pts, x))
  {
    var cs := bs + [b];
    if InBands(bs, x, y) {
      var k :| 0 <= k < |bs| && InHeight(bs[k], y) && InRow(bs[k].pts, x);
      assert cs[k] == bs[k];
    }
    if InHeight(b, y) && InRow(b.pts, x) {
      assert cs[|bs|] == b;
    }
  }

  lemma NoPoints(x: int)
    ensures !InRow([], x)
  {
  }

  /** Flushing puts exactly the pending rows' points into the bands. */
  lemma FlushHolds(b: Build, y0: int, rows: seq<seq<Int16>>, x: int, y: int)
    requires Fits(y0, rows) && Holds(b, y0, rows)
    ensures InBands(Flushed(b), x, y) <==> InRows(y0, rows, x, y)
  {
    NoPoints(x);
    if b.cur.None? {
    } else if b.cur.value == [] {
      assert b.y <= y < y0 + |rows| ==> rows[y - y0] == [];
    } else {
      InBandsAppend(b.done, Band(b.y, b.y + b.height, b.cur.value), x, y);
      if b.y <= y < b.y + b.height {
        assert rows[y - y0] == b.cur.value;
      }
    }
  }

  lemma FeedHolds(b: Build, y0: int, rows: seq<seq<Int16>>, row: seq<Int16>)
    requires Fits(y0, rows + [row]) && Holds(b, y0, rows)
    ensures Holds(Feed(b, row), y0, rows + [row])
  {
    var more := rows + [row];
    assert IsRow(more[|rows|]);
    assert Fits(y0, rows) by {
      forall i | 0 <= i < |rows| ensures IsRow(rows[i]) { assert rows[i] == more[i]; }
    }
    var c := Feed(b, row);
    forall x, y
      ensures InBands(c.done, x, y) <==> y < c.y && InRows(y0, more, x, y)
    {
      NoPoints(x);
      FlushHolds(b, y0, rows, x, y);
      if y0 <= y < y0 + |rows| {
        assert more[y - y0] == rows[y - y0];
      }
    }
  }

  lemma {:induction false} FedHolds(y0: int, rows: seq<seq<Int16>>)
    requires Fits(y0, rows)
    ensures Holds(Fed(y0, rows), y0, rows)
  {
    if rows != [] {
      FedHolds(y0, Front(rows));
      assert Front(rows) + [Last(rows)] == rows;
      FeedHolds(Fed(y0, Front(rows)), y0, Front(rows), Last(rows));
    }
  }

  /** Grouping rows into bands keeps the point set. */
  lemma BandsHoldRows(y0: int, rows: seq<seq<Int16>>, x: int, y: int)
    requires Fits(y0, rows)
    ensures InBands(BandsOfRows(y0, rows), x, y) <==> InRows(y0, rows, x, y)
  {
    FedHolds(y0, rows);
    FlushHolds(Fed(y0, rows), y0, rows, x, y);
  }

  // ---- The bands are well formed ----

  predicate NarrowRows(rows: seq<seq<Int16>>) {
    forall i :: 0 <= i < |rows| ==> |rows[i]| <= 2 * MAX_SPANS
  }


  lemma GoodAppend(bs: seq<Band>, b: Band)
    requires GoodBands(bs) && GoodBand(b)
    requires bs != [] ==> Last(bs).y1 <= b.y0
    ensures GoodBands(bs + [b])
  {
    var cs := bs + [b];
    forall i, j | 0 <= i < j < |cs|
      ensures cs[i].y1 <= cs[j].y0
    {
      if j == |bs| && i < |bs| - 1 {
        assert bs[i].y1 <= bs[|bs| - 1].y0 < bs[|bs| - 1].y1;
      }
    }
  }

  /** The bands finished so far are in order above the pending rows. */
  ghost predicate Tidy(b: Build, fed: nat) {
    && GoodBands(b.done)
    && (b.done != [] ==> Last(b.done).y1 <= b.y)
    && (b.cur.Some? ==> IsRow(b.cur.value) && |b.cur.value| <= 2 * MAX_SPANS && |b.done| < fed)
    && |b.done| <= fed
  }

  lemma FlushedGood(b: Build, y0: int, rows: seq<seq<Int16>>)
    requires Fits(y0, rows) && Holds(b, y0, rows) && Tidy(b, |rows|)
    ensures GoodBands(Flushed(b)) && |Flushed(b)| <= |rows|
    ensures Flushed(b) != [] ==> Last(Flushed(b)).y1 <= b.y + (if b.cur.Some? then b.height else 0)
  {
    if b.cur.Some? && b.cur.value != [] {
      GoodAppend(b.done, Band(b.y, b.y + b.height, b.cur.value));
    }
  }

  lemma {:induction false} FedTidy(y0: int, rows: seq<seq<Int16>>)
    requires Fits(y0, rows) && NarrowRows(rows)
    ensures Tidy(Fed(y0, rows), |rows|)
  {
    if rows != [] {
      FedTidy(y0, Front(rows));
      FedHolds(y0, Front(rows));
      FlushedGood(Fed(y0, Front(rows)), y0, Front(rows));
      assert IsRow(Last(rows)) && |Last(rows)| <= 2 * MAX_SPANS;
    }
  }

  lemma BandsGood(y0: int, rows: seq<seq<Int16>>)
    requires Fits(y0, rows) && NarrowRows(rows)
    ensures GoodBands(BandsOfRows(y0, rows)) && |BandsOfRows(y0, rows)| <= |rows|
  {
    FedTidy(y0, rows);
    FedHolds(y0, rows);
    FlushedGood(Fed(y0, rows), y0, rows);
  }

  lemma OneMoreRow(y0: int, rows: seq<seq<Int16>>, row: seq<Int16>)
    requires Fits(y0, rows) && NarrowRows(rows) && IsRow(row) && |row| <= 2 * MAX_SPANS && y0 + |rows| < 0x7FFF
    ensures Fits(y0, rows + [row]) && NarrowRows(rows + [row]) && |row| % 2 == 0
  {
  }

  /** What a flush does with the pending rows. */
  lemma PendingBand(y0: int, rows: seq<seq<Int16>>)
    requires Fits(y0, rows) && NarrowRows(rows) && Fed(y0, rows).cur.Some?
    ensures var b := Fed(y0, rows);
            && b.y + b.height == y0 + |rows| && b.height > 0 && -0x8000 <= b.y && b.y + b.height <= 0x7FFF
            && (b.done != [] ==> Last(b.done).y1 <= b.y)
            && (b.cur.value == [] ==> Flushed(b) == b.done)
            && (b.cur.value != [] ==>
                  var band := Band(b.y, b.y + b.height, b.cur.value);
                  GoodBand(band) && Flushed(b) == b.done + [band])
  {
    FedHolds(y0, rows);
    FedTidy(y0, rows);
  }

  // ---- Canonical form ----

  lemma {:induction false} LeadingEmpty(y0: int, rows: seq<seq<Int16>>)
    ensures Fed(y0, [[]] + rows) == Fed(y0 + 1, rows)
  {
    if rows == [] {
      assert Front([[]] + rows) == [] && Last([[]] + rows) == [];
    } else {
      LeadingEmpty(y0, Front(rows));
      assert Front([[]] + rows) == [[]] + Front(rows);
    }
  }

  lemma TrailingEmpty(y0: int, rows: seq<seq<Int16>>)
    ensures BandsOfRows(y0, rows + [[]]) == BandsOfRows(y0, rows)
  {
    assert Front(rows + [[]]) == rows;
    FedNone(y0, rows);
  }

  lemma {:induction false} FedNone(y0: int, rows: seq<seq<Int16>>)
    ensures Fed(y0, rows).cur.None? ==> Fed(y0, rows).done == []
  {
    if rows != [] {
      FedNone(y0, Front(rows));
    }
  }

  ghost predicate SamePoints(y0: int, rows: seq<seq<Int16>>, z0: int, others: seq<seq<Int16>>) {
    forall x, y :: InRows(y0, rows, x, y) <==> InRows(z0, others, x, y)
  }

  lemma DropLeading(y0: int, rows: seq<seq<Int16>>, x: int, y: int)
    requires rows != [] && rows[0] == []
    ensures InRows(y0 + 1, rows[1..], x, y) <==> InRows(y0, rows, x, y)
  {
    NoPoints(x);
  }

  lemma DropTrailing(y0: int, rows: seq<seq<Int16>>, x: int, y: int)
    requires rows != [] && Last(rows) == []
    ensures InRows(y0, Front(rows), x, y) <==> InRows(y0, rows, x, y)
  {
    NoPoints(x);
  }

  /** Dropping empty rows at either end changes neither the points nor the bands. */
  lemma Trim(y0: int, rows: seq<seq<Int16>>) returns (top: int, rest: seq<seq<Int16>>)
    requires Fits(y0, rows)
    ensures Fits(top, rest)
    ensures rest != [] ==> rest[0] != [] && Last(rest) != []
    ensures SamePoints(y0, rows, top, rest) && (AreStrict(rows) ==> AreStrict(rest))
    ensures BandsOfRows(y0, rows) == BandsOfRows(top, rest)
    decreases |rows|
  {
    if rows == [] || (rows[0] != [] && Last(rows) != []) {
      return y0, rows;
    } else if rows[0] == [] {
      top, rest := Trim(y0 + 1, rows[1..]);
      LeadingEmpty(y0, rows[1..]);
      assert [[]] + rows[1..] == rows;
      forall x, y
        ensures InRows(y0, rows, x, y) <==> InRows(top, rest, x, y)
      {
        DropLeading(y0, rows, x, y);
      }
    } else {
      top, rest := Trim(y0, Front(rows));
      TrailingEmpty(y0, Front(rows));
      assert Front(rows) + [[]] == rows;
      forall x, y
        ensures InRows(y0, rows, x, y) <==> InRows(top, rest, x, y)
      {
        DropTrailing(y0, rows, x, y);
      }
    }
  }

  lemma TrimmedInside(y0: int, rows: seq<seq<Int16>>, z0: int, others: seq<seq<Int16>>)
    requires Fits(y0, rows) && Fits(z0, others) && SamePoints(y0, rows, z0, others) && AreStrict(rows)
    requires rows != [] ==> rows[0] != [] && Last(rows) != []
    ensures rows != [] ==> others != [] && z0 <= y0 && y0 + |rows| <= z0 + |others|
  {
    if rows != [] {
      FirstInside(rows[0]);
      assert InRows(y0, rows, rows[0][0], y0);
      FirstInside(Last(rows));
      assert InRows(y0, rows, Last(rows)[0], y0 + |rows| - 1);
    }
  }

  lemma TrimmedUnique(y0: int, rows: seq<seq<Int16>>, z0: int, others: seq<seq<Int16>>)
    requires Fits(y0, rows) && Fits(z0, others) && SamePoints(y0, rows, z0, others)
    requires AreStrict(rows) && AreStrict(others)
    requires rows != [] ==> rows[0] != [] && Last(rows) != []
    requires others != [] ==> others[0] != [] && Last(others) != []
    ensures rows == others && (rows != [] ==> y0 == z0)
  {
    TrimmedInside(y0, rows, z0, others);
    TrimmedInside(z0, others, y0, rows);
    forall i | 0 <= i < |rows|
      ensures rows[i] == others[i]
    {
      forall x
        ensures InRow(rows[i], x) <==> InRow(others[i], x)
      {
        assert InRows(y0, rows, x, y0 + i) <==> InRows(z0, others, x, y0 + i);
      }
      RowUnique(rows[i], others[i]);
    }
  }

  /** Two ways of feeding the same point set in strict rows give the same bands. */
  lemma CanonicalBands(y0: int, rows: seq<seq<Int16>>, z0: int, others: seq<seq<Int16>>)
    requires Fits(y0, rows) && Fits(z0, others) && SamePoints(y0, rows, z0, others)
    requires AreStrict(rows) && AreStrict(others)
    ensures BandsOfRows(y0, rows) == BandsOfRows(z0, others)
  {
    var top, rest := Trim(y0, rows);
    var top', rest' := Trim(z0, others);
    assert SamePoints(top, rest, top', rest') by {
      forall x, y
        ensures InRows(top, rest, x, y) <==> InRows(top', rest', x, y)
      {
        assert InRows(y0, rows, x, y) <==> InRows(top, rest, x, y);
        assert InRows(z0, others, x, y) <==> InRows(top', rest', x, y);
      }
    }
    TrimmedUnique(top, rest, top', rest');
  }

  // ---- Strict rows ----

  predicate EachStrict(bs: seq<Band>) {
    forall i :: 0 <= i < |bs| ==> IsStrict(bs[i].pts)
  }

  /** The bands are strict exactly if all rows are. */
  lemma BandsStrictIff(y0: int, rows: seq<seq<Int16>>)
    ensures EachStrict(BandsOfRows(y0, rows)) <==> AreStrict(rows)
  {
    FedStrictIff(y0, rows);
    FlushedStrict(Fed(y0, rows));
  }

  predicate StrictBuild(b: Build) {
    EachStrict(b.done) && (b.cur.Some? ==> IsStrict(b.cur.value))
  }

  lemma FlushedStrict(b: Build)
    ensures EachStrict(Flushed(b)) <==> StrictBuild(b)
  {
    var bs := Flushed(b);
    assert forall i :: 0 <= i < |b.done| ==> bs[i] == b.done[i];
    if b.cur.Some? && b.cur.value != [] {
      assert bs[|b.done|].pts == b.cur.value;
    }
  }

  lemma {:induction false} FedStrictIff(y0: int, rows: seq<seq<Int16>>)
    ensures StrictBuild(Fed(y0, rows)) <==> AreStrict(rows)
  {
    if rows != [] {
      FedStrictIff(y0, Front(rows));
      FlushedStrict(Fed(y0, Front(rows)));
      StrictSnoc(Front(rows), Last(rows));
      assert Front(rows) + [Last(rows)] == rows;
    }
  }

  lemma StrictSnoc(rows: seq<seq<Int16>>, row: seq<Int16>)
    ensures AreStrict(rows + [row]) <==> AreStrict(rows) && IsStrict(row)
  {
    hide IsStrict;
    var more := rows + [row];
    assert more[|rows|] == row && forall i :: 0 <= i < |rows| ==> more[i] == rows[i];
  }

  /** The strict row with the same points: empty spans go, and those that touch are joined. */
  function Unsplit(p: seq<Int16>): seq<Int16> {
    if |p| < 2 then []
    else
      var rest := Unsplit(p[2..]);
      if p[0] == p[1] then rest
      else if rest != [] && rest[0] == p[1] then [p[0]] + rest[1..]
      else p[..2] + rest
  }

  lemma {:induction false} UnsplitStrict(p: seq<Int16>)
    requires IsRow(p)
    ensures IsStrict(Unsplit(p)) && |Unsplit(p)| <= |p|
    ensures Unsplit(p) != [] ==> p[0] <= Unsplit(p)[0]
  {
    if p != [] {
      UnsplitStrict(p[2..]);
    }
  }

  lemma {:induction false} UnsplitPoints(p: seq<Int16>, x: int)
    requires IsRow(p)
    ensures InRow(Unsplit(p), x) <==> InRow(p, x)
  {
    if p != [] {
      UnsplitPoints(p[2..], x);
      InTail(p, x);
      UnsplitStrict(p[2..]);
      SpanJoined(p[0], p[1], Unsplit(p[2..]), x);
      assert p[..2] == [p[0], p[1]];
    }
  }

  /** A span in front of a strict row, joined to it if they touch. */
  lemma SpanJoined(a: Int16, b: Int16, rest: seq<Int16>, x: int)
    requires IsStrict(rest) && a <= b && (rest != [] ==> b <= rest[0])
    ensures a < b ==> (InRow([a, b] + rest, x) <==> a <= x < b || InRow(rest, x))
    ensures a < b && rest != [] && rest[0] == b ==>
              (InRow([a] + rest[1..], x) <==> a <= x < b || InRow(rest, x))
  {
    if a < b {
      InTail([a, b] + rest, x);
      assert ([a, b] + rest)[2..] == rest;
      if rest != [] && rest[0] == b {
        InTail([a] + rest[1..], x);
        InTail(rest, x);
        assert ([a] + rest[1..])[2..] == rest[2..];
      }
    }
  }

  lemma {:induction false} UnsplitSame(p: seq<Int16>)
    requires IsRow(p)
    ensures Unsplit(p) == p <==> IsStrict(p)
  {
    UnsplitStrict(p);
    if IsStrict(p) {
      forall x ensures InRow(Unsplit(p), x) <==> InRow(p, x) { UnsplitPoints(p, x); }
      RowUnique(Unsplit(p), p);
    }
  }

  function UnsplitRows(rows: seq<seq<Int16>>): (unsplit: seq<seq<Int16>>)
    ensures |unsplit| == |rows| && forall i :: 0 <= i < |rows| ==> unsplit[i] == Unsplit(rows[i])
  {
    seq(|rows|, i requires 0 <= i < |rows| => Unsplit(rows[i]))
  }

  lemma UnsplitRowsFit(y0: int, rows: seq<seq<Int16>>)
    requires Fits(y0, rows) && NarrowRows(rows)
    ensures Fits(y0, UnsplitRows(rows)) && NarrowRows(UnsplitRows(rows)) && AreStrict(UnsplitRows(rows))
    ensures SamePoints(y0, rows, y0, UnsplitRows(rows))
    ensures UnsplitRows(rows) == rows <==> AreStrict(rows)
  {
    hide Unsplit, IsStrict, IsRow, InRow;
    var unsplit := UnsplitRows(rows);
    forall i | 0 <= i < |rows|
      ensures IsStrict(unsplit[i]) && IsRow(unsplit[i]) && |unsplit[i]| <= |rows[i]|
      ensures unsplit[i] == rows[i] <==> IsStrict(rows[i])
    {
      UnsplitStrict(rows[i]);
      StrictIsRow(unsplit[i]);
      UnsplitSame(rows[i]);
    }
    forall x, y
      ensures InRows(y0, rows, x, y) <==> InRows(y0, unsplit, x, y)
    {
      if y0 <= y < y0 + |rows| {
        UnsplitPoints(rows[y - y0], x);
      }
    }
  }

  lemma StrictIsRow(p: seq<Int16>)
    requires IsStrict(p)
    ensures IsRow(p)
  {
  }

  // ---- Regions ----

  /** A `struct region`: no storage at all, or a header and the bytes after it. */
  datatype Region = NoData | Data(numBands: nat, transX: int, transY: int, bytes: seq<Byte>)

  predicate IsEmpty(r: Region) {
    r.NoData? || r.numBands == 0
  }

  function BandsOf(r: Region): seq<Band> {
    if IsEmpty(r) then []
    else match Decode(r.bytes, r.numBands)
      case None => []
      case Some(bs) => bs
  }

  function TransX(r: Region): int {
    if IsEmpty(r) then 0 else r.transX
  }

  function TransY(r: Region): int {
    if IsEmpty(r) then 0 else r.transY
  }

  predicate InRange(x: int) {
    -0x8000 <= x < 0x8000
  }

  /** A translated band whose coordinates all stay within int16_t. */
  predicate BandInRange(b: Band, dx: int, dy: int) {
    && InRange(b.y0 + dy) && InRange(b.y1 + dy)
    && forall i :: 0 <= i < |b.pts| ==> InRange(b.pts[i] + dx)
  }

  predicate WellFormed(r: Region) {
    IsEmpty(r) ||
    (Decode(r.bytes, r.numBands).Some? && GoodBands(BandsOf(r))
     && forall i :: 0 <= i < |BandsOf(r)| ==> BandInRange(BandsOf(r)[i], r.transX, r.transY))
  }

  /** The points of a region: those of its bands, moved by its translation. */
  ghost predicate InRegion(r: Region, x: int, y: int) {
    InBands(BandsOf(r), x - TransX(r), y - TransY(r))
  }
}
