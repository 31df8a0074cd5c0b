/** Combining two regions: merge the rows where either changes, then sweep each
    slice between neighbouring changes and rebuild. */
module RegionCombine {
  import opened Words
  import opened Options
  import opened RegionFormat
  import opened RegionRows
  import opened RegionBuilder
  import opened RegionCanonical
  import opened RegionIterator
  import opened RegionScreen
  import opened RegionSweep

  const NOWHERE := -0x8000 - 1

  // ---- Reading a region band by band ----

  /** The position of a walk that has just met the start of band n - 1. */
  function Started(bs: seq<Band>, n: nat): nat
    requires n <= |bs|
  {
    if n == 0 then 0 else EventPos(bs, n - 1) + 1
  }

  ghost predicate Met(it: RegionIterator, n: nat)
    reads it
  {
    it.Valid() && n <= |BandsOf(it.rgn)| && it.Seen() == Started(BandsOf(it.rgn), n)
  }

  lemma WalkEvents(it: RegionIterator)
    requires it.Valid()
    ensures WellFormed(it.rgn) && it.All() == Events(BandsOf(it.rgn), TransX(it.rgn), TransY(it.rgn))
  {
  }

  lemma NextStart(r: Region, n: nat, m: nat)
    requires WellFormed(r) && 0 < n <= |BandsOf(r)|
    requires m == (if n < |BandsOf(r)| then EventPos(BandsOf(r), n) else |Events(BandsOf(r), TransX(r), TransY(r))|)
    ensures m == Started(BandsOf(r), n) + |BandsOf(r)[n - 1].pts| / 2
    ensures m <= |Events(BandsOf(r), TransX(r), TransY(r))|
    ensures forall k :: Started(BandsOf(r), n) <= k < m ==> Events(BandsOf(r), TransX(r), TransY(r))[k].Rect?
  {
    hide WellFormed, Decode, Events;
    var bs := BandsOf(r);
    EventCount(bs, TransX(r), TransY(r));
    EventsAt(bs, n - 1, TransX(r), TransY(r));
    forall k | Started(bs, n) <= k < m
      ensures Events(bs, TransX(r), TransY(r))[k].Rect?
    {
      var j := k - Started(bs, n);
      assert k == EventPos(bs, n - 1) + 1 + j;
      assert Events(bs, TransX(r), TransY(r))[k] == RectEvent(bs[n - 1], j, TransX(r), TransY(r));
    }
  }

  lemma NoneBefore(bs: seq<Band>)
    ensures EventPos(bs, 0) == 0
  {
  }

  /** With only bands stopping it, the walk stops next at the start of band n. */
  lemma FirstBandAfter(r: Region, n: nat, s: nat)
    requires WellFormed(r) && n <= |BandsOf(r)|
    requires Started(BandsOf(r), n) <= s <= |Events(BandsOf(r), TransX(r), TransY(r))|
    ensures var all := Events(BandsOf(r), TransX(r), TransY(r)); var from := Started(BandsOf(r), n);
            from < s && all[s - 1].BandStart? && (forall k :: from <= k < s - 1 ==> all[k].Rect?) ==>
              n < |BandsOf(r)| && s == Started(BandsOf(r), n + 1)
              && all[s - 1] == BandStart(ScreenBands(r)[n].y0, ScreenBands(r)[n].y1)
    ensures var all := Events(BandsOf(r), TransX(r), TransY(r)); var from := Started(BandsOf(r), n);
            s == |all| && (forall k :: from <= k < s ==> all[k].Rect?) ==> n == |BandsOf(r)|
  {
    hide WellFormed, Decode, Events, EventPos;
    var bs := BandsOf(r);
    var all := Events(bs, TransX(r), TransY(r));
    if n < |bs| {
      var pos := EventPos(bs, n);
      EventsAt(bs, n, TransX(r), TransY(r));
      ScreenEvents(r, n);
      if n > 0 {
        NextStart(r, n, pos);
      } else {
        NoneBefore(bs);
      }
      assert all[pos].BandStart?;
    } else if n > 0 {
      NextStart(r, n, |all|);
    } else {
      EventCount(bs, TransX(r), TransY(r));
      NoneBefore(bs);
    }
  }

  /** RegionCombinationEdgeCallback: walks to the start of band n, if there is one. */
  method NextBand(it: RegionIterator, ghost n: nat) returns (found: bool, y0: int, y1: int)
    requires Met(it, n) && !it.done
    modifies it
    ensures it.Valid() && found == !it.done && (found <==> n < |BandsOf(it.rgn)|)
    ensures found ==> Met(it, n + 1) && y0 == ScreenBands(it.rgn)[n].y0 && y1 == ScreenBands(it.rgn)[n].y1
    ensures found ==> it.ScaledIs(BandStart(y0, y1))
  {
    hide Decode, Events, EventPos, ScreenBands, BandsOf, RegionIterator.Valid, RegionIterator.Seen, RegionIterator.All;
    WalkEvents(it);
    ghost var from := it.Seen();
    var passed := it.Resume(Stop, Absent);
    NoneSkipped(it.All(), passed, from, it.Seen(), it.done);
    FirstBandAfter(it.rgn, n, it.Seen());
    found, y0, y1 := !it.done, 0, 0;
    if found {
      y0, y1 := passed[|passed| - 1].y0, passed[|passed| - 1].y1;
    }
  }

  lemma NoneSkipped(all: seq<Event>, passed: seq<Event>, from: nat, seen: nat, done: bool)
    requires from <= seen <= |all| && passed == all[from..seen]
    requires !done ==> passed != [] && Last(passed).BandStart?
    requires !done ==> forall e :: e in Front(passed) ==> !e.BandStart?
    requires done ==> forall e :: e in passed ==> !e.BandStart?
    ensures !done ==> from < seen && all[seen - 1] == Last(passed)
    ensures !done ==> forall k :: from <= k < seen - 1 ==> all[k].Rect?
    ensures done ==> forall k :: from <= k < seen ==> all[k].Rect?
  {
    forall k | from <= k < seen && (done || k < seen - 1)
      ensures all[k].Rect?
    {
      assert all[k] == passed[k - from];
      assert !done ==> Front(passed)[k - from] == passed[k - from];
    }
  }

  // ---- First pass: the rows where something happens ----

  /** What one side of the merge has read: ca of its edges have been consumed and
      `count` more (e0, e1) wait in the buffer. */
  ghost predicate Buffered(it: RegionIterator, ca: nat, count: nat, e0: int, e1: int)
    reads it
  {
    var bs := ScreenBands(it.rgn);
    && it.Valid() && count <= 2 && (ca + count) % 2 == 0 && ca + count <= 2 * |bs|
    && (count >= 1 ==> e0 == EdgeAt(bs, ca))
    && (count == 2 ==> e1 == EdgeAt(bs, ca + 1))
    && (it.done ==> count == 0 && ca == 2 * |bs|)
    && (!it.done ==> Met(it, (ca + count) / 2))
  }

  /** Refills an empty buffer with the next band's two edges. */
  method Refill(it: RegionIterator, ghost ca: nat, count: nat, e0: int, e1: int)
    returns (count': nat, e0': int, e1': int)
    requires Buffered(it, ca, count, e0, e1)
    modifies it
    ensures Buffered(it, ca, count', e0', e1')
    ensures count' == 0 <==> ca == 2 * |ScreenBands(it.rgn)|
    ensures count' == 0 ==> it.done
  {
    hide ScreenBands, BandsOf, RegionIterator.Valid, RegionIterator.Seen, RegionIterator.All, EventPos;
    count', e0', e1' := count, e0, e1;
    if count == 0 && !it.done {
      var found, y0, y1 := NextBand(it, ca / 2);
      if found {
        count', e0', e1' := 2, y0, y1;
      }
    }
  }

  predicate Climbing(edges: seq<Int16>) {
    forall i, j :: 0 <= i < j < |edges| ==> edges[i] < edges[j]
  }

  /** The first ca edges of the bands are in the list, and the list has not passed edge ca. */
  ghost predicate Covers(edges: seq<Int16>, bs: seq<Band>, ca: nat) {
    && ca <= 2 * |bs|
    && (forall m :: 0 <= m < ca ==> EdgeAt(bs, m) in edges)
    && (edges != [] && ca < 2 * |bs| ==> Last(edges) <= EdgeAt(bs, ca))
  }

  predicate IsEdge(bs: seq<Band>, e: Int16) {
    exists m :: 0 <= m < 2 * |bs| && EdgeAt(bs, m) == e
  }

  /** Nothing but edges of either is in the list. */
  ghost predicate OnlyEdges(edges: seq<Int16>, own: seq<Band>, other: seq<Band>) {
    forall e {:trigger e in edges} :: e in edges ==> IsEdge(own, e) || IsEdge(other, e)
  }

  /** Appends e unless it is the edge written last. */
  method WriteEdge(edges: seq<Int16>, previousWritten: int, e: Int16, ghost own: seq<Band>, ghost ca: nat,
                   ghost other: seq<Band>, ghost cb: nat)
    returns (edges': seq<Int16>, previousWritten': int)
    requires GoodBands(own) && GoodBands(other)
    requires Climbing(edges) && previousWritten == if edges == [] then NOWHERE else Last(edges)
    requires Covers(edges, own, ca) && Covers(edges, other, cb) && OnlyEdges(edges, own, other)
    requires ca < 2 * |own| && e == EdgeAt(own, ca) && (cb < 2 * |other| ==> e <= EdgeAt(other, cb))
    ensures edges' != [] && Climbing(edges') && previousWritten' == Last(edges')
    ensures Covers(edges', own, ca + 1) && Covers(edges', other, cb) && OnlyEdges(edges', own, other)
  {
    edges', previousWritten' := edges, previousWritten;
    if e > previousWritten {
      edges' := edges + [e];
      previousWritten' := e;
    }
    if ca + 1 < 2 * |own| {
      EdgesInOrder(own, ca, ca + 1);
    }
    assert Last(edges') == e;
    assert forall m :: 0 <= m < ca ==> EdgeAt(own, m) in edges;
  }

  lemma BufferStart(it: RegionIterator)
    requires it.Valid() && it.Seen() == 0 && !it.done
    ensures Buffered(it, 0, 0, 0, 0)
  {
  }

  lemma BufferNext(it: RegionIterator, ca: nat, count: nat, e0: int, e1: int)
    requires Buffered(it, ca, count, e0, e1)
    ensures it.Valid() && ca <= 2 * |ScreenBands(it.rgn)| && (it.done ==> ca == 2 * |ScreenBands(it.rgn)|)
    ensures count > 0 ==> ca < 2 * |ScreenBands(it.rgn)| && e0 == EdgeAt(ScreenBands(it.rgn), ca)
    ensures count > 0 ==> Buffered(it, ca + 1, count - 1, e1, e1)
  {
    hide ScreenBands, EdgeAt;
  }

  ghost predicate Merged(edges: seq<Int16>, previousWritten: int, own: seq<Band>, ca: nat, other: seq<Band>, cb: nat) {
    && Climbing(edges) && previousWritten == (if edges == [] then NOWHERE else Last(edges))
    && Covers(edges, own, ca) && Covers(edges, other, cb) && OnlyEdges(edges, own, other)
  }

  /** Consumes the first buffered edge of one side, which is not after the other side's next. */
  method TakeEdge(ghost it: RegionIterator, ghost ca: nat, count: nat, e0: int, e1: int,
                  edges: seq<Int16>, previousWritten: int, ghost other: seq<Band>, ghost cb: nat)
    returns (count': nat, e0': int, edges': seq<Int16>, previousWritten': int)
    requires Buffered(it, ca, count, e0, e1) && count > 0
    requires GoodBands(ScreenBands(it.rgn)) && GoodBands(other)
    requires Merged(edges, previousWritten, ScreenBands(it.rgn), ca, other, cb)
          || Merged(edges, previousWritten, other, cb, ScreenBands(it.rgn), ca)
    requires cb < 2 * |other| ==> e0 <= EdgeAt(other, cb)
    ensures Buffered(it, ca + 1, count', e0', e1)
    ensures Merged(edges', previousWritten', ScreenBands(it.rgn), ca + 1, other, cb)
    ensures Merged(edges', previousWritten', other, cb, ScreenBands(it.rgn), ca + 1)
  {
    hide ScreenBands, EdgeAt, GoodBands, Covers, Climbing, Buffered, RegionIterator.Valid, RegionIterator.Seen, Last;
    BufferNext(it, ca, count, e0, e1);
    count' := count - 1;
    edges', previousWritten' := WriteEdge(edges, previousWritten, e0, ScreenBands(it.rgn), ca, other, cb);
    e0' := e1;
  }

  lemma MergedNone(own: seq<Band>, other: seq<Band>)
    ensures Merged([], NOWHERE, own, 0, other, 0)
  {
  }

  /** The merged edges: strictly increasing, and exactly the edges of both regions. */
  method MergeEdges(a: Region, b: Region) returns (yEdges: seq<Int16>)
    requires WellFormed(a) && WellFormed(b)
    ensures Climbing(yEdges)
    ensures Covers(yEdges, ScreenBands(a), 2 * |ScreenBands(a)|)
    ensures Covers(yEdges, ScreenBands(b), 2 * |ScreenBands(b)|)
    ensures OnlyEdges(yEdges, ScreenBands(a), ScreenBands(b))
  {
    hide *;
    ghost var as_, bs := ScreenBands(a), ScreenBands(b);
    ScreenGood(a);
    ScreenGood(b);
    var aCtxt := new RegionIterator(a);
    var bCtxt := new RegionIterator(b);
    var aCount, bCount, a0, a1, b0, b1 := 0, 0, 0, 0, 0, 0;
    var previousWritten := NOWHERE;
    ghost var ca, cb := 0, 0;
    yEdges := [];
    BufferStart(aCtxt);
    BufferStart(bCtxt);
    MergedNone(as_, bs);
    while !aCtxt.done || !bCtxt.done
      invariant aCtxt != bCtxt && fresh(aCtxt) && fresh(bCtxt) && aCtxt.rgn == a && bCtxt.rgn == b
      invariant Buffered(aCtxt, ca, aCount, a0, a1) && Buffered(bCtxt, cb, bCount, b0, b1)
      invariant ca <= 2 * |as_| && cb <= 2 * |bs|
      invariant Merged(yEdges, previousWritten, as_, ca, bs, cb)
      decreases 2 * |as_| - ca + 2 * |bs| - cb
    {
      aCount, a0, a1 := Refill(aCtxt, ca, aCount, a0, a1);
      bCount, b0, b1 := Refill(bCtxt, cb, bCount, b0, b1);
      if aCount == 0 && bCount == 0 {
        break;
      }
      BufferNext(aCtxt, ca, aCount, a0, a1);
      BufferNext(bCtxt, cb, bCount, b0, b1);
      var chooseB := if aCount == 0 then true else if bCount == 0 then false else b0 < a0;
      if chooseB {
        bCount, b0, yEdges, previousWritten := TakeEdge(bCtxt, cb, bCount, b0, b1, yEdges, previousWritten, as_, ca);
        cb := cb + 1;
      } else {
        aCount, a0, yEdges, previousWritten := TakeEdge(aCtxt, ca, aCount, a0, a1, yEdges, previousWritten, bs, cb);
        ca := ca + 1;
      }
    }
    BufferNext(aCtxt, ca, aCount, a0, a1);
    BufferNext(bCtxt, cb, bCount, b0, b1);
    MergedSwap(yEdges, previousWritten, as_, ca, bs, cb);
  }

  lemma MergedSwap(edges: seq<Int16>, previousWritten: int, own: seq<Band>, ca: nat, other: seq<Band>, cb: nat)
    requires Merged(edges, previousWritten, own, ca, other, cb)
    ensures Merged(edges, previousWritten, other, cb, own, ca)
    ensures Climbing(edges) && Covers(edges, own, ca) && Covers(edges, other, cb) && OnlyEdges(edges, own, other)
  {
  }

  // ---- Second pass: one slice at a time ----

  lemma NextRect(r: Region, n: nat, m: nat, all: seq<Event>)
    requires WellFormed(r) && n < |BandsOf(r)| && 2 * m <= |ScreenBands(r)[n].pts|
    requires all == Events(BandsOf(r), TransX(r), TransY(r))
    ensures var pos := Started(BandsOf(r), n + 1) + m; var c := ScreenBands(r)[n];
            if 2 * m < |c.pts| then
              pos < |all| && 2 * m + 1 < |c.pts| && all[pos] == Rect(c.y0, c.y1, c.pts[2 * m], c.pts[2 * m + 1])
            else if n + 1 < |BandsOf(r)| then
              pos + 1 == Started(BandsOf(r), n + 2) <= |all|
              && all[pos] == BandStart(ScreenBands(r)[n + 1].y0, ScreenBands(r)[n + 1].y1)
            else pos == |all|
  {
    hide WellFormed, Decode, Events, MovedBand, EventPos;
    var bs := BandsOf(r);
    ScreenEvents(r, n);
    EventsAt(bs, n, TransX(r), TransY(r));
    EventPosFacts(bs, n, TransX(r), TransY(r));
    assert |ScreenBands(r)[n].pts| % 2 == 0 by {
      ScreenGood(r);
    }
    if 2 * m < |bs[n].pts| {
      assert all[EventPos(bs, n) + 1 + m] == RectEvent(bs[n], m, TransX(r), TransY(r));
    } else if n + 1 < |bs| {
      ScreenEvents(r, n + 1);
      EventsAt(bs, n + 1, TransX(r), TransY(r));
      EventPosFacts(bs, n + 1, TransX(r), TransY(r));
    }
  }

  /** Walks one event on, stopping at anything. */
  method NextEvent(it: RegionIterator) returns (event: Option<Event>)
    requires it.Valid() && !it.done
    modifies it
    ensures it.Valid()
    ensures old(it.Seen()) == |it.All()| ==> it.done && event == None
    ensures old(it.Seen()) < |it.All()| ==>
              !it.done && event == Some(it.All()[old(it.Seen())]) && it.Seen() == old(it.Seen()) + 1
              && (event.value.BandStart? ==> it.ScaledIs(event.value))
    ensures old(it.Seen()) <= |it.All()|
  {
    hide RegionIterator.Valid, RegionIterator.Seen, RegionIterator.All;
    ghost var from := it.Seen();
    var passed := it.Resume(Stop, Stop);
    NoneStops(passed);
    if it.done {
      event := None;
    } else {
      NoneStops(Front(passed));
      assert |passed| == 1 && it.Seen() == from + 1;
      event := Some(passed[|passed| - 1]);
    }
  }

  /** Everything stops a walk that stops at anything. */
  lemma NoneStops(events: seq<Event>)
    ensures events == [] || !RegionIterator.Passes(events, Stop, Stop)
  {
    if events != [] {
      assert RegionIterator.Stops(events[0], Stop, Stop);
    }
  }

  /** The walk stands at the start of band n, or is done and n is the number of bands. */
  ghost predicate Waiting(it: RegionIterator, n: nat)
    reads it
  {
    && it.Valid() && n <= |BandsOf(it.rgn)|
    && (it.done ==> n == |BandsOf(it.rgn)|)
    && (!it.done ==> n < |BandsOf(it.rgn)| && Met(it, n + 1)
                     && it.ScaledIs(BandStart(ScreenBands(it.rgn)[n].y0, ScreenBands(it.rgn)[n].y1)))
  }

  /** Reads the spans of the band the walk stands at, up to the start of the next one. */
  method LoadBand(it: RegionIterator, ghost n: nat) returns (y0: int, y1: int, xPoints: seq<Int16>)
    requires Waiting(it, n) && !it.done
    modifies it
    ensures Waiting(it, n + 1)
    ensures y0 == ScreenBands(it.rgn)[n].y0 && y1 == ScreenBands(it.rgn)[n].y1 && xPoints == ScreenBands(it.rgn)[n].pts
  {
    hide RegionIterator.Valid, RegionIterator.Seen, RegionIterator.All, WellFormed, BandsOf, ScreenBands, EventPos,
         Events;
    y0 := it.scaledY0 + TransY(it.rgn);
    y1 := it.scaledY1 + TransY(it.rgn);
    xPoints := [];
    WalkEvents(it);
    ghost var r, c, all := it.rgn, ScreenBands(it.rgn)[n], it.All();
    ghost var m := 0;
    while true
      invariant it.Valid() && !it.done && it.rgn == r && it.All() == all
      invariant 2 * m <= |c.pts| && xPoints == c.pts[..2 * m]
      invariant it.Seen() == Started(BandsOf(r), n + 1) + m
      decreases |c.pts| - 2 * m
    {
      NextRect(r, n, m, all);
      var event := NextEvent(it);
      WalkEvents(it);
      if event.None? || event.value.BandStart? {
        break;
      }
      xPoints := xPoints + [event.value.x0] + [event.value.x1];
      m := m + 1;
    }
  }

  /** The latest band read is n - 1, and every band before it ends by the given row. */
  ghost predicate Loaded(it: RegionIterator, n: nat, y0: int, y1: int, xPoints: seq<Int16>, row: int)
    reads it
  {
    var cs := ScreenBands(it.rgn);
    && Waiting(it, n) && !IsEmpty(it.rgn)
    && (n == 0 ==> y1 == NOWHERE)
    && (n > 0 ==> y0 == cs[n - 1].y0 && y1 == cs[n - 1].y1 && xPoints == cs[n - 1].pts)
    && (forall m :: 0 <= m < n - 1 ==> cs[m].y1 <= row)
  }

  /** Once the band read ends below the row (or none is left), it shows the row's scanline. */
  lemma RowShown(it: RegionIterator, n: nat, y0: int, y1: int, xPoints: seq<Int16>, row: int)
    requires WellFormed(it.rgn) && Loaded(it, n, y0, y1, xPoints, row) && row >= -0x8000
    requires it.done || y1 > row
    ensures RowAt(ScreenBands(it.rgn), row) == if y0 <= row < y1 then xPoints else []
  {
    hide RegionIterator.Valid, RegionIterator.Seen, WellFormed, ScreenBands, BandsOf, Met;
    var cs := ScreenBands(it.rgn);
    ScreenGood(it.rgn);
    if n > 0 && y0 <= row < y1 {
      RowAtBand(cs, row, n - 1);
    } else {
      forall k | 0 <= k < |cs|
        ensures !InHeight(cs[k], row)
      {
        if k >= n {
          assert n > 0 ==> cs[n - 1].y1 <= cs[k].y0;
        }
      }
      RowAtGap(cs, row);
    }
  }

  /** Reads bands until one ends below the row, and picks out the row's scanline. */
  method SeekRow(it: RegionIterator, ghost n: nat, y0: int, y1: int, xPoints: seq<Int16>, row: int)
    returns (ghost n': nat, y0': int, y1': int, xPoints': seq<Int16>, shown: seq<Int16>)
    requires WellFormed(it.rgn) && Loaded(it, n, y0, y1, xPoints, row) && row >= -0x8000
    modifies it
    ensures Loaded(it, n', y0', y1', xPoints', row)
    ensures shown == RowAt(ScreenBands(it.rgn), row)
  {
    hide RegionIterator.Valid, RegionIterator.Seen, WellFormed, ScreenBands, BandsOf, RowAt;
    n', y0', y1', xPoints' := n, y0, y1, xPoints;
    while !it.done && y1' <= row
      invariant Loaded(it, n', y0', y1', xPoints', row)
      decreases |ScreenBands(it.rgn)| - n'
    {
      y0', y1', xPoints' := LoadBand(it, n');
      n' := n' + 1;
    }
    NotAtStart(it, n');
    RowShown(it, n', y0', y1', xPoints', row);
    var hasData := row >= y0' && row < y1' && !(it.i == 0 && it.done);
    shown := if hasData then xPoints' else [];
  }

  lemma NotAtStart(it: RegionIterator, n: nat)
    requires Waiting(it, n) && !IsEmpty(it.rgn)
    ensures !(it.i == 0 && it.done)
  {
  }

  lemma LoadedLower(it: RegionIterator, n: nat, y0: int, y1: int, xPoints: seq<Int16>, row: int, row': int)
    requires Loaded(it, n, y0, y1, xPoints, row) && row <= row'
    ensures Loaded(it, n, y0, y1, xPoints, row')
  {
    hide RegionIterator.Valid, RegionIterator.Seen, ScreenBands, Waiting;
  }

  /** A new walk, taken to the start of the first band. */
  method Prime(r: Region) returns (it: RegionIterator)
    requires WellFormed(r) && !IsEmpty(r)
    ensures fresh(it) && it.rgn == r && Loaded(it, 0, NOWHERE, NOWHERE, [], -0x8000)
  {
    hide RegionIterator.Seen, ScreenBands;
    it := new RegionIterator(r);
    HasBands(r);
    hide RegionIterator.Valid, WellFormed, BandsOf;
    var found, y0, y1 := NextBand(it, 0);
  }

  lemma HasBands(r: Region)
    requires WellFormed(r) && !IsEmpty(r)
    ensures |BandsOf(r)| > 0
  {
    DecodedRegion(r);
  }

  // ---- Feeding the slices to the builder ----

  /** Feeds one slice: the same scanline for each of its rows. */
  method FeedSlice(out: RegionBuilder, outSpans: seq<Int16>, height: nat)
    requires out.Valid() && IsRow(outSpans) && |outSpans| <= 2 * MAX_SPANS
    requires out.firstY + |out.rows| + height <= 0x7FFF
    modifies out
    ensures out.Valid() && out.firstY == old(out.firstY)
    ensures out.rows == old(out.rows) + EqualRows(outSpans, height) && |out.rows| == |old(out.rows)| + height
  {
    hide RegionBuilder.Holding, IsRow, Fed;
    assert out.rows == old(out.rows) + EqualRows(outSpans, 0);
    for i := 0 to height
      invariant out.Valid() && out.firstY == old(out.firstY)
      invariant out.rows == old(out.rows) + EqualRows(outSpans, i)
    {
      OneMoreRow(out.firstY, out.rows, outSpans);
      out.AddScanline(|outSpans| / 2, outSpans, i != 0);
      assert EqualRows(outSpans, i + 1) == EqualRows(outSpans, i) + [outSpans];
    }
  }

  // ---- The combination ----

  /** The scanline the combination must show at row y. */
  ghost function CombinedAt(mode: Mode, a: Region, b: Region, y: int): seq<Int16> {
    CombinedRow(mode, RowAt(ScreenBands(a), y), RowAt(ScreenBands(b), y))
  }

  /** No scanline of the combination needs more spans than the format can count. */
  ghost predicate NarrowCombination(mode: Mode, a: Region, b: Region) {
    forall y :: |CombinedAt(mode, a, b, y)| <= 2 * MAX_SPANS
  }

  /** It is so wherever the spans of both at a row are together no more than that. */
  lemma NarrowByRows(mode: Mode, a: Region, b: Region)
    requires WellFormed(a) && WellFormed(b)
    requires forall y :: |RowAt(ScreenBands(a), y)| + |RowAt(ScreenBands(b), y)| <= 2 * MAX_SPANS
    ensures NarrowCombination(mode, a, b)
  {
    hide WellFormed, ScreenBands, RowAt, CombinedRow, GoodBands, InRegion, IsRow;
    ScreenGood(a);
    ScreenGood(b);
    forall y
      ensures |CombinedAt(mode, a, b, y)| <= 2 * MAX_SPANS
    {
      RowAtPoints(ScreenBands(a), y);
      RowAtPoints(ScreenBands(b), y);
      CombinedRowPoints(mode, RowAt(ScreenBands(a), y), RowAt(ScreenBands(b), y));
    }
  }

  /** Where neither has touching or empty spans, the combination has none. */
  lemma CombinedAtStrict(mode: Mode, a: Region, b: Region, y: int)
    requires WellFormed(a) && WellFormed(b) && EachStrict(BandsOf(a)) && EachStrict(BandsOf(b))
    ensures IsStrict(CombinedAt(mode, a, b, y))
  {
    hide WellFormed, ScreenBands, RowAt, CombinedRow, BandsOf, IsStrict;
    ScreenStrict(a);
    ScreenStrict(b);
    RowAtStrict(ScreenBands(a), y);
    RowAtStrict(ScreenBands(b), y);
    CombinedRowStrict(mode, RowAt(ScreenBands(a), y), RowAt(ScreenBands(b), y));
  }

  lemma RowsStrict(mode: Mode, a: Region, b: Region, top: int, rows: seq<seq<Int16>>)
    requires WellFormed(a) && WellFormed(b) && RowsCombined(mode, a, b, top, rows)
    requires EachStrict(BandsOf(a)) && EachStrict(BandsOf(b))
    ensures AreStrict(rows)
  {
    hide WellFormed, BandsOf, EachStrict, CombinedAt, IsStrict;
    forall k | 0 <= k < |rows|
      ensures IsStrict(rows[k])
    {
      CombinedAtStrict(mode, a, b, top + k);
    }
  }

  ghost predicate RowsCombined(mode: Mode, a: Region, b: Region, top: int, rows: seq<seq<Int16>>) {
    forall k :: 0 <= k < |rows| ==> rows[k] == CombinedAt(mode, a, b, top + k)
  }

  lemma CombinedAtRow(mode: Mode, a: Region, b: Region, y: int)
    requires WellFormed(a) && WellFormed(b)
    ensures IsRow(RowAt(ScreenBands(a), y)) && IsRow(RowAt(ScreenBands(b), y)) && IsRow(CombinedAt(mode, a, b, y))
  {
    hide WellFormed, ScreenBands, RowAt, CombinedAt, InRegion, IsRow;
    CombinedAtPoints(mode, a, b, y);
  }

  lemma CombinedAtPoints(mode: Mode, a: Region, b: Region, y: int)
    requires WellFormed(a) && WellFormed(b)
    ensures IsRow(RowAt(ScreenBands(a), y)) && IsRow(RowAt(ScreenBands(b), y)) && IsRow(CombinedAt(mode, a, b, y))
    ensures forall x :: InRow(CombinedAt(mode, a, b, y), x) <==> Holds2(mode, InRegion(a, x, y), InRegion(b, x, y))
  {
    hide WellFormed, ScreenBands, RowAt, CombinedRow, GoodBands, InRegion, IsRow;
    ScreenGood(a);
    ScreenGood(b);
    RowAtPoints(ScreenBands(a), y);
    RowAtPoints(ScreenBands(b), y);
    CombinedRowPoints(mode, RowAt(ScreenBands(a), y), RowAt(ScreenBands(b), y));
  }

  /** No edge of the bands lies strictly inside slice j. */
  lemma EdgesAround(edges: seq<Int16>, bs: seq<Band>, j: nat)
    requires Climbing(edges) && Covers(edges, bs, 2 * |bs|) && j + 1 < |edges|
    ensures forall m :: 0 <= m < 2 * |bs| ==> EdgeAt(bs, m) <= edges[j] || edges[j + 1] <= EdgeAt(bs, m)
  {
    forall m | 0 <= m < 2 * |bs|
      ensures EdgeAt(bs, m) <= edges[j] || edges[j + 1] <= EdgeAt(bs, m)
    {
      var i :| 0 <= i < |edges| && edges[i] == EdgeAt(bs, m);
    }
  }

  lemma SliceRows(mode: Mode, a: Region, b: Region, edges: seq<Int16>, j: nat, y: int)
    requires Climbing(edges) && j + 1 < |edges| && edges[j] <= y < edges[j + 1]
    requires Covers(edges, ScreenBands(a), 2 * |ScreenBands(a)|) && Covers(edges, ScreenBands(b), 2 * |ScreenBands(b)|)
    ensures CombinedAt(mode, a, b, y) == CombinedAt(mode, a, b, edges[j])
  {
    hide ScreenBands, RowAt, CombinedRow, EdgeAt;
    EdgesAround(edges, ScreenBands(a), j);
    EdgesAround(edges, ScreenBands(b), j);
    SliceUniform(ScreenBands(a), edges[j], edges[j + 1], y);
    SliceUniform(ScreenBands(b), edges[j], edges[j + 1], y);
  }

  lemma AppendSlice(mode: Mode, a: Region, b: Region, edges: seq<Int16>, j: nat, rows: seq<seq<Int16>>, out: seq<Int16>)
    requires Climbing(edges) && j + 1 < |edges|
    requires Covers(edges, ScreenBands(a), 2 * |ScreenBands(a)|) && Covers(edges, ScreenBands(b), 2 * |ScreenBands(b)|)
    requires RowsCombined(mode, a, b, edges[0], rows) && |rows| == edges[j] as int - edges[0]
    requires out == CombinedAt(mode, a, b, edges[j])
    ensures edges[j] < edges[j + 1]
    ensures RowsCombined(mode, a, b, edges[0], rows + EqualRows(out, edges[j + 1] as int - edges[j]))
  {
    assert edges[j] < edges[j + 1];
    hide ScreenBands, RowAt, CombinedRow, EdgeAt, CombinedAt, Covers, Climbing, RowsCombined, EqualRows;
    forall y | edges[j] <= y < edges[j + 1]
      ensures CombinedAt(mode, a, b, y) == out
    {
      SliceRows(mode, a, b, edges, j, y);
    }
    AppendRows(mode, a, b, edges[0], rows, out, edges[j + 1] as int - edges[j]);
  }

  lemma AppendRows(mode: Mode, a: Region, b: Region, top: int, rows: seq<seq<Int16>>, out: seq<Int16>, n: nat)
    requires RowsCombined(mode, a, b, top, rows)
    requires forall y :: top + |rows| <= y < top + |rows| + n ==> CombinedAt(mode, a, b, y) == out
    ensures RowsCombined(mode, a, b, top, rows + EqualRows(out, n))
  {
    hide CombinedAt;
    var more := rows + EqualRows(out, n);
    forall k | 0 <= k < |more|
      ensures more[k] == CombinedAt(mode, a, b, top + k)
    {
    }
  }

  lemma OutsideSlices(mode: Mode, a: Region, b: Region, edges: seq<Int16>, y: int)
    requires Climbing(edges) && edges != [] && (y < edges[0] || Last(edges) <= y)
    requires Covers(edges, ScreenBands(a), 2 * |ScreenBands(a)|) && Covers(edges, ScreenBands(b), 2 * |ScreenBands(b)|)
    ensures CombinedAt(mode, a, b, y) == []
  {
    hide ScreenBands, Climbing, Covers, EdgeAt, RowAt;
    RowOutside(ScreenBands(a), edges, y);
    RowOutside(ScreenBands(b), edges, y);
  }

  lemma RowOutside(bs: seq<Band>, edges: seq<Int16>, y: int)
    requires Climbing(edges) && edges != [] && (y < edges[0] || Last(edges) <= y) && Covers(edges, bs, 2 * |bs|)
    ensures RowAt(bs, y) == []
  {
    hide EdgeAt, RowAt;
    forall m | 0 <= m < 2 * |bs|
      ensures edges[0] <= EdgeAt(bs, m) <= Last(edges)
    {
      assert EdgeAt(bs, m) in edges;
    }
    if y < edges[0] {
      OutsideEdges(bs, y);
    } else {
      BelowEdges(bs, y);
    }
  }

  /** Combines the scanlines of slice j and feeds the result for each of its rows. */
  method SweepSlice(mode: Mode, ghost a: Region, ghost b: Region, yEdges: seq<Int16>, j: nat,
                    aShown: seq<Int16>, bShown: seq<Int16>, out: RegionBuilder)
    requires WellFormed(a) && WellFormed(b) && NarrowCombination(mode, a, b)
    requires Climbing(yEdges) && j + 1 < |yEdges|
    requires Covers(yEdges, ScreenBands(a), 2 * |ScreenBands(a)|)
        && Covers(yEdges, ScreenBands(b), 2 * |ScreenBands(b)|)
    requires aShown == RowAt(ScreenBands(a), yEdges[j]) && bShown == RowAt(ScreenBands(b), yEdges[j])
    requires out.Valid() && out.firstY == yEdges[0] && |out.rows| == yEdges[j] as int - yEdges[0]
    requires RowsCombined(mode, a, b, yEdges[0], out.rows)
    modifies out
    ensures yEdges[j] < yEdges[j + 1]
    ensures out.Valid() && out.firstY == yEdges[0] && |out.rows| == yEdges[j + 1] as int - yEdges[0]
    ensures RowsCombined(mode, a, b, yEdges[0], out.rows)
  {
    hide *;
    CombinedAtRow(mode, a, b, yEdges[j]);
    var outSpans := CombineSpans(mode, aShown, bShown);
    SliceFed(mode, a, b, yEdges, j, aShown, bShown, outSpans, out.rows);
    FeedSlice(out, outSpans, yEdges[j + 1] as int - yEdges[j]);
  }

  /** A slice's combined row is what every row of the slice combines to. */
  lemma SliceFed(mode: Mode, a: Region, b: Region, yEdges: seq<Int16>, j: nat, aShown: seq<Int16>, bShown: seq<Int16>,
                 outSpans: seq<Int16>, rows: seq<seq<Int16>>)
    requires Climbing(yEdges) && j + 1 < |yEdges| && NarrowCombination(mode, a, b)
    requires Covers(yEdges, ScreenBands(a), 2 * |ScreenBands(a)|)
        && Covers(yEdges, ScreenBands(b), 2 * |ScreenBands(b)|)
    requires aShown == RowAt(ScreenBands(a), yEdges[j]) && bShown == RowAt(ScreenBands(b), yEdges[j])
    requires outSpans == CombinedRow(mode, aShown, bShown)
    requires RowsCombined(mode, a, b, yEdges[0], rows) && |rows| == yEdges[j] as int - yEdges[0]
    ensures yEdges[j] < yEdges[j + 1] && |outSpans| <= 2 * MAX_SPANS
    ensures RowsCombined(mode, a, b, yEdges[0], rows + EqualRows(outSpans, yEdges[j + 1] as int - yEdges[j]))
  {
    assert yEdges[j] < yEdges[j + 1];
    hide ScreenBands, CombinedAt, Covers, Climbing, NarrowCombination, RowAt, CombinedRow, RowsCombined, EqualRows;
    CombinedAtIs(mode, a, b, yEdges[j], outSpans);
    AppendSlice(mode, a, b, yEdges, j, rows, outSpans);
  }

  /** The second pass: sweeps every slice between neighbouring edges and rebuilds. */
  method CombineSlices(mode: Mode, a: Region, b: Region, yEdges: seq<Int16>)
      returns (ghost rows: seq<seq<Int16>>, r: Region)
    requires WellFormed(a) && WellFormed(b) && !IsEmpty(a) && !IsEmpty(b) && NarrowCombination(mode, a, b)
    requires Climbing(yEdges) && yEdges != []
    requires Covers(yEdges, ScreenBands(a), 2 * |ScreenBands(a)|)
        && Covers(yEdges, ScreenBands(b), 2 * |ScreenBands(b)|)
    ensures RowsCombined(mode, a, b, yEdges[0], rows) && |rows| == Last(yEdges) as int - yEdges[0]
    ensures Fits(yEdges[0], rows) && NarrowRows(rows) && r == RegionOfRows(yEdges[0], rows)
  {
    hide WellFormed, ScreenBands, CombinedAt, Covers, Loaded, RegionBuilder.Valid, NarrowRows, Fits, RegionOfRows;
    hide Climbing, NarrowCombination, IsRow, IsEmpty, RowAt, CombinedRow;
    assert RowsCombined(mode, a, b, yEdges[0], []);
    hide RowsCombined;
    var out := new RegionBuilder(yEdges[0]);
    var aCtxt := Prime(a);
    var bCtxt := Prime(b);
    var aY0, aY1, bY0, bY1 := NOWHERE, NOWHERE, NOWHERE, NOWHERE;
    var aX, bX: seq<Int16> := [], [];
    ghost var na, nb := 0, 0;
    LoadedLower(aCtxt, na, aY0, aY1, aX, -0x8000, yEdges[0]);
    LoadedLower(bCtxt, nb, bY0, bY1, bX, -0x8000, yEdges[0]);
    for j := 0 to |yEdges| - 1
      invariant aCtxt.rgn == a && bCtxt.rgn == b && aCtxt != bCtxt && fresh(aCtxt) && fresh(bCtxt) && fresh(out)
      invariant Loaded(aCtxt, na, aY0, aY1, aX, yEdges[j]) && Loaded(bCtxt, nb, bY0, bY1, bX, yEdges[j])
      invariant out.Valid() && out.firstY == yEdges[0] && |out.rows| == yEdges[j] as int - yEdges[0]
      invariant RowsCombined(mode, a, b, yEdges[0], out.rows)
    {
      var y0, y1 := yEdges[j] as int, yEdges[j + 1] as int;
      var aShown, bShown;
      na, aY0, aY1, aX, aShown := SeekRow(aCtxt, na, aY0, aY1, aX, y0);
      nb, bY0, bY1, bX, bShown := SeekRow(bCtxt, nb, bY0, bY1, bX, y0);
      SweepSlice(mode, a, b, yEdges, j, aShown, bShown, out);
      LoadedLower(aCtxt, na, aY0, aY1, aX, y0, y1);
      LoadedLower(bCtxt, nb, bY0, bY1, bX, y0, y1);
    }
    r := out.FinishRegion();
    rows := out.rows;
  }

  lemma CombinedAtIs(mode: Mode, a: Region, b: Region, y: int, out: seq<Int16>)
    requires NarrowCombination(mode, a, b)
    requires out == CombinedRow(mode, RowAt(ScreenBands(a), y), RowAt(ScreenBands(b), y))
    ensures out == CombinedAt(mode, a, b, y) && |out| <= 2 * MAX_SPANS
  {
    hide ScreenBands, RowAt, CombinedRow;
    assert |CombinedAt(mode, a, b, y)| <= 2 * MAX_SPANS;
  }

  /** CdCopyRegion: an empty region copies to one without storage. */
  function CopyRegion(r: Region): (c: Region)
    ensures WellFormed(r) ==> WellFormed(c)
    ensures !IsEmpty(r) ==> c == r
    ensures forall x, y :: InRegion(c, x, y) <==> InRegion(r, x, y)
  {
    if IsEmpty(r) then NoData else r
  }

  lemma EmptyRegion(r: Region)
    requires IsEmpty(r)
    ensures forall x, y :: !InRegion(r, x, y)
  {
  }

  lemma EdgesFound(a: Region, edges: seq<Int16>)
    requires WellFormed(a) && !IsEmpty(a) && Covers(edges, ScreenBands(a), 2 * |ScreenBands(a)|)
    ensures edges != []
  {
    HasBands(a);
    assert EdgeAt(ScreenBands(a), 0) in edges;
  }

  /** Rebuilding from the combined rows gives the combined points. */
  lemma CombinedPoints(mode: Mode, a: Region, b: Region, edges: seq<Int16>, rows: seq<seq<Int16>>)
    requires WellFormed(a) && WellFormed(b) && Climbing(edges) && edges != []
    requires Covers(edges, ScreenBands(a), 2 * |ScreenBands(a)|) && Covers(edges, ScreenBands(b), 2 * |ScreenBands(b)|)
    requires RowsCombined(mode, a, b, edges[0], rows) && |rows| == Last(edges) as int - edges[0]
    requires Fits(edges[0], rows) && NarrowRows(rows)
    ensures WellFormed(RegionOfRows(edges[0], rows))
    ensures forall x, y ::
              InRegion(RegionOfRows(edges[0], rows), x, y) <==> Holds2(mode, InRegion(a, x, y), InRegion(b, x, y))
  {
    hide WellFormed, ScreenBands, Covers, NarrowRows, RegionOfRows, InRegion, Fits, Climbing, RowsCombined, InRows;
    BuiltRegion(edges[0], rows);
    forall x, y
      ensures InRegion(RegionOfRows(edges[0], rows), x, y) <==> Holds2(mode, InRegion(a, x, y), InRegion(b, x, y))
    {
      CombinedPoint(mode, a, b, edges, rows, x, y);
    }
  }

  lemma CombinedPoint(mode: Mode, a: Region, b: Region, edges: seq<Int16>, rows: seq<seq<Int16>>, x: int, y: int)
    requires WellFormed(a) && WellFormed(b) && Climbing(edges) && edges != []
    requires Covers(edges, ScreenBands(a), 2 * |ScreenBands(a)|) && Covers(edges, ScreenBands(b), 2 * |ScreenBands(b)|)
    requires RowsCombined(mode, a, b, edges[0], rows) && |rows| == Last(edges) as int - edges[0]
    ensures InRows(edges[0], rows, x, y) <==> Holds2(mode, InRegion(a, x, y), InRegion(b, x, y))
  {
    hide WellFormed, ScreenBands, CombinedAt, Covers, InRegion, Climbing, InRow;
    CombinedAtPoints(mode, a, b, y);
    if y < edges[0] || Last(edges) <= y {
      OutsideSlices(mode, a, b, edges, y);
      NoPoints(x);
    } else {
      assert rows[y - edges[0]] == CombinedAt(mode, a, b, edges[0] + (y - edges[0]));
    }
  }

  /** CdGetRegionCombinationEx without scaling. The points of the result are exactly the operation applied to the
      points of the inputs. Of two regions that are not empty and have no touching spans it makes the canonical one,
      and so it does of any two that are canonical. */
  method GetRegionCombination(mode: Mode, a: Region, b: Region) returns (r: Region)
    requires WellFormed(a) && WellFormed(b) && NarrowCombination(mode, a, b)
    ensures WellFormed(r)
    ensures mode == Intersect ==> forall x, y :: InRegion(r, x, y) <==> InRegion(a, x, y) && InRegion(b, x, y)
    ensures mode == Union ==> forall x, y :: InRegion(r, x, y) <==> InRegion(a, x, y) || InRegion(b, x, y)
    ensures mode == Xor ==> forall x, y :: InRegion(r, x, y) <==> InRegion(a, x, y) != InRegion(b, x, y)
    ensures mode == Difference ==> forall x, y :: InRegion(r, x, y) <==> InRegion(a, x, y) && !InRegion(b, x, y)
    ensures mode.Unknown? ==> forall x, y :: !InRegion(r, x, y)
    ensures !IsEmpty(a) && !IsEmpty(b) && EachStrict(BandsOf(a)) && EachStrict(BandsOf(b)) ==> Canonical(r)
    ensures Canonical(a) && Canonical(b) ==> Canonical(r)
  {
    hide WellFormed, InRegion, ScreenBands, CombinedAt, Covers, NarrowRows, Fits, RegionOfRows, Canonical, BandsOf,
         EachStrict, AreStrict, OnlyEdges, Climbing, RowsCombined;
    if IsEmpty(a) { EmptyRegion(a); }
    if IsEmpty(b) { EmptyRegion(b); }
    EmptyRegion(NoData);
    NoDataFine();
    if IsEmpty(a) || IsEmpty(b) {
      match mode {
        case Intersect => return NoData;
        case Difference =>
          if IsEmpty(a) { return NoData; }
          return CopyRegion(a);
        case Union =>
          if IsEmpty(b) { return CopyRegion(a); }
          return CopyRegion(b);
        case Xor =>
          if IsEmpty(b) { return CopyRegion(a); }
          return CopyRegion(b);
        case Unknown(_) => return NoData;
      }
    }
    var yEdges := MergeEdges(a, b);
    EdgesFound(a, yEdges);
    ghost var rows;
    rows, r := CombineSlices(mode, a, b, yEdges);
    CombinedPoints(mode, a, b, yEdges, rows);
    CombinedCanonical(mode, a, b, yEdges[0], rows);
  }

  lemma CombinedCanonical(mode: Mode, a: Region, b: Region, top: int, rows: seq<seq<Int16>>)
    requires WellFormed(a) && WellFormed(b) && RowsCombined(mode, a, b, top, rows)
    requires Fits(top, rows) && NarrowRows(rows)
    ensures EachStrict(BandsOf(a)) && EachStrict(BandsOf(b)) ==> Canonical(RegionOfRows(top, rows))
    ensures Canonical(a) && Canonical(b) ==> Canonical(RegionOfRows(top, rows))
  {
    hide WellFormed, BandsOf, EachStrict, RowsCombined, Fits, NarrowRows, RegionOfRows, AreStrict, CanonicalOf;
    if Canonical(a) { CanonicalStrict(a); }
    if Canonical(b) { CanonicalStrict(b); }
    if EachStrict(BandsOf(a)) && EachStrict(BandsOf(b)) {
      RowsStrict(mode, a, b, top, rows);
      BuiltCanonicalIff(top, rows);
    }
  }

  lemma NoDataFine()
    ensures WellFormed(NoData) && Canonical(NoData)
  {
    assert RegionOfRows(0, []) == NoData;
    assert CanonicalOf(NoData, 0, []);
  }
}
