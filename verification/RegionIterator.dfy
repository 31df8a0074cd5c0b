/** The resumable decoder: a coroutine over region bytes that can stop at any
    band or rectangle and be resumed from a saved context. */
module RegionIterator {
  import opened Words
  import opened Options
  import opened RegionFormat
  import opened RegionRows

  /** What a walk over a region meets, in screen coordinates. */
  datatype Event = BandStart(y0: int, y1: int) | Rect(y0: int, y1: int, x0: int, x1: int)

  /** A callback may be absent, let the walk go on every time, or stop it every time. */
  datatype Callback = Absent | Continue | Stop

  function BandEvent(b: Band, dy: int): Event {
    BandStart(b.y0 + dy, b.y1 + dy)
  }

  function RectEvent(b: Band, j: nat, dx: int, dy: int): Event
    requires 2 * j + 1 < |b.pts|
  {
    Rect(b.y0 + dy, b.y1 + dy, b.pts[2 * j] + dx, b.pts[2 * j + 1] + dx)
  }

  function BandEvents(b: Band, dx: int, dy: int): seq<Event> {
    [BandEvent(b, dy)] + seq(|b.pts| / 2, j requires 0 <= j < |b.pts| / 2 => RectEvent(b, j, dx, dy))
  }

  /** All events of one uninterrupted walk. */
  function Events(bs: seq<Band>, dx: int, dy: int): seq<Event> {
    if bs == [] then [] else Events(Front(bs), dx, dy) + BandEvents(Last(bs), dx, dy)
  }

  /** The number of events before band i. */
  function EventPos(bs: seq<Band>, i: nat): nat
    requires i <= |bs|
  {
    if i == 0 then 0 else EventPos(bs, i - 1) + 1 + |bs[i - 1].pts| / 2
  }

  lemma {:induction false} EventPosFront(bs: seq<Band>, i: nat)
    requires bs != [] && i < |bs|
    ensures EventPos(Front(bs), i) == EventPos(bs, i)
  {
    if i > 0 {
      EventPosFront(bs, i - 1);
    }
  }

  lemma {:induction false} EventCount(bs: seq<Band>, dx: int, dy: int)
    ensures |Events(bs, dx, dy)| == EventPos(bs, |bs|)
  {
    if bs != [] {
      EventCount(Front(bs), dx, dy);
      EventPosFront(bs, |bs| - 1);
    }
  }

  lemma {:induction false} EventPosGrows(bs: seq<Band>, i: nat, k: nat)
    requires i <= k <= |bs|
    ensures EventPos(bs, i) <= EventPos(bs, k)
    decreases k
  {
    if i < k {
      EventPosGrows(bs, i, k - 1);
    }
  }

  /** Band i's events start at position EventPos(i). */
  lemma {:induction false} EventsAt(bs: seq<Band>, i: nat, dx: int, dy: int)
    requires i < |bs|
    ensures EventPos(bs, i) + 1 + |bs[i].pts| / 2 <= |Events(bs, dx, dy)|
    ensures Events(bs, dx, dy)[EventPos(bs, i)] == BandEvent(bs[i], dy)
    ensures forall j {:trigger RectEvent(bs[i], j, dx, dy)} :: 0 <= j < |bs[i].pts| / 2 ==>
              Events(bs, dx, dy)[EventPos(bs, i) + 1 + j] == RectEvent(bs[i], j, dx, dy)
  {
    hide Events, BandEvent, RectEvent;
    EventCount(Front(bs), dx, dy);
    EventPosFront(bs, i);
    if i < |bs| - 1 {
      EventsAt(Front(bs), i, dx, dy);
      EventPosFront(bs, i + 1);
      EventPosGrows(Front(bs), i + 1, |bs| - 1);
      EventsPrefix(bs, dx, dy);
    } else {
      EventsEnd(bs, dx, dy);
    }
  }

  lemma EventsPrefix(bs: seq<Band>, dx: int, dy: int)
    requires bs != []
    ensures Events(Front(bs), dx, dy) <= Events(bs, dx, dy)
  {
  }

  lemma EventsEnd(bs: seq<Band>, dx: int, dy: int)
    requires bs != []
    ensures var n := |Events(Front(bs), dx, dy)|; var b := Last(bs);
            && |Events(bs, dx, dy)| == n + 1 + |b.pts| / 2
            && Events(bs, dx, dy)[n] == BandEvent(b, dy)
            && forall j {:trigger RectEvent(b, j, dx, dy)} :: 0 <= j < |b.pts| / 2 ==>
                 Events(bs, dx, dy)[n + 1 + j] == RectEvent(b, j, dx, dy)
  {
    hide Events, BandEvents, BandEvent, RectEvent;
    EventsDef(bs, dx, dy);
    EventsAfter(Events(Front(bs), dx, dy), Last(bs), dx, dy);
  }

  lemma EventsDef(bs: seq<Band>, dx: int, dy: int)
    requires bs != []
    ensures Events(bs, dx, dy) == Events(Front(bs), dx, dy) + BandEvents(Last(bs), dx, dy)
  {
  }

  lemma EventsAfter(e: seq<Event>, b: Band, dx: int, dy: int)
    ensures var all := e + BandEvents(b, dx, dy);
            && |all| == |e| + 1 + |b.pts| / 2 && all[|e|] == BandEvent(b, dy)
            && forall j {:trigger RectEvent(b, j, dx, dy)} :: 0 <= j < |b.pts| / 2 ==>
                all[|e| + 1 + j] == RectEvent(b, j, dx, dy)
  {
    hide BandEvent, RectEvent, BandEvents;
    BandEventsAt(b, dx, dy);
    var f := BandEvents(b, dx, dy);
    forall j | 0 <= j < |b.pts| / 2
      ensures (e + f)[|e| + 1 + j] == RectEvent(b, j, dx, dy)
    {
      assert (e + f)[|e| + 1 + j] == f[1 + j];
    }
  }

  lemma BandEventsAt(b: Band, dx: int, dy: int)
    ensures |BandEvents(b, dx, dy)| == 1 + |b.pts| / 2 && BandEvents(b, dx, dy)[0] == BandEvent(b, dy)
    ensures forall j {:trigger RectEvent(b, j, dx, dy)} :: 0 <= j < |b.pts| / 2 ==>
        BandEvents(b, dx, dy)[1 + j] == RectEvent(b, j, dx, dy)
  {
    hide BandEvent, RectEvent;
  }

  lemma EventPosFacts(bs: seq<Band>, i: nat, dx: int, dy: int)
    requires i <= |bs|
    ensures EventPos(bs, i) <= |Events(bs, dx, dy)| == EventPos(bs, |bs|)
    ensures i < |bs| ==>
              EventPos(bs, i + 1) == EventPos(bs, i) + 1 + |bs[i].pts| / 2 <= |Events(bs, dx, dy)|
  {
    EventCount(bs, dx, dy);
    EventPosGrows(bs, i, |bs|);
    if i < |bs| {
      EventPosGrows(bs, i + 1, |bs|);
    }
  }

  // ---- Where the spans are inside a token ----

  /** The offset, from the token's first byte, at which span j is read. */
  function SpanOffset(t: Token, j: nat): nat
    requires !t.Repeat?
  {
    match t
    case Full(_, _, _) => 6 + 4 * j
    case Compact(_, sameTop, _) => if !sameTop then 3 + 4 * j else if j == 0 then 3 else 4 + 2 * j
    case Small(_, _) => 1 + j
  }

  /** After its last span a token has been read to its end. */
  lemma SpanOffsetEnd(t: Token)
    requires ValidToken(t) && !t.Repeat?
    ensures SpanOffset(t, if t.Small? then |t.adj| else |t.pts| / 2) == |TokenBytes(t)|
  {
    hide WordBytes, LowBytes;
  }

  lemma SpanBytesAt(pts: seq<Int16>, j: nat)
    requires 2 * j + 1 < |pts|
    ensures FromBytes(WordBytes(pts)[4 * j], WordBytes(pts)[4 * j + 1]) == pts[2 * j]
    ensures FromBytes(WordBytes(pts)[4 * j + 2], WordBytes(pts)[4 * j + 3]) == pts[2 * j + 1]
  {
    BytesRoundTrip(pts[2 * j]);
    BytesRoundTrip(pts[2 * j + 1]);
  }

  /** A full or plainly compact token holds its points as four bytes a span. */
  lemma WordSpanAt(t: Token, j: nat)
    requires ValidToken(t) && (t.Full? || (t.Compact? && !t.sameTop)) && 2 * j + 1 < |t.pts|
    ensures SpanOffset(t, j) + 4 <= |TokenBytes(t)|
    ensures var off := SpanOffset(t, j);
            FromBytes(TokenBytes(t)[off], TokenBytes(t)[off + 1]) == t.pts[2 * j]
            && FromBytes(TokenBytes(t)[off + 2], TokenBytes(t)[off + 3]) == t.pts[2 * j + 1]
  {
    hide WordBytes, FromBytes;
    SpanBytesAt(t.pts, j);
  }

  /** A compact token with a shared high byte holds it once, then one byte a point. */
  lemma TopSpanAt(t: Token, j: nat)
    requires ValidToken(t) && t.Compact? && t.sameTop && 2 * j + 1 < |t.pts|
    ensures |TokenBytes(t)| == 4 + |t.pts| && TokenBytes(t)[3] == HighByte(t.pts[0])
    ensures FromBytes(TokenBytes(t)[4 + 2 * j], TokenBytes(t)[3]) == t.pts[2 * j]
    ensures FromBytes(TokenBytes(t)[4 + 2 * j + 1], TokenBytes(t)[3]) == t.pts[2 * j + 1]
  {
    hide FromBytes, LowByte, HighByte;
    BytesRoundTrip(t.pts[2 * j]);
    BytesRoundTrip(t.pts[2 * j + 1]);
    assert HighByte(t.pts[2 * j]) == HighByte(t.pts[0]) && HighByte(t.pts[2 * j + 1]) == HighByte(t.pts[0]);
    var s := TokenBytes(t);
    assert s[4 + 2 * j] == LowBytes(t.pts)[2 * j] && s[4 + 2 * j + 1] == LowBytes(t.pts)[2 * j + 1];
  }

  lemma FullHeaderBytes(t: Token)
    requires ValidToken(t) && t.Full?
    ensures var s := TokenBytes(t);
            |s| >= 6 && |t.pts| % 2 == 0 && s[0] >= 0xC0 && s[0] as int % 64 + 64 * (s[1] as int) == |t.pts| / 2
            && FromBytes(s[2], s[3]) == t.y0 && FromBytes(s[4], s[5]) == t.y1
  {
    hide WordBytes, FromBytes;
    BytesRoundTrip(t.y0);
    BytesRoundTrip(t.y1);
    assert TokenBytes(t)[..6] == FullHeader(t.y0, t.y1, |t.pts| / 2);
  }

  lemma CompactHeaderBytes(t: Token)
    requires ValidToken(t) && t.Compact?
    ensures var s := TokenBytes(t);
            |s| >= 3 && |t.pts| % 2 == 0 && 0x80 <= s[0] < 0xC0 && (t.sameTop <==> s[0] as int / 32 % 2 == 1)
            && s[0] as int % 32 == |t.pts| / 2 && (!t.sameTop ==> s[0] as int % 64 == |t.pts| / 2)
            && FromBytes(s[1], s[2]) == t.y0
  {
    hide WordBytes, LowBytes, FromBytes;
    BytesRoundTrip(t.y0);
    assert TokenBytes(t)[..3] == CompactHeader(t.y0, t.sameTop, |t.pts| / 2);
  }

  lemma SmallHeaderByte(t: Token)
    requires ValidToken(t) && t.Small?
    ensures var s := TokenBytes(t);
            |s| == 1 + |t.adj| && s[0] < 0x80 && s[0] as int % 16 == |t.adj| && s[0] as int / 16 % 8 + 1 == t.height
    ensures forall m :: 0 <= m < |t.adj| ==> TokenBytes(t)[1 + m] == t.adj[m]
  {
  }

  // ---- From tokens to bands ----

  ghost predicate Decoded(rgn: Region, tokens: seq<Token>, bands: seq<Band>) {
    && rgn.Data?
    && Parse(rgn.bytes, rgn.numBands) == Some(tokens)
    && ValidTokens(tokens) && TokensFit(tokens)
    && Bands(Units(tokens)) == Some(bands)
    && rgn.numBands == |bands| == |Units(tokens)|
    && rgn.bytes == Serialize(tokens)
  }

  lemma DecodedRegion(rgn: Region)
    requires !IsEmpty(rgn) && WellFormed(rgn)
    ensures Parse(rgn.bytes, rgn.numBands).Some?
    ensures Decoded(rgn, Parse(rgn.bytes, rgn.numBands).value, BandsOf(rgn))
  {
    hide GoodBands, Units, Bands, TokensFit, Serialize, Parse;
    var tokens := Parse(rgn.bytes, rgn.numBands).value;
    SerializeParse(rgn.bytes, rgn.numBands);
    UnitsCount(tokens);
    BandAt(Units(tokens), 0);
  }

  /** Token t (never a repeat) is what band i was decoded from. */
  predicate Gives(t: Token, bands: seq<Band>, i: nat)
    requires i < |bands|
  {
    match t
    case Full(y0, y1, pts) => bands[i] == Band(y0, y1, pts)
    case Compact(y0, _, pts) => bands[i] == Band(y0, ToInt16(y0 + 1), pts)
    case Small(height, adj) =>
      i > 0 && |bands[i - 1].pts| == 2 * |adj| && bands[i] == SmallBand(bands[i - 1], height, adj)
    case Repeat(_) => false
  }

  /** Bands from |Units(tokens[..k])| on, as many as token k holds, come from its source token. */
  lemma TokenGives(rgn: Region, tokens: seq<Token>, bands: seq<Band>, k: nat, i: nat)
    requires Decoded(rgn, tokens, bands) && k < |tokens|
    requires |Units(tokens[..k])| <= i < |Units(tokens[..k])| + TokenBands(tokens[k])
    ensures i < |bands|
    ensures tokens[k].Repeat? ==> LastSmall(tokens[..k]).Some?
    ensures Gives(if tokens[k].Repeat? then LastSmall(tokens[..k]).value else tokens[k], bands, i)
  {
    hide Units, Bands, TokensFit, Serialize, Parse, SmallBand;
    UnitsPrefix(tokens, k);
    var us := Units(tokens);
    assert us[i] == Units(tokens[..k + 1])[i];
    BandAt(us, i);
    assert i > 0 ==> Last(bands[..i]) == bands[i - 1];
  }

  lemma TokensLeft(rgn: Region, tokens: seq<Token>, bands: seq<Band>, k: nat, i: nat)
    requires Decoded(rgn, tokens, bands) && k <= |tokens| && |Units(tokens[..k])| == i < |bands|
    ensures k < |tokens|
  {
    hide Units, Bands, TokensFit, Serialize, Parse;
    assert tokens[..|tokens|] == tokens;
  }

  /** What the first bytes of a token tell about it. */
  lemma FirstBytes(t: Token)
    requires ValidToken(t)
    ensures TokenBytes(t) != []
    ensures TokenBytes(t)[0] == 0x7F <==> t == Repeat(1)
    ensures TokenBytes(t)[0] == 0x7E <==> t.Repeat? && t.count > 1
    ensures t.Repeat? && t.count > 1 ==> TokenBytes(t) == [0x7E, t.count - 2]
    ensures t.Repeat? ==> t.count >= 1
  {
  }

  lemma NextToken(tokens: seq<Token>, k: nat)
    requires ValidTokens(tokens) && k < |tokens|
    ensures Serialize(tokens[k..]) == TokenBytes(tokens[k]) + Serialize(tokens[k + 1..])
  {
    assert tokens[k..][1..] == tokens[k + 1..];
  }

  lemma TokenDone(rgn: Region, tokens: seq<Token>, bands: seq<Band>, k: nat)
    requires Decoded(rgn, tokens, bands) && k < |tokens|
    ensures |Units(tokens[..k + 1])| == |Units(tokens[..k])| + TokenBands(tokens[k])
    ensures LastSmall(tokens[..k + 1]) == if tokens[k].Small? then Some(tokens[k]) else LastSmall(tokens[..k])
  {
    hide Bands, Serialize, Parse;
    UnitsPrefix(tokens, k);
  }

  lemma SmallValid(tokens: seq<Token>, k: nat)
    requires ValidTokens(tokens) && k <= |tokens|
    ensures LastSmall(tokens[..k]).Some? ==> ValidToken(LastSmall(tokens[..k]).value)
  {
    hide ValidToken;
  }

  /** A token read to its end: the bytes it was read from, and those that follow. */
  lemma SourceSpan(bytes: seq<Byte>, start: nat, tokens: seq<Token>, k: nat, ptr: int)
    requires start <= |bytes| && k < |tokens| && ValidTokens(tokens) && bytes[start..] == Serialize(tokens[k..])
    requires var t := tokens[k];
             ValidToken(t) && !t.Repeat? && ptr == start + SpanOffset(t, if t.Small? then |t.adj| else |t.pts| / 2)
    ensures ptr == start + |TokenBytes(tokens[k])| <= |bytes|
    ensures bytes[start..ptr] == TokenBytes(tokens[k]) && bytes[ptr..] == Serialize(tokens[k + 1..])
  {
    var n := |TokenBytes(tokens[k])|;
    hide *;
    SpanOffsetEnd(tokens[k]);
    NextToken(tokens, k);
    assert bytes[start..][n..] == bytes[start + n..] && bytes[start..][..n] == bytes[start..start + n];
  }

  // ---- The coroutine ----

  // ---- The walk and the points ----

  /** The event is a rectangle that has the point. */
  predicate Shows(e: Event, x: int, y: int) {
    e.Rect? && e.x0 <= x < e.x1 && e.y0 <= y < e.y1
  }

  ghost predicate Shown(events: seq<Event>, x: int, y: int) {
    exists k :: 0 <= k < |events| && Shows(events[k], x, y)
  }

  lemma ShownJoin(a: seq<Event>, b: seq<Event>, x: int, y: int)
    ensures Shown(a + b, x, y) <==> Shown(a, x, y) || Shown(b, x, y)
  {
    hide Shows;
    var all := a + b;
    if Shown(a, x, y) {
      var k :| 0 <= k < |a| && Shows(a[k], x, y);
      assert Shows(all[k], x, y);
    }
    if Shown(b, x, y) {
      var k :| 0 <= k < |b| && Shows(b[k], x, y);
      assert Shows(all[|a| + k], x, y);
    }
    if Shown(all, x, y) {
      var k :| 0 <= k < |all| && Shows(all[k], x, y);
      assert Shows(if k < |a| then a[k] else b[k - |a|], x, y);
    }
  }

  lemma BandShown(b: Band, dx: int, dy: int, x: int, y: int)
    ensures Shown(BandEvents(b, dx, dy), x, y) <==> InHeight(b, y - dy) && InRow(b.pts, x - dx)
  {
    BandEventsAt(b, dx, dy);
    var all := BandEvents(b, dx, dy);
    hide BandEvents;
    if Shown(all, x, y) {
      var k :| 0 <= k < |all| && Shows(all[k], x, y);
      assert k > 0 && all[1 + (k - 1)] == RectEvent(b, k - 1, dx, dy);
      assert InSpan(b.pts, k - 1, x - dx);
    }
    if InHeight(b, y - dy) && InRow(b.pts, x - dx) {
      var j: nat :| InSpan(b.pts, j, x - dx);
      assert all[1 + j] == RectEvent(b, j, dx, dy);
      assert Shows(all[1 + j], x, y);
    }
  }

  lemma LastBand(bs: seq<Band>, x: int, y: int)
    requires bs != []
    ensures InBands(bs, x, y) <==> InBands(Front(bs), x, y) || (InHeight(Last(bs), y) && InRow(Last(bs).pts, x))
  {
    hide InHeight, InRow;
    if InBands(Front(bs), x, y) {
      var k :| 0 <= k < |Front(bs)| && InHeight(Front(bs)[k], y) && InRow(Front(bs)[k].pts, x);
      assert InHeight(bs[k], y) && InRow(bs[k].pts, x);
    }
    if InBands(bs, x, y) {
      var k :| 0 <= k < |bs| && InHeight(bs[k], y) && InRow(bs[k].pts, x);
      assert k < |bs| - 1 ==> InHeight(Front(bs)[k], y) && InRow(Front(bs)[k].pts, x);
    }
  }

  lemma {:induction false} EventsShown(bs: seq<Band>, dx: int, dy: int, x: int, y: int)
    ensures Shown(Events(bs, dx, dy), x, y) <==> InBands(bs, x - dx, y - dy)
  {
    if bs != [] {
      EventsDef(bs, dx, dy);
      EventsShown(Front(bs), dx, dy, x, y);
      ShownJoin(Events(Front(bs), dx, dy), BandEvents(Last(bs), dx, dy), x, y);
      BandShown(Last(bs), dx, dy, x, y);
      LastBand(bs, x - dx, y - dy);
      hide *;
    }
  }

  /** The rectangles of the uninterrupted walk hold exactly the region's points. */
  lemma WalkShows(rgn: Region, x: int, y: int)
    ensures Shown(if IsEmpty(rgn) then [] else Events(BandsOf(rgn), rgn.transX, rgn.transY), x, y)
        <==> InRegion(rgn, x, y)
  {
    if !IsEmpty(rgn) {
      EventsShown(BandsOf(rgn), rgn.transX, rgn.transY, x, y);
    }
  }

  class RegionIterator {
    const rgn: Region
    ghost const tokens: seq<Token>
    ghost const bands: seq<Band>

    var ptrInSmall: bool        // ptr is inside prevSmallMode instead of the band data
    var ptr: nat
    var prevY1: int
    var prevX0: seq<Int16>
    var prevX1: seq<Int16>
    var prevSmallMode: seq<Byte>
    var numRepeats: nat
    var used0x7E: bool
    var i: nat
    var startPtr: nat
    var ctrlByte: Byte
    var numSpans: nat
    var y0: int
    var y1: int
    var scaledY0: int
    var scaledY1: int
    var compactSpans: bool
    var compactSpansTopByte: Byte
    var inRepeatMode: bool
    var j: nat
    var doneBandCallback: bool
    var done: bool

    ghost var k: nat            // the token that band i comes from

    ghost predicate Fixed() {
      && WellFormed(rgn)
      && bands == BandsOf(rgn)
      && (!IsEmpty(rgn) ==> Decoded(rgn, tokens, bands))
    }

    ghost predicate PrevPoints(pts: seq<Int16>, from: nat, upto: nat)
      reads this`prevX0, this`prevX1
    {
      && |prevX0| == 16 && |prevX1| == 16
      && forall m :: from <= m < 16 && m < upto && 2 * m + 1 < |pts| ==>
          prevX0[m] == pts[2 * m] && prevX1[m] == pts[2 * m + 1]
    }

    /** The token a repeat at token k repeats, and what the small-mode buffer holds. */
    ghost predicate Buffered()
      reads this`k, this`prevSmallMode
    {
      && k <= |tokens| && ValidTokens(tokens)
      && var small := LastSmall(tokens[..k]);
         small.Some? ==> ValidToken(small.value) && prevSmallMode == TokenBytes(small.value)
    }

    ghost predicate StreamAt(p: nat)
      reads this`k
    {
      rgn.Data? && p <= |rgn.bytes| && k <= |tokens| && ValidTokens(tokens) && rgn.bytes[p..] == Serialize(tokens[k..])
    }

    /** `used` bands of token k have been produced when `before` bands have been in all. */
    ghost predicate RunAt(before: nat)
      reads this`k, this`numRepeats, this`used0x7E
    {
      && k <= |tokens|
      && (numRepeats == 0 ==> !used0x7E && |Units(tokens[..k])| == before)
      && (numRepeats > 0 ==>
            && used0x7E && k < |tokens| && tokens[k].Repeat? && numRepeats < tokens[k].count
            && |Units(tokens[..k])| + tokens[k].count - numRepeats == before)
    }

    /** Between bands, about to read the header of band i. */
    ghost predicate Between()
      reads this`i, this`ptrInSmall, this`j, this`k, this`ptr, this`numRepeats, this`used0x7E, this`prevSmallMode,
            this`prevX0, this`prevX1, this`prevY1
    {
      && i <= |bands| && !ptrInSmall && j == 0
      && Buffered() && StreamAt(ptr) && RunAt(i)
      && |prevX0| == 16 && |prevX1| == 16
      && (i > 0 ==> prevY1 == bands[i - 1].y1 && PrevPoints(bands[i - 1].pts, 0, 16))
    }

    ghost function Source(): Token
      reads this`k, this`inRepeatMode
      requires k < |tokens| && (inRepeatMode ==> LastSmall(tokens[..k]).Some?)
    {
      if inRepeatMode then LastSmall(tokens[..k]).value else tokens[k]
    }

    /** The header's first byte has been read from the right place. */
    ghost predicate Selected()
      reads this`k, this`inRepeatMode, this`prevSmallMode, this`startPtr, this`numRepeats, this`used0x7E,
            this`ptrInSmall, this`i
    {
      && k < |tokens| && i < |bands|
      && Buffered() && StreamAt(startPtr)
      && (inRepeatMode ==> LastSmall(tokens[..k]).Some?)
      && ptrInSmall == inRepeatMode == tokens[k].Repeat?
      && ValidToken(Source()) && Gives(Source(), bands, i)
      && (!inRepeatMode ==> numRepeats == 0 && !used0x7E && |Units(tokens[..k])| == i)
      && (inRepeatMode ==>
            && numRepeats < tokens[k].count
            && (used0x7E <==> tokens[k].count > 1)
            && |Units(tokens[..k])| + tokens[k].count - numRepeats == i + 1)
    }

    function ReadByte(): Byte
      reads this`ptrInSmall, this`ptr, this`prevSmallMode
      requires rgn.Data? && ptr < if ptrInSmall then |prevSmallMode| else |rgn.bytes|
    {
      if ptrInSmall then prevSmallMode[ptr] else rgn.bytes[ptr]
    }

    /** Which token band i comes from, and what its first bytes are. */
    lemma BandSource()
      requires !IsEmpty(rgn) && Fixed() && Between() && i < |bands|
      ensures k < |tokens| && ValidToken(tokens[k])
      ensures tokens[k].Repeat? ==> LastSmall(tokens[..k]).Some? && ValidToken(LastSmall(tokens[..k]).value)
      ensures Gives(if tokens[k].Repeat? then LastSmall(tokens[..k]).value else tokens[k], bands, i)
      ensures ptr + |TokenBytes(tokens[k])| <= |rgn.bytes| && TokenBytes(tokens[k]) != []
      ensures rgn.bytes[ptr] == TokenBytes(tokens[k])[0]
      ensures rgn.bytes[ptr] == 0x7F <==> tokens[k] == Repeat(1)
      ensures rgn.bytes[ptr] == 0x7E <==> tokens[k].Repeat? && tokens[k].count > 1
      ensures rgn.bytes[ptr] == 0x7E ==> ptr + 1 < |rgn.bytes| && rgn.bytes[ptr + 1] == tokens[k].count - 2
      ensures tokens[k].Repeat? ==> tokens[k].count >= 1
      ensures RunAt(i)
    {
      hide Units, Bands, TokensFit, Parse, WellFormed, Gives, BandsOf, ValidToken, TokenBytes, Serialize;
      if numRepeats == 0 {
        TokensLeft(rgn, tokens, bands, k, i);
      }
      NextToken(tokens, k);
      assert ValidToken(tokens[k]);
      FirstBytes(tokens[k]);
      TokenGives(rgn, tokens, bands, k, i);
      SmallValid(tokens, k);
      var b := TokenBytes(tokens[k]);
      assert rgn.bytes[ptr..][..|b|] == b;
      assert rgn.bytes[ptr..][0] == rgn.bytes[ptr];
      assert |b| > 1 ==> rgn.bytes[ptr..][1] == rgn.bytes[ptr + 1];
    }

    /** Chooses where band i is decoded from: the stream, or the remembered small band. */
    method SelectSource()
      requires !IsEmpty(rgn) && Fixed() && Between() && i < |bands|
      modifies this`startPtr, this`ctrlByte, this`ptr, this`ptrInSmall, this`compactSpans, this`compactSpansTopByte,
               this`inRepeatMode, this`numRepeats, this`used0x7E
      ensures Selected() && !compactSpans
      ensures ptr == (if inRepeatMode then 0 else startPtr) + 1
      ensures TokenBytes(Source()) != [] && ctrlByte == TokenBytes(Source())[0]
    {
      hide Units, WellFormed, Gives, BandsOf, ValidToken, TokenBytes, Serialize, Fixed, Buffered, StreamAt, ValidTokens;
      BandSource();
      assert Buffered() && StreamAt(ptr) && !ptrInSmall && rgn.Data?;
      hide Between;
      startPtr := ptr;
      ctrlByte := ReadByte();
      ptr := ptr + 1;
      compactSpans, compactSpansTopByte, inRepeatMode := false, 0, false;
      if numRepeats > 0 {
        numRepeats := numRepeats - 1;
        EnterSmallBuffer();
      } else if ctrlByte == 0x7F || ctrlByte == 0x7E {
        if ctrlByte == 0x7E {
          used0x7E := true;
          numRepeats := ReadByte() as int + 1;
          ptr := ptr + 1;
        }
        EnterSmallBuffer();
      }
    }

    method EnterSmallBuffer()
      requires Buffered() && LastSmall(tokens[..k]).Some?
      modifies this`ptrInSmall, this`ptr, this`ctrlByte, this`inRepeatMode
      ensures ptrInSmall && inRepeatMode && ptr == 1
      ensures TokenBytes(LastSmall(tokens[..k]).value) != []
      ensures ctrlByte == TokenBytes(LastSmall(tokens[..k]).value)[0]
    {
      hide TokenBytes, ValidToken;
      FirstBytes(LastSmall(tokens[..k]).value);
      ptrInSmall, ptr := true, 0;
      ctrlByte := prevSmallMode[ptr];
      ptr := ptr + 1;
      inRepeatMode := true;
    }

    /** Part of the way through band i, about to read its span m. */
    ghost predicate InBand(m: nat)
      reads this`k, this`inRepeatMode, this`prevSmallMode, this`startPtr, this`numRepeats, this`used0x7E,
            this`ptrInSmall, this`i, this`numSpans, this`y0, this`y1, this`ptr, this`ctrlByte, this`compactSpans,
            this`compactSpansTopByte, this`prevX0, this`prevX1
    {
      && Selected()
      && var b := bands[i]; var t := Source();
      && 2 * numSpans == |b.pts| && m <= numSpans && y0 == b.y0 && y1 == b.y1
      && ptr == (if inRepeatMode then 0 else startPtr) + SpanOffset(t, m)
      && (ctrlByte >= 0x80 <==> !t.Small?)
      && (compactSpans <==> t.Compact? && t.sameTop)
      && (compactSpans && m > 0 ==> compactSpansTopByte == HighByte(b.pts[0]))
      && PrevPoints(b.pts, 0, m)
      && (t.Small? ==> PrevPoints(bands[i - 1].pts, m, 16))
    }

    /** The byte `off` bytes into the source token is where `position` has reached. */
    lemma SourceBytes(off: nat)
      requires Selected() && off < |TokenBytes(Source())|
      ensures rgn.Data?
      ensures inRepeatMode ==> off < |prevSmallMode| && prevSmallMode[off] == TokenBytes(Source())[off]
      ensures !inRepeatMode ==>
                startPtr + off < |rgn.bytes| && rgn.bytes[startPtr + off] == TokenBytes(Source())[off]
    {
      hide TokenBytes, ValidToken, Serialize, Gives, Units;
      NextToken(tokens, k);
      assert !inRepeatMode ==> rgn.bytes[startPtr..][off] == rgn.bytes[startPtr + off];
    }

    method ReadFullHeader()
      requires Selected() && Source().Full? && ptr == startPtr + 1 && !inRepeatMode
          && ctrlByte == TokenBytes(Source())[0]
      modifies this`numSpans, this`y0, this`y1, this`ptr
      ensures 2 * numSpans == |bands[i].pts| && y0 == bands[i].y0 && y1 == bands[i].y1 && ptr == startPtr + 6
    {
      hide TokenBytes, ValidToken, FromBytes, Buffered, StreamAt, Units;
      FullHeaderBytes(Source());
      SourceBytes(1);
      SourceBytes(2);
      SourceBytes(3);
      SourceBytes(4);
      SourceBytes(5);
      numSpans := ctrlByte as int % 64;
      numSpans := numSpans + 64 * (ReadByte() as int);
      ptr := ptr + 1;
      y0 := FromBytes(rgn.bytes[ptr], rgn.bytes[ptr + 1]);
      y1 := FromBytes(rgn.bytes[ptr + 2], rgn.bytes[ptr + 3]);
      ptr := ptr + 4;
    }

    method ReadCompactHeader()
      requires Selected() && Source().Compact? && ptr == startPtr + 1 && !inRepeatMode && !compactSpans
      requires ctrlByte == TokenBytes(Source())[0]
      modifies this`numSpans, this`y0, this`y1, this`ptr, this`compactSpans
      ensures 2 * numSpans == |bands[i].pts| && y0 == bands[i].y0 && y1 == bands[i].y1 && ptr == startPtr + 3
      ensures compactSpans <==> Source().sameTop
    {
      hide TokenBytes, ValidToken, FromBytes, Buffered, StreamAt, Units;
      CompactHeaderBytes(Source());
      SourceBytes(1);
      SourceBytes(2);
      numSpans := ctrlByte as int % 64;
      if ctrlByte as int / 32 % 2 == 1 {
        compactSpans := true;
        numSpans := numSpans % 32;
      }
      y0 := FromBytes(rgn.bytes[ptr], rgn.bytes[ptr + 1]);
      y1 := ToInt16(y0 + 1);
      ptr := ptr + 2;
    }

    /** Decodes the header of band i, whichever mode it is in. */
    method ReadHeader()
      requires !IsEmpty(rgn) && Fixed() && Between() && i < |bands|
      modifies this`startPtr, this`ctrlByte, this`ptr, this`ptrInSmall, this`compactSpans, this`compactSpansTopByte,
               this`inRepeatMode, this`numRepeats, this`used0x7E, this`numSpans, this`y0, this`y1
      ensures InBand(0)
    {
      hide TokenBytes, ValidToken, Units, WellFormed, Buffered, StreamAt, Fixed, RunAt, Selected;
      SelectSource();
      SelectedFacts();
      if ctrlByte >= 0x80 {
        if ctrlByte as int / 64 % 2 == 1 {
          ReadFullHeader();
        } else {
          ReadCompactHeader();
        }
      } else {
        numSpans := ctrlByte as int % 16;
        y0 := prevY1;
        y1 := ToInt16(y0 + 1 + ctrlByte as int / 16 % 8);
      }
    }

    lemma SelectedFacts()
      requires Selected()
      ensures k < |tokens| && i < |bands| && (inRepeatMode ==> LastSmall(tokens[..k]).Some?)
      ensures ptrInSmall == inRepeatMode
      ensures var t := Source();
              ValidToken(t) && !t.Repeat? && Gives(t, bands, i) && (inRepeatMode ==> t.Small?)
      ensures var t := Source(); var s := TokenBytes(t);
              s != [] && (t.Small? <==> s[0] < 0x80) && (t.Full? <==> s[0] >= 0xC0)
              && (t.Small? ==> s[0] as int % 16 == |t.adj| && s[0] as int / 16 % 8 + 1 == t.height)
    {
      var t := Source();
      if t.Full? {
        FullHeaderBytes(t);
      } else if t.Compact? {
        CompactHeaderBytes(t);
      } else {
        SmallHeaderByte(t);
      }
    }

    method ReadWordSpan(m: nat) returns (x0: Int16, x1: Int16)
      requires InBand(m) && m < numSpans && !Source().Small? && !compactSpans
      modifies this`ptr
      ensures x0 == bands[i].pts[2 * m] && x1 == bands[i].pts[2 * m + 1] && ptr == old(ptr) + 4
    {
      hide TokenBytes, FromBytes, Buffered, StreamAt, Units, PrevPoints;
      var t := Source();
      var off := SpanOffset(t, m);
      WordSpanAt(t, m);
      SourceBytes(off);
      SourceBytes(off + 1);
      SourceBytes(off + 2);
      SourceBytes(off + 3);
      x0 := FromBytes(rgn.bytes[ptr], rgn.bytes[ptr + 1]);
      x1 := FromBytes(rgn.bytes[ptr + 2], rgn.bytes[ptr + 3]);
      ptr := ptr + 4;
    }

    method ReadTopSpan(m: nat) returns (x0: Int16, x1: Int16)
      requires InBand(m) && m < numSpans && compactSpans
      modifies this`ptr, this`compactSpansTopByte
      ensures x0 == bands[i].pts[2 * m] && x1 == bands[i].pts[2 * m + 1]
      ensures ptr == startPtr + SpanOffset(Source(), m + 1) && compactSpansTopByte == HighByte(bands[i].pts[0])
    {
      hide TokenBytes, FromBytes, Buffered, StreamAt, Units, PrevPoints, HighByte;
      var t := Source();
      TopSpanAt(t, m);
      SourceBytes(3);
      SourceBytes(4 + 2 * m);
      SourceBytes(4 + 2 * m + 1);
      if m == 0 {
        compactSpansTopByte := ReadByte();
        ptr := ptr + 1;
      }
      x0 := FromBytes(ReadByte(), compactSpansTopByte);
      ptr := ptr + 1;
      x1 := FromBytes(ReadByte(), compactSpansTopByte);
      ptr := ptr + 1;
    }

    method ReadSmallSpan(m: nat) returns (x0: Int16, x1: Int16)
      requires InBand(m) && m < numSpans && Source().Small?
      modifies this`ptr
      ensures x0 == bands[i].pts[2 * m] && x1 == bands[i].pts[2 * m + 1] && ptr == old(ptr) + 1
    {
      hide TokenBytes, Buffered, StreamAt, Units, ToInt16;
      var t := Source();
      assert m < 15 && m < |t.adj| by { SmallHeaderByte(t); }
      SmallHeaderByte(t);
      SourceBytes(1 + m);
      var adjByte := ReadByte();
      ptr := ptr + 1;
      var adj0 := adjByte as int % 16 - 8;
      var adj1 := adjByte as int / 16 % 16 - 8;
      x0 := ToInt16(prevX0[m] as int + adj0);
      x1 := ToInt16(prevX1[m] as int + adj1);
      var prev := bands[i - 1];
      assert bands[i].pts[2 * m] == Adjusted(prev.pts[2 * m], t.adj[m], true);
      assert bands[i].pts[2 * m + 1] == Adjusted(prev.pts[2 * m + 1], t.adj[m], false);
    }

    /** Decodes span m of band i and keeps its ends for a small band that may follow. */
    method ReadSpan(m: nat) returns (x0: Int16, x1: Int16)
      requires InBand(m) && m < numSpans
      modifies this`ptr, this`compactSpansTopByte, this`prevX0, this`prevX1
      ensures x0 == bands[i].pts[2 * m] && x1 == bands[i].pts[2 * m + 1]
      ensures InBand(m + 1)
    {
      hide TokenBytes, Buffered, StreamAt, Units, ToInt16, Gives, ValidToken;
      if ctrlByte >= 0x80 {
        if compactSpans {
          x0, x1 := ReadTopSpan(m);
        } else {
          x0, x1 := ReadWordSpan(m);
        }
      } else {
        x0, x1 := ReadSmallSpan(m);
      }
      if m < 16 {
        prevX0 := prevX0[m := x0];
        prevX1 := prevX1[m := x1];
      }
    }

    /** Leaves the token behind: the stream pointer moves past it. */
    ghost predicate TokenLeft()
      reads this
    {
      Buffered() && StreamAt(ptr) && numRepeats == 0 && RunAt(i + 1) && !ptrInSmall
    }

    /** All of the source token has been read. */
    lemma SourceRead()
      requires !IsEmpty(rgn) && Fixed() && InBand(numSpans) && !inRepeatMode
      ensures ptr == startPtr + |TokenBytes(Source())| <= |rgn.bytes|
      ensures rgn.bytes[startPtr..ptr] == TokenBytes(Source())
      ensures rgn.bytes[ptr..] == Serialize(tokens[k + 1..])
    {
      hide TokenBytes, Units, ToInt16, Gives, ValidToken, PrevPoints, Serialize, WellFormed, Decoded, SpanOffset;
      var t := Source();
      GivesPoints(t, bands, i);
      SourceSpan(rgn.bytes, startPtr, tokens, k, ptr);
    }

    /** Ends a band that was decoded straight from the stream. */
    method LeaveToken()
      requires !IsEmpty(rgn) && Fixed() && InBand(numSpans) && !inRepeatMode
      modifies this`prevSmallMode, this`k
      ensures TokenLeft()
    {
      hide TokenBytes, Units, ToInt16, Gives, ValidToken, PrevPoints, Serialize, WellFormed, Decoded, SpanOffset;
      SourceRead();
      TokenDone(rgn, tokens, bands, k);
      if ctrlByte < 0x80 {
        prevSmallMode := rgn.bytes[startPtr..ptr];
      }
      k := k + 1;
    }

    lemma RepeatRead()
      requires !IsEmpty(rgn) && Fixed() && InBand(numSpans) && inRepeatMode
      ensures k < |tokens| && ValidTokens(tokens) && rgn.Data?
      ensures var p := startPtr + (if used0x7E then 2 else 1);
              p <= |rgn.bytes| && rgn.bytes[p..] == Serialize(tokens[k + 1..])
      ensures numRepeats == 0 ==> |Units(tokens[..k + 1])| == i + 1
      ensures LastSmall(tokens[..k + 1]) == LastSmall(tokens[..k])
    {
      hide TokenBytes, Units, ToInt16, Gives, ValidToken, PrevPoints, Serialize, WellFormed, Decoded, SpanOffset;
      assert ValidTokens(tokens) && ValidToken(tokens[k]);
      FirstBytes(tokens[k]);
      NextToken(tokens, k);
      TokenDone(rgn, tokens, bands, k);
      var n := |TokenBytes(tokens[k])|;
      RepeatLength(tokens[k]);
      assert rgn.bytes[startPtr..][n..] == rgn.bytes[startPtr + n..];
    }

    /** Ends a repeated band: back to the stream, past the repeat once it is used up. */
    method LeaveRepeat()
      requires !IsEmpty(rgn) && Fixed() && InBand(numSpans) && inRepeatMode
      modifies this`ptr, this`ptrInSmall, this`used0x7E, this`k
      ensures numRepeats == 0 ==> TokenLeft()
      ensures numRepeats > 0 ==> k == old(k) && Buffered() && StreamAt(ptr) && RunAt(i + 1) && !ptrInSmall
    {
      hide TokenBytes, Units, ToInt16, Gives, ValidToken, PrevPoints, Serialize, WellFormed, Decoded, ValidTokens;
      RepeatRead();
      ptrInSmall := false;
      if numRepeats == 0 {
        if used0x7E {
          ptr := startPtr + 2;
          used0x7E := false;
        } else {
          ptr := startPtr + 1;
        }
        k := k + 1;
      } else {
        ptr := startPtr;
      }
    }

    /** Ends band i. */
    method EndBand()
      requires !IsEmpty(rgn) && Fixed() && InBand(numSpans)
      modifies this`j, this`prevY1, this`prevSmallMode, this`ptr, this`ptrInSmall, this`used0x7E, this`k,
               this`i, this`doneBandCallback
      ensures i == old(i) + 1 && !doneBandCallback && Between()
    {
      hide TokenBytes, Units, ToInt16, Gives, ValidToken, Serialize, WellFormed, Decoded, Fixed, Buffered, StreamAt;
      j := 0;
      prevY1 := y1;
      if inRepeatMode {
        LeaveRepeat();
      } else {
        LeaveToken();
      }
      i, doneBandCallback := i + 1, false;
    }

    constructor (r: Region)
      requires WellFormed(r)
      ensures Valid() && rgn == r && Seen() == 0 && i == 0 && !done && !doneBandCallback
    {
      rgn := r;
      bands := BandsOf(r);
      tokens := if IsEmpty(r) then [] else (DecodedRegion(r); Parse(r.bytes, r.numBands).value);
      ptrInSmall, ptr, prevY1, prevX0, prevX1 := false, 0, 0, seq(16, _ => 0), seq(16, _ => 0);
      prevSmallMode, numRepeats, used0x7E, i, startPtr := [], 0, false, 0, 0;
      ctrlByte, numSpans, y0, y1, scaledY0, scaledY1 := 0, 0, 0, 0, 0, 0;
      compactSpans, compactSpansTopByte, inRepeatMode := false, 0, false;
      j, doneBandCallback, done, k := 0, false, false, 0;
      new;
      hide WellFormed, Serialize, Parse, BandsOf, Bands, Units, TokensFit, ValidTokens, Decoded, Between;
      if !IsEmpty(r) {
        DecodedRegion(r);
        StartBetween();
      }
    }

    lemma StartBetween()
      requires Decoded(rgn, tokens, bands) && i == 0 && !ptrInSmall && j == 0 && k == 0 && ptr == 0
      requires numRepeats == 0 && !used0x7E && |prevX0| == 16 && |prevX1| == 16
      ensures Between()
    {
      hide Serialize, Parse, Bands, TokensFit, ValidToken;
      assert tokens[0..] == tokens && rgn.bytes[0..] == rgn.bytes;
      assert tokens[..0] == [];
    }

    /** Every state the walk can be saved in. */
    ghost predicate Valid()
      reads this
    {
      && Fixed()
      && (!IsEmpty(rgn) ==> if doneBandCallback then i < |bands| && InBand(j) else Between())
      && (done ==> IsEmpty(rgn) || (i == |bands| && !doneBandCallback))
    }

    ghost function All(): seq<Event> {
      if IsEmpty(rgn) then [] else Events(bands, rgn.transX, rgn.transY)
    }

    /** The rectangles of the whole walk hold exactly the points of the region. */
    lemma AllShown(x: int, y: int)
      requires Valid()
      ensures Shown(All(), x, y) <==> InRegion(rgn, x, y)
    {
      WalkShows(rgn, x, y);
    }

    /** How many events of the uninterrupted walk lie behind the saved state. */
    ghost function Seen(): nat
      reads this
      requires Valid()
    {
      if IsEmpty(rgn) then 0 else EventPos(bands, i) + (if doneBandCallback then 1 + j else 0)
    }

    /** None of these stops the walk. */
    static predicate Passes(events: seq<Event>, bandCallback: Callback, rectCallback: Callback) {
      forall k :: 0 <= k < |events| ==> !Stops(events[k], bandCallback, rectCallback)
    }

    /** The last of these stops the walk, and none before it does. */
    static predicate Halted(events: seq<Event>, bandCallback: Callback, rectCallback: Callback) {
      events != [] && Stops(Last(events), bandCallback, rectCallback)
          && Passes(Front(events), bandCallback, rectCallback)
    }

    static predicate IsSlice(events: seq<Event>, all: seq<Event>, from: nat, to: nat) {
      from <= to <= |all| && events == all[from..to]
    }

    static predicate Stops(e: Event, bandCallback: Callback, rectCallback: Callback) {
      if e.BandStart? then bandCallback == Stop else rectCallback == Stop
    }

    lemma PosFacts()
      requires Valid() && !IsEmpty(rgn)
      ensures rgn.numBands == |bands| && i <= |bands| && Seen() <= |All()|
      ensures i == |bands| && !doneBandCallback ==> Seen() == |All()|
      ensures !doneBandCallback ==> j == 0 && Seen() == EventPos(bands, i)
      ensures doneBandCallback ==> i < |bands| && 2 * numSpans == |bands[i].pts| && j <= numSpans
      ensures i < |bands| ==> EventPos(bands, i + 1) == EventPos(bands, i) + 1 + |bands[i].pts| / 2
    {
      hide InBand, Between, Events, Fixed, EventPos;
      FixedFacts();
      if doneBandCallback {
        BandFacts(j);
      } else {
        BetweenFacts();
      }
      EventPosFacts(bands, i, rgn.transX, rgn.transY);
    }

    /** The context still shows where the band of event e lies, before translation. */
    predicate ScaledIs(e: Event)
      reads this`scaledY0, this`scaledY1
    {
      e.BandStart? && scaledY0 + TransY(rgn) == e.y0 && scaledY1 + TransY(rgn) == e.y1
    }

    /** The band event of band i. */
    method StartBand(bandCallback: Callback) returns (e: Event)
      requires Valid() && !done && !IsEmpty(rgn) && !doneBandCallback && i < |bands|
      modifies this
      ensures Valid() && !done && doneBandCallback && i == old(i) && j == 0
      ensures Seen() == old(Seen()) + 1 <= |All()| && e == All()[old(Seen())] && e.BandStart?
      ensures bandCallback != Absent ==> ScaledIs(e)
    {
      hide InBand, Between, Fixed, Events, EventPos, WellFormed, Decoded, BandsOf;
      EventsAt(bands, i, rgn.transX, rgn.transY);
      PosFacts();
      ReadHeader();
      BandFacts(0);
      if bandCallback != Absent {
        scaledY0, scaledY1 := y0, y1;
      }
      e := BandStart(y0 + rgn.transY, y1 + rgn.transY);
      doneBandCallback := true;
    }

    lemma FixedFacts()
      requires Fixed() && !IsEmpty(rgn)
      ensures rgn.numBands == |bands|
    {
    }

    lemma BetweenFacts()
      requires !IsEmpty(rgn) && Between()
      ensures i <= |bands| && j == 0
    {
    }

    lemma BandFacts(m: nat)
      requires InBand(m)
      ensures i < |bands| && 2 * numSpans == |bands[i].pts| && m <= numSpans && y0 == bands[i].y0 && y1 == bands[i].y1
    {
    }

    /** The rectangle event of span m. */
    method NextRect(m: nat, rectCallback: Callback) returns (e: Event)
      requires InBand(m) && m < numSpans && rgn.Data?
      modifies this`ptr, this`compactSpansTopByte, this`prevX0, this`prevX1, this`scaledY0, this`scaledY1
      ensures InBand(m + 1) && 2 * numSpans == |bands[i].pts|
      ensures e.Rect? && e == RectEvent(bands[i], m, rgn.transX, rgn.transY)
    {
      hide InBand;
      BandFacts(m);
      var x0, x1 := ReadSpan(m);
      e := Rect(y0 + rgn.transY, y1 + rgn.transY, x0 + rgn.transX, x1 + rgn.transX);
      if rectCallback != Absent {
        scaledY0, scaledY1 := y0, y1;
      }
    }

    /** The rectangle events left in band i, as far as the callback lets the walk go. */
    method WalkSpans(rectCallback: Callback) returns (passed: seq<Event>, stopped: bool)
      requires Valid() && !done && !IsEmpty(rgn) && doneBandCallback
      modifies this`ptr, this`compactSpansTopByte, this`prevX0, this`prevX1, this`scaledY0, this`scaledY1, this`j
      ensures stopped ==> Valid() && old(Seen()) < Seen() <= |All()|
      ensures stopped ==>
          passed == [All()[old(Seen())]] && Seen() == old(Seen()) + 1 && passed[0].Rect? && rectCallback == Stop
      ensures !stopped ==> InBand(numSpans) && Fixed() && old(Seen()) <= EventPos(bands, i + 1) <= |All()|
      ensures !stopped ==> passed == All()[old(Seen())..EventPos(bands, i + 1)]
      ensures !stopped ==>
          (forall k :: 0 <= k < |passed| ==> passed[k].Rect?) && (rectCallback == Stop ==> passed == [])
    {
      hide InBand, Between, Fixed, Events, EventPos, RectEvent;
      BandFacts(j);
      PosFacts();
      EventsAt(bands, i, rgn.transX, rgn.transY);
      passed := [];
      ghost var from := Seen();
      var m := j;
      while m < numSpans
        invariant j == old(j) <= m <= numSpans && InBand(m) && from == EventPos(bands, i) + 1 + j
        invariant passed == All()[from..from + m - j]
        invariant forall k :: 0 <= k < |passed| ==> passed[k].Rect?
        invariant rectCallback == Stop ==> passed == []
      {
        var e := NextRect(m, rectCallback);
        assert e == All()[from + m - j];
        passed := passed + [e];
        if rectCallback == Stop {
          j := j + 1;
          return passed, true;
        }
        m := m + 1;
      }
      stopped := false;
    }

    /** The rest of a band whose start has been given, as far as the callback lets the walk go. */
    method WalkRest(ghost bandCallback: Callback, rectCallback: Callback) returns (passed: seq<Event>, stopped: bool)
      requires Valid() && !done && !IsEmpty(rgn) && i < |bands| && doneBandCallback
      modifies this
      ensures Valid() && !done && IsSlice(passed, All(), old(Seen()), Seen())
      ensures stopped ==> Halted(passed, bandCallback, rectCallback) && Last(passed).Rect?
      ensures !stopped ==> i == old(i) + 1 && !doneBandCallback && Passes(passed, bandCallback, rectCallback)
    {
      hide Between, InBand, Fixed, Events, EventPos;
      passed, stopped := WalkSpans(rectCallback);
      if stopped {
        assert All()[old(Seen())..Seen()] == [All()[old(Seen())]];
      } else {
        EndBand();
        PosFacts();
      }
    }

    /** A band's start. */
    method BeginBand(bandCallback: Callback, ghost rectCallback: Callback) returns (passed: seq<Event>, stopped: bool)
      requires Valid() && !done && !IsEmpty(rgn) && !doneBandCallback && i < |bands|
      modifies this
      ensures Valid() && !done && doneBandCallback && i == old(i) && IsSlice(passed, All(), old(Seen()), Seen())
      ensures stopped ==>
          Halted(passed, bandCallback, rectCallback) && (Last(passed).BandStart? ==> ScaledIs(Last(passed)))
      ensures !stopped ==> Passes(passed, bandCallback, rectCallback)
    {
      hide *;
      ghost var from, all := Seen(), All();
      var e := StartBand(bandCallback);
      StartWalked(all, from, e, bandCallback, rectCallback);
      passed, stopped := [e], bandCallback == Stop;
    }

    /** What is left of band i, as far as the callbacks let the walk go. */
    method WalkBand(bandCallback: Callback, rectCallback: Callback) returns (passed: seq<Event>, stopped: bool)
      requires Valid() && !done && !IsEmpty(rgn) && i < |bands|
      modifies this
      ensures Valid() && !done && IsSlice(passed, All(), old(Seen()), Seen())
      ensures stopped ==>
          Halted(passed, bandCallback, rectCallback) && (Last(passed).BandStart? ==> ScaledIs(Last(passed)))
      ensures !stopped ==> i == old(i) + 1 && !doneBandCallback && Passes(passed, bandCallback, rectCallback)
    {
      PosFacts();
      hide *;
      if doneBandCallback {
        passed, stopped := WalkRest(bandCallback, rectCallback);
      } else {
        ghost var from, all := Seen(), All();
        passed, stopped := BeginBand(bandCallback, rectCallback);
        if !stopped {
          ghost var mid := Seen();
          var more;
          more, stopped := WalkRest(bandCallback, rectCallback);
          Joined(passed, more, all, from, mid, Seen(), stopped, bandCallback, rectCallback);
          passed := passed + more;
        }
      }
    }

    /** Resumes the walk, up to and including the next event whose callback stops it.
        Whatever stops came before, it carries on with exactly the next event. */
    method Resume(bandCallback: Callback, rectCallback: Callback) returns (passed: seq<Event>)
      requires Valid()
      modifies this
      ensures Valid() && old(Seen()) <= Seen() <= |All()| && passed == All()[old(Seen())..Seen()]
      ensures !done ==> passed != [] && Stops(Last(passed), bandCallback, rectCallback)
      ensures !done && Last(passed).BandStart? ==> ScaledIs(Last(passed))
      ensures !done ==> Passes(Front(passed), bandCallback, rectCallback)
      ensures done ==> Seen() == |All()| && Passes(passed, bandCallback, rectCallback)
    {
      passed := [];
      if done {
        DoneFacts();
      } else if IsEmpty(rgn) {
        done := true;
      } else {
        passed := WalkBands(bandCallback, rectCallback);
      }
    }

    lemma DoneFacts()
      requires Valid() && done
      ensures Seen() == |All()|
    {
      if !IsEmpty(rgn) {
        EventCount(bands, rgn.transX, rgn.transY);
      }
    }

    method WalkBands(bandCallback: Callback, rectCallback: Callback) returns (passed: seq<Event>)
      requires Valid() && !done && !IsEmpty(rgn)
      modifies this
      ensures Valid() && IsSlice(passed, All(), old(Seen()), Seen())
      ensures !done ==>
          Halted(passed, bandCallback, rectCallback) && (Last(passed).BandStart? ==> ScaledIs(Last(passed)))
      ensures done ==> Seen() == |All()| && Passes(passed, bandCallback, rectCallback)
    {
      PosFacts();
      NonePass(All(), Seen(), bandCallback, rectCallback);
      hide *;
      ghost var from := Seen();
      passed := [];
      while i < rgn.numBands
        invariant Valid() && !done && !IsEmpty(rgn) && rgn.numBands == |bands| && i <= |bands|
        invariant i == |bands| ==> !doneBandCallback && Seen() == |All()|
        invariant IsSlice(passed, All(), from, Seen()) && Passes(passed, bandCallback, rectCallback)
        decreases |bands| - i
      {
        ghost var mid := Seen();
        var more, stopped := WalkBand(bandCallback, rectCallback);
        Joined(passed, more, All(), from, mid, Seen(), stopped, bandCallback, rectCallback);
        passed := passed + more;
        if stopped {
          return;
        }
        PosFacts();
      }
      Finish();
    }

    method Finish()
      requires Valid() && !IsEmpty(rgn) && i == |bands| && !doneBandCallback
      modifies this`done
      ensures Valid() && done && Seen() == old(Seen())
    {
      hide Between, InBand, Fixed, EventPos;
      done := true;
    }
  }

  lemma FrontOf(s: seq<Event>, e: Event)
    ensures Front(s + [e]) == s && Last(s + [e]) == e
  {
  }

  /** Adding to what passed: the whole halts if what is added does. */
  lemma Joined(s: seq<Event>, more: seq<Event>, all: seq<Event>, a: nat, b: nat, c: nat, stopped: bool,
      bandCallback: Callback,
               rectCallback: Callback)
    requires RegionIterator.IsSlice(s, all, a, b) && RegionIterator.IsSlice(more, all, b, c)
    requires RegionIterator.Passes(s, bandCallback, rectCallback)
    requires stopped ==> RegionIterator.Halted(more, bandCallback, rectCallback)
    requires !stopped ==> RegionIterator.Passes(more, bandCallback, rectCallback)
    ensures RegionIterator.IsSlice(s + more, all, a, c)
    ensures stopped ==> RegionIterator.Halted(s + more, bandCallback, rectCallback) && Last(s + more) == Last(more)
    ensures !stopped ==> RegionIterator.Passes(s + more, bandCallback, rectCallback)
  {
    hide RegionIterator.Stops, RegionIterator.Passes;
    JoinSlices(all, a, b, c);
    if stopped {
      var front, last := Front(more), Last(more);
      assert more == front + [last];
      FrontOf(s + front, last);
      assert s + more == (s + front) + [last];
      PassesBoth(s, front, bandCallback, rectCallback);
    } else {
      PassesBoth(s, more, bandCallback, rectCallback);
    }
  }

  lemma PassesBoth(s: seq<Event>, more: seq<Event>, bandCallback: Callback, rectCallback: Callback)
    requires RegionIterator.Passes(s, bandCallback, rectCallback)
        && RegionIterator.Passes(more, bandCallback, rectCallback)
    ensures RegionIterator.Passes(s + more, bandCallback, rectCallback)
  {
    hide RegionIterator.Stops;
  }

  lemma NonePass(all: seq<Event>, a: nat, bandCallback: Callback, rectCallback: Callback)
    requires a <= |all|
    ensures RegionIterator.Passes([], bandCallback, rectCallback) && RegionIterator.IsSlice([], all, a, a)
  {
  }

  /** A band's start stops the walk if the band callback does. */
  lemma StartWalked(all: seq<Event>, a: nat, e: Event, bandCallback: Callback, rectCallback: Callback)
    requires a < |all| && all[a] == e && e.BandStart?
    ensures RegionIterator.IsSlice([e], all, a, a + 1) && Last([e]) == e
    ensures bandCallback == Stop ==> RegionIterator.Halted([e], bandCallback, rectCallback)
    ensures bandCallback != Stop ==> RegionIterator.Passes([e], bandCallback, rectCallback)
  {
  }

  lemma JoinSlices(s: seq<Event>, a: nat, b: nat, c: nat)
    requires a <= b <= c <= |s|
    ensures s[a..b] + s[b..c] == s[a..c]
  {
  }

  lemma GivesPoints(t: Token, bands: seq<Band>, i: nat)
    requires i < |bands| && Gives(t, bands, i)
    ensures |bands[i].pts| == if t.Small? then 2 * |t.adj| else |t.pts|
  {
  }

  lemma RepeatLength(t: Token)
    requires ValidToken(t) && t.Repeat?
    ensures |TokenBytes(t)| == if t.count > 1 then 2 else 1
  {
  }
}
