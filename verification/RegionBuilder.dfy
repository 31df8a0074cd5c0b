/** The scanline builder: the only code that writes region bytes. */
module RegionBuilder {
  import opened Arithmetic
  import opened Words
  import opened Options
  import opened RegionFormat
  import opened RegionRows
  import opened RegionTokens

  const HEADER := 6

  // ---- Buffer capacities ----

  /** `(n & (n << 1)) == 0`: no two neighbouring bits are set. */
  predicate NoAdjacentOnes(n: nat) {
    n == 0 || (n % 4 != 3 && NoAdjacentOnes(n / 2))
  }

  /** The capacities the builder's growth rule can reach: 2^k and 3 * 2^k. */
  predicate IsCapacity(n: nat) {
    n >= 32 && (IsPower2(n) || (n >= 768 && n % 3 == 0 && IsPower2(n / 3)))
  }

  lemma {:induction false} Power2Bits(n: nat)
    requires IsPower2(n)
    ensures NoAdjacentOnes(n) && !NoAdjacentOnes(3 * n)
  {
    if n > 1 {
      Power2Bits(n / 2);
      assert n % 4 != 3 && 3 * n / 2 == 3 * (n / 2);
    }
  }

  function NextCapacity(n: nat): nat {
    if n < 512 then n * 2
    else if NoAdjacentOnes(n) then n + n / 2
    else n / 3 * 4
  }

  lemma NextCapacityGrows(n: nat)
    requires IsCapacity(n)
    ensures IsCapacity(NextCapacity(n)) && n < NextCapacity(n) <= 2 * n
  {
    hide IsPower2, NoAdjacentOnes;
    if IsPower2(n) {
      Power2Bits(n);
      Doubled(n);
      Halved(n);
      assert n + n / 2 == 3 * (n / 2);
      Thirds(n / 2);
    } else {
      Power2Bits(n / 3);
      Doubled(n / 3);
      Doubled(2 * (n / 3));
    }
  }

  lemma Doubled(n: nat)
    requires IsPower2(n)
    ensures IsPower2(2 * n)
  {
    assert 2 * n / 2 == n;
  }

  lemma Halved(n: nat)
    requires IsPower2(n) && n > 1
    ensures IsPower2(n / 2) && n == 2 * (n / 2)
  {
  }

  lemma Thirds(h: nat)
    ensures 3 * h / 3 == h && 3 * h % 3 == 0
  {
  }

  function SmallBytes(small: Option<Token>): seq<Byte>
    requires small.Some? ==> ValidToken(small.value)
  {
    if small.None? then [] else TokenBytes(small.value)
  }

  function LastSmallBytes(ts: seq<Token>): seq<Byte>
    requires ValidTokens(ts)
  {
    SmallBytes(LastSmall(ts))
  }

  /** The length of the run of repeats the stream ends in, 0 once it is full. */
  function RunCount(ts: seq<Token>): nat {
    if ts != [] && Last(ts).Repeat? && Last(ts).count < MAX_REPEAT then Last(ts).count else 0
  }

  /** The stream after one more repeat. */
  function Repeated(ts: seq<Token>): seq<Token> {
    if RunCount(ts) == 0 then ts + [Repeat(1)] else Front(ts) + [Repeat(RunCount(ts) + 1)]
  }

  lemma AppendSame(ts: seq<Token>, t: Token)
    requires t.Small? && LastSmall(ts) == Some(t) && ValidTokens(ts)
    ensures AppendToken(ts, t) == Repeated(ts)
  {
    assert ValidToken(Last(ts));
  }

  lemma RepeatRun(ts: seq<Token>)
    requires ValidTokens(ts)
    ensures RunCount(ts) < MAX_REPEAT
    ensures RunCount(Repeated(ts)) == if RunCount(ts) + 1 == MAX_REPEAT then 0 else RunCount(ts) + 1
  {
    hide ValidToken;
  }

  lemma SmallBytesInjective(t: Token, u: Token)
    requires t.Small? && u.Small? && ValidToken(t) && ValidToken(u)
    requires TokenBytes(t) == TokenBytes(u)
    ensures t == u
  {
    assert t.adj == TokenBytes(t)[1..] && u.adj == TokenBytes(u)[1..];
    assert TokenBytes(t)[0] == |t.adj| + 16 * (t.height - 1);
  }

  lemma SerializeSnoc(ts: seq<Token>, t: Token)
    requires ValidTokens(ts) && ValidToken(t)
    ensures ValidTokens(ts + [t])
    ensures Serialize(ts + [t]) == Serialize(ts) + TokenBytes(t)
  {
    SerializeAppend(ts, [t]);
    assert Serialize([t]) == TokenBytes(t) + Serialize([]);
  }

  /** `struct region_build_context` together with the region being built. */
  class RegionBuilder {
    var currentSpans: int
    var currentPoints: Option<seq<Int16>>
    var currentHeight: nat
    var prevX0: seq<Int16>
    var prevX1: seq<Int16>
    var prevY1: int
    var prevSpans: int
    var prevSmallOutput: seq<Byte>
    var count0x7F: nat
    var numBands: nat
    var bandData: seq<Byte>
    var usedLength: nat
    var allocatedLength: nat

    ghost var firstY: int
    ghost var rows: seq<seq<Int16>>

    /** The storage holds exactly the tokens ts, and remembers the latest small one. */
    ghost predicate Wire(ts: seq<Token>)
      reads this`bandData, this`prevSmallOutput, this`usedLength, this`allocatedLength
    {
      && ValidTokens(ts) && TokensFit(ts)
      && bandData == Serialize(ts)
      && prevSmallOutput == LastSmallBytes(ts)
      && Stored()
    }

    /** The used length is the header and the bytes written, and there is room for it. */
    ghost predicate Stored()
      reads this`bandData, this`usedLength, this`allocatedLength
    {
      usedLength == HEADER + |bandData| < allocatedLength && IsCapacity(allocatedLength)
    }

    ghost predicate PrevPoints(pts: seq<Int16>)
      reads this`prevX0, this`prevX1
    {
      && |prevX0| == 16 && |prevX1| == 16
      && forall i :: 0 <= i < 16 && 2 * i + 1 < |pts| ==> prevX0[i] == pts[2 * i] && prevX1[i] == pts[2 * i + 1]
    }

    /** The storage holds the bands `done`, and the next band starts at row y. */
    ghost predicate Holding(done: seq<Band>, y: int)
      reads this`bandData, this`prevSmallOutput, this`usedLength, this`allocatedLength, this`numBands, this`prevY1,
            this`prevSpans, this`prevX0, this`prevX1, this`count0x7F
    {
      && EachGood(done)
      && Wire(Tokens(done))
      && numBands == |done|
      && prevY1 == y
      && |prevX0| == 16 && |prevX1| == 16 && prevSpans >= 0
      && (done != [] ==> PrevPoints(Last(done).pts))
      && (prevSpans != 0 ==>
            done != [] && |Last(done).pts| == 2 * prevSpans && Last(done).y1 == y
            && count0x7F == RunCount(Tokens(done)))
      && (prevSpans == 0 ==> done == [] || Last(done).y1 < y)
    }

    /** The builder has been fed exactly `rows` from row firstY down. */
    ghost predicate Valid()
      reads this
    {
      var b := Fed(firstY, rows);
      && Fits(firstY, rows) && NarrowRows(rows)
      && Holding(b.done, b.y)
      && currentPoints == b.cur
      && (b.cur.Some? ==> 2 * currentSpans == |b.cur.value| && currentHeight == b.height)
    }

    constructor (y0: int)
      requires -0x8000 <= y0 <= 0x7FFF
      ensures Valid() && firstY == y0 && rows == []
    {
      currentSpans, currentPoints, currentHeight := 0, None, 0;
      prevX0, prevX1 := seq(16, _ => 0), seq(16, _ => 0);
      prevY1, prevSpans, prevSmallOutput, count0x7F := y0, 0, [], 0;
      numBands, bandData := 0, [];
      usedLength, allocatedLength := HEADER, 32;
      firstY, rows := y0, [];
    }

    /** Makes room for extra bytes; the capacity stays ahead of the use, at most doubling past it. */
    method ExpandToFit(extra: nat)
      requires IsCapacity(allocatedLength)
      modifies this`usedLength, this`allocatedLength
      ensures usedLength == old(usedLength) + extra < allocatedLength
      ensures IsCapacity(allocatedLength)
      ensures allocatedLength == old(allocatedLength) || allocatedLength <= 2 * usedLength
    {
      var newUsed := usedLength + extra;
      var newAlloc := allocatedLength;
      while newUsed >= newAlloc
        invariant IsCapacity(newAlloc)
        invariant newAlloc == old(allocatedLength) || newAlloc <= 2 * newUsed
        decreases newUsed - newAlloc
      {
        NextCapacityGrows(newAlloc);
        if newAlloc < 512 {
          newAlloc := newAlloc * 2;
        } else if NoAdjacentOnes(newAlloc) {
          newAlloc := newAlloc + newAlloc / 2;
        } else {
          newAlloc := newAlloc / 3;
          newAlloc := newAlloc * 4;
        }
      }
      allocatedLength := newAlloc;
      usedLength := newUsed;
    }

    /** Whether every point of the pending scanline is near its counterpart in the previous band. */
    method PointsNear(pts: seq<Int16>, ghost prev: seq<Int16>) returns (possible: bool)
      requires |pts| == |prev| <= 30 && |pts| % 2 == 0 && PrevPoints(prev)
      ensures possible <==> AllNear(pts, prev)
    {
      var i := 0;
      while i < |pts| / 2
        invariant 0 <= i <= |pts| / 2
        invariant forall k :: 0 <= k < 2 * i ==> Near(pts[k], prev[k])
      {
        var diffStart := ToInt16(pts[2 * i] as int - prevX0[i]);
        var diffEnd := ToInt16(pts[2 * i + 1] as int - prevX1[i]);
        if diffStart < -8 || diffStart > 7 || diffEnd < -8 || diffEnd > 7 {
          assert !Near(pts[2 * i], prev[2 * i]) || !Near(pts[2 * i + 1], prev[2 * i + 1]);
          return false;
        }
        i := i + 1;
      }
      return true;
    }

    /** The difference bytes of small mode, one a span. */
    method AdjustBytes(pts: seq<Int16>, ghost prev: seq<Int16>) returns (output: seq<Byte>)
      requires |pts| == |prev| <= 30 && |pts| % 2 == 0 && PrevPoints(prev) && AllNear(pts, prev)
      ensures output == AdjBytes(prev, pts)
    {
      hide AdjByte, Near;
      output := [];
      var i := 0;
      while i < |pts| / 2
        invariant 0 <= i <= |pts| / 2
        invariant output == AdjBytes(prev, pts)[..i]
      {
        var adjStart := pts[2 * i] as int - prevX0[i];
        var adjEnd := pts[2 * i + 1] as int - prevX1[i];
        var startPart := (adjStart + 8) % 256;
        var endPart := (adjEnd + 8) % 256;
        AdjByteIs(pts[2 * i], pts[2 * i + 1], prevX0[i], prevX1[i]);
        output := output + [endPart * 16 % 256 + startPart];
        i := i + 1;
      }
    }

    /** Whether small mode can hold the pending scanline, and its bytes if so. */
    method SmallOutput(ghost done: seq<Band>, ghost b: Band) returns (possible: bool, output: seq<Byte>)
      requires Holding(done, b.y0) && GoodBand(b)
      requires currentPoints == Some(b.pts) && 2 * currentSpans == |b.pts| && currentHeight == b.y1 - b.y0
      ensures possible <==> done != [] && SmallFits(Last(done), b)
      ensures possible ==> ValidToken(BandToken(done, b)) && output == TokenBytes(BandToken(done, b))
    {
      hide Fed, Serialize, ValidTokens, TokensFit, Tokens, IsCapacity, LastSmallBytes, AllNear, AdjBytes, PrevPoints,
           Increasing;
      output := [];
      possible := currentSpans == prevSpans && currentSpans != 0 && currentHeight <= 8 && currentSpans <= 15
          && numBands > 0;
      if possible {
        possible := PointsNear(currentPoints.value, Last(done).pts);
        var ctrlByte := currentSpans + (currentHeight - 1) * 16;
        if possible && ctrlByte != 0x7F && ctrlByte != 0x7E {
          var adj := AdjustBytes(currentPoints.value, Last(done).pts);
          output := [ctrlByte] + adj;
        } else {
          possible := false;
        }
      }
    }

    /** Counts a band into the run of repeats the stream ends in, or starts one. */
    method EncodeRepeat(ghost ts: seq<Token>)
      requires ValidTokens(ts) && bandData == Serialize(ts) && Stored() && count0x7F == RunCount(ts)
      modifies this`count0x7F, this`bandData, this`usedLength, this`allocatedLength
      ensures Stored() && ValidTokens(Repeated(ts)) && bandData == Serialize(Repeated(ts))
      ensures count0x7F == RunCount(Repeated(ts))
    {
      hide Serialize, IsCapacity, ValidTokens;
      RepeatBytes(ts);
      RepeatRun(ts);
      if count0x7F == 0 {
        ExpandToFit(1);
        count0x7F := 1;
        bandData := bandData + [0x7F];
      } else if count0x7F == 1 {
        ExpandToFit(1);
        count0x7F := count0x7F + 1;
        bandData := bandData[|bandData| - 1 := 0x7E] + [count0x7F - 2];
      } else {
        count0x7F := count0x7F + 1;
        bandData := bandData[|bandData| - 1 := count0x7F - 2];
        if count0x7F - 2 == 0xFF {
          count0x7F := 0;
        }
      }
    }

    /** Small mode: writes the band, or counts it into the run of repeats it continues. */
    method EncodeSmall(smallOutput: seq<Byte>, ghost ts: seq<Token>, ghost t: Token)
      requires t.Small? && ValidToken(t) && smallOutput == TokenBytes(t)
      requires Wire(ts) && count0x7F == RunCount(ts)
      modifies this`count0x7F, this`bandData, this`prevSmallOutput, this`usedLength, this`allocatedLength
      ensures Wire(AppendToken(ts, t)) && count0x7F == RunCount(AppendToken(ts, t))
    {
      hide ValidToken, TokensFit, Serialize, IsCapacity, TokenBytes, Repeated;
      AppendTokenUnits(ts, t);
      LastSmallValid(ts);
      if smallOutput == prevSmallOutput {
        SameSmall(ts, t);
        AppendSame(ts, t);
        EncodeRepeat(ts);
      } else {
        ExpandToFit(|smallOutput|);
        bandData := bandData + smallOutput;
        prevSmallOutput := smallOutput;
        count0x7F := 0;
        SerializeSnoc(ts, t);
      }
    }

    /** Appends the pending points, four bytes a span. */
    method WriteSpans(pts: seq<Int16>)
      requires |pts| % 2 == 0
      modifies this`bandData
      ensures bandData == old(bandData) + WordBytes(pts)
    {
      ghost var before := bandData;
      var i := 0;
      while i < |pts| / 2
        invariant 0 <= i <= |pts| / 2
        invariant bandData == before + WordBytes(pts)[..4 * i]
      {
        var (x0, x1) := (pts[2 * i], pts[2 * i + 1]);
        WordBytesNext(pts, i);
        bandData := bandData + [LowByte(x0), HighByte(x0)] + [LowByte(x1), HighByte(x1)];
        i := i + 1;
      }
      assert WordBytes(pts)[..4 * i] == WordBytes(pts);
    }

    /** Appends the shared high byte once, then the low byte of each point. */
    method WriteCompactSpans(pts: seq<Int16>)
      requires |pts| % 2 == 0 && pts != []
      modifies this`bandData
      ensures bandData == old(bandData) + [HighByte(pts[0])] + LowBytes(pts)
    {
      ghost var before := bandData;
      ghost var top := [HighByte(pts[0])];
      var i := 0;
      while i < |pts| / 2
        invariant 0 <= i <= |pts| / 2
        invariant bandData == before + (if i == 0 then [] else top + LowBytes(pts)[..2 * i])
      {
        if i == 0 {
          bandData := bandData + [HighByte(pts[0])];
        }
        LowBytesNext(pts, i);
        bandData := bandData + [LowByte(pts[2 * i])] + [LowByte(pts[2 * i + 1])];
        i := i + 1;
      }
      assert LowBytes(pts)[..2 * i] == LowBytes(pts);
    }

    method TopBytesAgree(pts: seq<Int16>) returns (agree: bool)
      requires pts != []
      ensures agree == SameTop(pts)
    {
      var i := 0;
      while i < |pts|
        invariant 0 <= i <= |pts|
        invariant forall k :: 0 <= k < i ==> HighByte(pts[k]) == HighByte(pts[0])
      {
        if HighByte(pts[i]) != HighByte(pts[0]) {
          return false;
        }
        i := i + 1;
      }
      return true;
    }

    method EncodeCompact(ghost ts: seq<Token>, ghost b: Band)
      requires Wire(ts) && currentPoints == Some(b.pts) && 2 * currentSpans == |b.pts| && b.y0 == prevY1
      requires 2 <= |b.pts| <= 62
      modifies this`bandData, this`usedLength, this`allocatedLength
      ensures Wire(ts + [Compact(b.y0, SameTop(b.pts), b.pts)])
    {
      hide TokensFit, Serialize, IsCapacity, LastSmallBytes, WordBytes, LowBytes, ValidTokens, GoodBand, SameTop;
      hide LowByte, HighByte;
      var pts := currentPoints.value;
      var compactSpans := TopBytesAgree(pts);
      ghost var t := Compact(b.y0, compactSpans, pts);
      WireAppend(ts, t);
      ExpandToFit(3 + currentSpans * (if compactSpans then 2 else 4) + (if compactSpans then 1 else 0));
      bandData := bandData + [0x80 + (if compactSpans then 0x20 else 0) + currentSpans % 32];
      bandData := bandData + [LowByte(prevY1), HighByte(prevY1)];
      assert bandData == old(bandData) + CompactHeader(b.y0, compactSpans, currentSpans);
      ghost var header := CompactHeader(b.y0, compactSpans, currentSpans);
      if compactSpans {
        WriteCompactSpans(pts);
        Regroup(old(bandData), header, [HighByte(pts[0])], LowBytes(pts));
      } else {
        WriteSpans(pts);
        Regroup(old(bandData), header, [], WordBytes(pts));
      }
      assert bandData == old(bandData) + TokenBytes(t);
    }

    method EncodeFull(ghost ts: seq<Token>, ghost b: Band)
      requires Wire(ts) && ValidToken(Full(b.y0, b.y1, b.pts))
      requires currentPoints == Some(b.pts) && 2 * currentSpans == |b.pts| && b.y0 == prevY1
          && currentHeight == b.y1 - b.y0
      modifies this`bandData, this`usedLength, this`allocatedLength
      ensures Wire(ts + [Full(b.y0, b.y1, b.pts)])
    {
      hide TokensFit, Serialize, IsCapacity, LastSmallBytes, WordBytes, ValidTokens, GoodBand;
      hide LowByte, HighByte;
      ghost var t := Full(b.y0, b.y1, b.pts);
      WireAppend(ts, t);
      ExpandToFit(6 + currentSpans * 4);
      var y0 := prevY1;
      var y1 := ToInt16(y0 + currentHeight);
      assert y1 == b.y1 && currentSpans <= MAX_SPANS;
      bandData := bandData + [0x80 + 0x40 + currentSpans % 64];
      bandData := bandData + [currentSpans / 64 % 256];
      bandData := bandData + [LowByte(y0), HighByte(y0)];
      bandData := bandData + [LowByte(y1), HighByte(y1)];
      assert bandData == old(bandData) + FullHeader(b.y0, b.y1, currentSpans);
      WriteSpans(currentPoints.value);
      assert old(bandData) + FullHeader(b.y0, b.y1, currentSpans) + WordBytes(b.pts) == old(bandData) + TokenBytes(t);
    }

    /** Regular mode: writes the band in full, or compactly when it is one row high. */
    method EncodeRegular(ghost ts: seq<Token>, ghost b: Band)
      requires Wire(ts) && GoodBand(b)
      requires currentPoints == Some(b.pts) && 2 * currentSpans == |b.pts| && b.y0 == prevY1
          && currentHeight == b.y1 - b.y0
      modifies this`count0x7F, this`bandData, this`usedLength, this`allocatedLength
      ensures Wire(ts + [RegularToken(numBands == 0, b)]) && count0x7F == 0
    {
      hide TokensFit, Serialize, IsCapacity, LastSmallBytes, ValidTokens, GoodBand;
      RegularValid(numBands == 0, b);
      count0x7F := 0;
      var compact := currentSpans <= 0x1F && currentHeight == 1 && numBands > 0;
      if compact {
        EncodeCompact(ts, b);
      } else {
        EncodeFull(ts, b);
      }
    }

    /** Remembers the points of the band just written, as far as small mode can look. */
    method RememberPoints(pts: seq<Int16>)
      requires |pts| == 2 * currentSpans && |prevX0| == 16 && |prevX1| == 16
      modifies this`prevX0, this`prevX1
      ensures PrevPoints(pts)
    {
      var i := 0;
      var limit := if currentSpans < 16 then currentSpans else 16;
      while i < limit
        invariant 0 <= i <= limit
        invariant |prevX0| == 16 && |prevX1| == 16
        invariant forall k :: 0 <= k < i ==> prevX0[k] == pts[2 * k] && prevX1[k] == pts[2 * k + 1]
      {
        prevX0 := prevX0[i := pts[2 * i]];
        prevX1 := prevX1[i := pts[2 * i + 1]];
        i := i + 1;
      }
    }

    /** Encodes the pending band after the bands done, in the mode the format demands. */
    method EncodeBand(ghost done: seq<Band>, ghost b: Band)
      requires Holding(done, b.y0) && GoodBand(b)
      requires currentPoints == Some(b.pts) && 2 * currentSpans == |b.pts| && currentHeight == b.y1 - b.y0
      modifies this`count0x7F, this`bandData, this`prevSmallOutput, this`usedLength, this`allocatedLength
      ensures EachGood(done + [b])
      ensures Wire(Tokens(done + [b])) && count0x7F == RunCount(Tokens(done + [b]))
    {
      hide Wire, PrevPoints, GoodBand, SmallFits, RegularToken, IsRow, SameTop, RunCount;
      assert Front(done + [b]) == done && Last(done + [b]) == b;
      ghost var ts := Tokens(done);
      var possible, output := SmallOutput(done, b);
      if possible {
        assert SmallFits(Last(done), b) ==> Last(done).y1 == b.y0 by { SmallTouches(Last(done), b); }
        EncodeSmall(output, ts, BandToken(done, b));
      } else {
        EncodeRegular(ts, b);
        RegularEndsRun(ts, numBands == 0, b);
      }
    }

    /** The rest of done_encoding: the band written (or the gap) becomes the previous one. */
    method AdvanceBand()
      requires currentPoints.Some? && |currentPoints.value| == 2 * currentSpans && |prevX0| == 16 && |prevX1| == 16
      modifies this`numBands, this`prevX0, this`prevX1, this`prevY1, this`prevSpans, this`currentPoints
      ensures numBands == old(numBands) + (if currentSpans == 0 then 0 else 1)
      ensures currentSpans == 0 ==> prevX0 == old(prevX0) && prevX1 == old(prevX1)
      ensures |prevX0| == 16 && |prevX1| == 16 && (currentSpans != 0 ==> PrevPoints(old(currentPoints).value))
      ensures prevY1 == old(prevY1) + currentHeight && prevSpans == currentSpans && currentPoints.None?
    {
      if currentSpans != 0 {
        numBands := numBands + 1;
        RememberPoints(currentPoints.value);
      }
      prevY1 := prevY1 + currentHeight;
      prevSpans := currentSpans;
      currentPoints := None;
    }

    /** Saves the pending scanlines as a band, unless they are a gap. */
    method FlushBand()
      requires Valid() && currentPoints.Some?
      modifies this`count0x7F, this`bandData, this`prevSmallOutput, this`usedLength, this`allocatedLength,
               this`numBands, this`prevX0, this`prevX1, this`prevY1, this`prevSpans, this`currentPoints
      ensures Holding(Flushed(Fed(firstY, rows)), firstY + |rows|) && prevY1 == firstY + |rows| && currentPoints.None?
    {
      hide Wire, PrevPoints, Fed, Fits, NarrowRows, Flushed, GoodBand, EachGood, Tokens;
      ghost var b := Fed(firstY, rows);
      PendingBand(firstY, rows);
      if currentSpans == 0 {
        count0x7F := 0;
        AdvanceBand();
      } else {
        ghost var band := Band(b.y, b.y + b.height, currentPoints.value);
        EncodeBand(b.done, band);
        AdvanceBand();
        assert Last(b.done + [band]) == band;
      }
    }

    /** The scanlines before the first one with spans only move its row down. */
    method FirstScanline(numSpans: nat, xPoints: seq<Int16>)
      requires Valid() && currentPoints.None? && CanHold(rows + [xPoints]) && 2 * numSpans == |xPoints|
      modifies this
      ensures Valid() && firstY == old(firstY) && rows == old(rows) + [xPoints]
    {
      hide Wire, PrevPoints, IsRow, Fed, Fits, NarrowRows;
      FedSnoc(firstY, rows, xPoints);
      FedNone(firstY, rows);
      if numSpans == 0 {
        prevY1 := prevY1 + 1;
      } else {
        count0x7F, currentSpans, currentPoints, currentHeight := 0, numSpans, Some(xPoints), 1;
      }
      rows := rows + [xPoints];
    }

    ghost predicate CanHold(more: seq<seq<Int16>>)
      reads this`firstY
    {
      Fits(firstY, more) && NarrowRows(more)
    }

    /** Feeds one scanline (numSpans spans at xPoints), or with numSpans == -1 saves what is pending. */
    method AddScanline(numSpans: int, xPoints: seq<Int16>, knownToBeSameAsPrev: bool)
      requires Valid()
      requires numSpans == -1 || (2 * numSpans == |xPoints| && CanHold(rows + [xPoints]))
      // a hint is only given for the scanline just fed
      requires knownToBeSameAsPrev && numSpans != -1 ==> rows != [] && Last(rows) == xPoints
      modifies this
      ensures firstY == old(firstY)
      ensures numSpans == -1 ==> rows == old(rows) && Holding(BandsOfRows(firstY, rows), prevY1)
      ensures numSpans != -1 ==> Valid() && rows == old(rows) + [xPoints]
    {
      if currentPoints.None? {
        if numSpans != -1 {
          FirstScanline(numSpans, xPoints);
        } else {
          FedNone(firstY, rows);
        }
        return;
      }
      hide Wire, PrevPoints, IsRow, Fed, Fits, NarrowRows, Holding;
      LastIsPending(firstY, rows);
      if currentSpans == numSpans && (currentSpans == 0 || knownToBeSameAsPrev || currentPoints.value == xPoints) {
        if currentHeight < 32000 {
          RepeatScanline(xPoints);
          return;
        }
      }
      if numSpans == -1 {
        FlushBand();
      } else {
        ReplaceScanline(numSpans, xPoints);
      }
    }

    /** One more scanline like the pending ones. */
    method RepeatScanline(ghost xPoints: seq<Int16>)
      requires Valid() && currentPoints == Some(xPoints) && currentHeight < 32000 && CanHold(rows + [xPoints])
      modifies this`currentHeight, this`rows
      ensures Valid() && rows == old(rows) + [xPoints]
    {
      hide Wire, PrevPoints, IsRow, Fed, Fits, NarrowRows, Holding;
      FedSnoc(firstY, rows, xPoints);
      currentHeight := currentHeight + 1;
      rows := rows + [xPoints];
    }

    /** A scanline unlike the pending ones (or one too many): saves those and starts again. */
    method ReplaceScanline(numSpans: nat, xPoints: seq<Int16>)
      requires Valid() && currentPoints.Some? && CanHold(rows + [xPoints]) && 2 * numSpans == |xPoints|
      requires currentPoints.value != xPoints || currentHeight >= 32000
      modifies this
      ensures Valid() && firstY == old(firstY) && rows == old(rows) + [xPoints]
    {
      hide Wire, PrevPoints, IsRow, Fed, Fits, NarrowRows, Holding;
      FedSnoc(firstY, rows, xPoints);
      LastIsPending(firstY, rows);
      FlushBand();
      currentSpans, currentPoints, currentHeight := numSpans, Some(xPoints), 1;
      rows := rows + [xPoints];
    }

    /** Ends the build: the region holds the canonical encoding of the rows fed. */
    method FinishRegion() returns (rgn: Region)
      requires Valid()
      modifies this
      ensures firstY == old(firstY) && rows == old(rows)
      ensures Fits(firstY, rows) && NarrowRows(rows) && rgn == RegionOfRows(firstY, rows)
    {
      AddScanline(-1, [], false);
      BandsGood(firstY, rows);
      rgn := if numBands == 0 then NoData else Data(numBands, 0, 0, bandData);
    }
  }

  /** The region the builder must produce for these rows. */
  function RegionOfRows(y0: int, rows: seq<seq<Int16>>): Region
    requires Fits(y0, rows) && NarrowRows(rows)
  {
    BandsGood(y0, rows);
    var bs := BandsOfRows(y0, rows);
    if bs == [] then NoData else Data(|bs|, 0, 0, Encoded(bs))
  }

  lemma FedSnoc(y0: int, rows: seq<seq<Int16>>, row: seq<Int16>)
    ensures Fed(y0, rows + [row]) == Feed(Fed(y0, rows), row)
  {
    assert Front(rows + [row]) == rows;
  }

  lemma LastIsPending(y0: int, rows: seq<seq<Int16>>)
    requires Fits(y0, rows) && Fed(y0, rows).cur.Some?
    ensures rows != [] && Fed(y0, rows).cur.value == Last(rows)
    ensures Fed(y0, rows).y + Fed(y0, rows).height == y0 + |rows|
  {
    FedHolds(y0, rows);
  }

  lemma SmallTouches(prev: Band, b: Band)
    requires SmallFits(prev, b)
    ensures prev.y1 == b.y0 && |prev.pts| == |b.pts|
  {
  }

  lemma RegularEndsRun(ts: seq<Token>, first: bool, b: Band)
    ensures AppendToken(ts, RegularToken(first, b)) == ts + [RegularToken(first, b)]
    ensures RunCount(ts + [RegularToken(first, b)]) == 0
  {
  }

  lemma WordBytesNext(pts: seq<Int16>, i: nat)
    requires 2 * i + 1 < |pts|
    ensures WordBytes(pts)[..4 * (i + 1)]
         == WordBytes(pts)[..4 * i] + [LowByte(pts[2 * i]), HighByte(pts[2 * i])]
            + [LowByte(pts[2 * i + 1]), HighByte(pts[2 * i + 1])]
  {
    hide LowByte, HighByte;
    var w := WordBytes(pts);
    assert w[4 * i] == LowByte(pts[2 * i]) && w[4 * i + 1] == HighByte(pts[2 * i]);
    assert w[4 * i + 2] == LowByte(pts[2 * i + 1]) && w[4 * i + 3] == HighByte(pts[2 * i + 1]);
  }

  lemma LowBytesNext(pts: seq<Int16>, i: nat)
    requires 2 * i + 1 < |pts|
    ensures LowBytes(pts)[..2 * (i + 1)]
         == LowBytes(pts)[..2 * i] + [LowByte(pts[2 * i])] + [LowByte(pts[2 * i + 1])]
  {
    hide LowByte;
  }

  lemma RegularValid(first: bool, b: Band)
    requires GoodBand(b)
    ensures ValidToken(RegularToken(first, b)) && !RegularToken(first, b).Repeat? && !RegularToken(first, b).Small?
    ensures b.pts != [] && |b.pts| % 2 == 0 && |b.pts| <= 2 * MAX_SPANS
  {
  }

  /** What the storage must become when a token other than a small one or a repeat is added. */
  lemma WireAppend(ts: seq<Token>, t: Token)
    requires ValidTokens(ts) && TokensFit(ts) && ValidToken(t) && !t.Repeat? && !t.Small?
    ensures ValidTokens(ts + [t]) && TokensFit(ts + [t])
    ensures Serialize(ts + [t]) == Serialize(ts) + TokenBytes(t)
    ensures LastSmallBytes(ts + [t]) == LastSmallBytes(ts)
  {
    hide TokenBytes, ValidToken;
    SerializeSnoc(ts, t);
    UnitsSnoc(ts, t);
  }

  lemma NibblesOf(p: Int16, q: Int16)
    requires Near(p, q)
    ensures (p - q + 8) % 256 == Diff(p, q) + 8
  {
  }

  lemma AdjByteIs(start: Int16, end: Int16, prevStart: Int16, prevEnd: Int16)
    requires Near(start, prevStart) && Near(end, prevEnd)
    ensures (end - prevEnd + 8) % 256 * 16 % 256 + (start - prevStart + 8) % 256 ==
        AdjByte(start, end, prevStart, prevEnd)
  {
    NibblesOf(start, prevStart);
    NibblesOf(end, prevEnd);
    hide Diff;
  }

  lemma LastSmallValid(ts: seq<Token>)
    requires ValidTokens(ts)
    ensures LastSmall(ts).Some? ==> ValidToken(LastSmall(ts).value)
  {
    hide ValidToken;
  }

  /** The bytes compare equal to the remembered ones only if the tokens are equal. */
  lemma SameSmall(ts: seq<Token>, t: Token)
    requires ValidTokens(ts) && t.Small? && ValidToken(t)
    requires TokenBytes(t) == LastSmallBytes(ts)
    ensures LastSmall(ts) == Some(t)
  {
    LastSmallValid(ts);
    if LastSmall(ts).Some? {
      SmallBytesInjective(t, LastSmall(ts).value);
    }
  }

  lemma Regroup(a: seq<Byte>, b: seq<Byte>, c: seq<Byte>, d: seq<Byte>)
    ensures a + b + c + d == a + (b + (c + d))
    ensures c == [] ==> a + b + d == a + (b + d)
  {
    assert a + b + d == a + (b + d);
  }

  /** How the bytes change when a run of repeats starts or grows by one. */
  lemma RepeatBytes(ts: seq<Token>)
    requires ValidTokens(ts)
    ensures ValidTokens(ts + [Repeat(1)])
    ensures Serialize(ts + [Repeat(1)]) == Serialize(ts) + [0x7F]
    ensures RunCount(ts) == 0 && ts != [] && Last(ts).Repeat? ==> Last(ts).count == MAX_REPEAT
    ensures RunCount(ts) == 1 ==>
              ValidTokens(Front(ts) + [Repeat(2)]) && Serialize(ts) != []
              && Serialize(Front(ts) + [Repeat(2)]) == Serialize(ts)[|Serialize(ts)| - 1 := 0x7E] + [0]
    ensures RunCount(ts) > 1 ==>
              ValidTokens(Front(ts) + [Repeat(RunCount(ts) + 1)]) && Serialize(ts) != []
              && Serialize(Front(ts) + [Repeat(RunCount(ts) + 1)])
                 == Serialize(ts)[|Serialize(ts)| - 1 := RunCount(ts) - 1]
  {
    hide Serialize, TokensFit, TokenBytes, ValidToken, ValidTokens;
    RepeatIs(1);
    SerializeSnoc(ts, Repeat(1));
    var n := RunCount(ts);
    if n >= 1 {
      RepeatIs(n);
      RepeatIs(n + 1);
      assert Front(ts) + [Last(ts)] == ts && Last(ts) == Repeat(n);
      FrontValid(ts);
      SerializeSnoc(Front(ts), Repeat(n));
      SerializeSnoc(Front(ts), Repeat(n + 1));
      EndReplaced(Serialize(Front(ts)), n);
    } else if ts != [] && Last(ts).Repeat? {
      LastValid(ts);
    }
  }

  lemma RepeatIs(n: nat)
    requires 1 <= n <= MAX_REPEAT
    ensures ValidToken(Repeat(n)) && TokenBytes(Repeat(n)) == if n == 1 then [0x7F] else [0x7E, n - 2]
  {
  }

  lemma FrontValid(ts: seq<Token>)
    requires ValidTokens(ts) && ts != []
    ensures ValidTokens(Front(ts))
  {
  }

  lemma LastValid(ts: seq<Token>)
    requires ValidTokens(ts) && ts != [] && Last(ts).Repeat?
    ensures 1 <= Last(ts).count <= MAX_REPEAT
  {
    assert ValidToken(ts[|ts| - 1]);
  }

  /** Bumping the end of a run changes its last byte, after making it a counted one. */
  lemma EndReplaced(s: seq<Byte>, n: nat)
    requires 1 <= n < MAX_REPEAT
    ensures n == 1 ==> s + [0x7E, 0] == (s + [0x7F])[|s| := 0x7E] + [0]
    ensures n > 1 ==> s + [0x7E, n - 1] == (s + [0x7E, n - 2])[|s| + 1 := n - 1]
  {
    if n > 1 {
      assert (s + [0x7E, n - 2])[|s| + 1 := n - 1] == s + [0x7E, n - 1];
    }
  }
}
