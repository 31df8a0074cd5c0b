/** The one encoding the builder chooses for a list of bands, as a function of
    that list, and the proof that decoding it gives the list back. */
module RegionTokens {
  import opened Words
  import opened Options
  import opened RegionFormat
  import opened RegionRows

  /** The wrapped difference the builder tests against the nibble range. */
  function Diff(new_: Int16, old_: Int16): Int16 {
    ToInt16(new_ - old_)
  }

  predicate Near(new_: Int16, old_: Int16) {
    -8 <= Diff(new_, old_) <= 7
  }

  predicate AllNear(pts: seq<Int16>, prev: seq<Int16>)
    requires |pts| == |prev|
  {
    forall i :: 0 <= i < |pts| ==> Near(pts[i], prev[i])
  }

  /** Small mode: the band touches the one before it, has as many spans, and is
      short and near enough; the two control bytes that mean `repeat` are taken. */
  predicate SmallFits(prev: Band, b: Band) {
    var n := |b.pts| / 2;
    var height := b.y1 - b.y0;
    && |b.pts| == |prev.pts|
    && prev.y1 == b.y0
    && height <= 8
    && n <= 15
    && !(height == 8 && n >= 14)
    && AllNear(b.pts, prev.pts)
  }

  function AdjByte(start: Int16, end: Int16, prevStart: Int16, prevEnd: Int16): Byte
    requires Near(start, prevStart) && Near(end, prevEnd)
  {
    (Diff(end, prevEnd) + 8) * 16 + Diff(start, prevStart) + 8
  }

  function AdjBytes(prev: seq<Int16>, pts: seq<Int16>): (adj: seq<Byte>)
    requires |pts| == |prev| && |pts| % 2 == 0 && AllNear(pts, prev)
    ensures |adj| == |pts| / 2
  {
    seq(|pts| / 2, i requires 0 <= i < |pts| / 2 =>
      AdjByte(pts[2 * i], pts[2 * i + 1], prev[2 * i], prev[2 * i + 1]))
  }

  function RegularToken(first: bool, b: Band): Token {
    if |b.pts| / 2 <= 31 && b.y1 - b.y0 == 1 && !first then Compact(b.y0, SameTop(b.pts), b.pts)
    else Full(b.y0, b.y1, b.pts)
  }

  /** The token for band b after the bands `before`. */
  function BandToken(before: seq<Band>, b: Band): Token
    requires GoodBand(b)
  {
    if before != [] && SmallFits(Last(before), b) then Small(b.y1 - b.y0, AdjBytes(Last(before).pts, b.pts))
    else RegularToken(before == [], b)
  }

  /** A small token equal to the latest one becomes a repeat of it. */
  function AppendToken(ts: seq<Token>, t: Token): seq<Token> {
    if t.Small? && LastSmall(ts) == Some(t) then
      if Last(ts).Repeat? && Last(ts).count < MAX_REPEAT then Front(ts) + [Repeat(Last(ts).count + 1)]
      else ts + [Repeat(1)]
    else ts + [t]
  }

  function Tokens(bs: seq<Band>): seq<Token>
    requires EachGood(bs)
  {
    if bs == [] then [] else AppendToken(Tokens(Front(bs)), BandToken(Front(bs), Last(bs)))
  }

  // ---- Appending a token appends one band ----

  lemma UnitsSnoc(ts: seq<Token>, t: Token)
    ensures Units(ts + [t]) == Units(ts) + TokenUnits(t, LastSmall(ts))
    ensures TokensFit(ts + [t]) <==> TokensFit(ts) && (t.Repeat? ==> LastSmall(ts).Some?)
    ensures LastSmall(ts + [t]) == if t.Small? then Some(t) else LastSmall(ts)
  {
    assert Front(ts + [t]) == ts && Last(ts + [t]) == t;
  }

  function TokenUnit(t: Token): Unit
    requires !t.Repeat?
  {
    match t
    case Full(y0, y1, pts) => Absolute(Band(y0, y1, pts))
    case Compact(y0, _, pts) => Absolute(Band(y0, ToInt16(y0 + 1), pts))
    case Small(height, adj) => Relative(height, adj)
  }

  lemma AppendTokenUnits(ts: seq<Token>, t: Token)
    requires ValidTokens(ts) && TokensFit(ts) && ValidToken(t) && !t.Repeat?
    ensures ValidTokens(AppendToken(ts, t)) && TokensFit(AppendToken(ts, t))
    ensures Units(AppendToken(ts, t)) == Units(ts) + [TokenUnit(t)]
    ensures LastSmall(AppendToken(ts, t)) == if t.Small? then Some(t) else LastSmall(ts)
  {
    hide Units, TokensFit, ValidToken;
    if t.Small? && LastSmall(ts) == Some(t) {
      if Last(ts).Repeat? && Last(ts).count < MAX_REPEAT {
        RepeatOnce(ts, t);
      } else {
        UnitsSnoc(ts, Repeat(1));
        assert ValidToken(Repeat(1)) by { RepeatValid(1); }
      }
    } else {
      UnitsSnoc(ts, t);
    }
  }

  lemma RepeatValid(n: nat)
    ensures ValidToken(Repeat(n)) <==> 1 <= n <= MAX_REPEAT
  {
  }

  lemma RepeatOnce(ts: seq<Token>, t: Token)
    requires ts != [] && ValidTokens(ts) && TokensFit(ts) && Last(ts).Repeat? && Last(ts).count < MAX_REPEAT
    requires t.Small? && LastSmall(ts) == Some(t)
    ensures var us := Front(ts) + [Repeat(Last(ts).count + 1)];
            ValidTokens(us) && TokensFit(us) && Units(us) == Units(ts) + [TokenUnit(t)] && LastSmall(us) == Some(t)
  {
    hide Units, TokensFit, ValidToken;
    var n := Last(ts).count;
    RepeatValid(n);
    RepeatValid(n + 1);
    UnitsSnoc(Front(ts), Last(ts));
    assert Front(ts) + [Last(ts)] == ts;
    UnitsSnoc(Front(ts), Repeat(n + 1));
    assert TokenUnits(Repeat(n + 1), Some(t)) == TokenUnits(Repeat(n), Some(t)) + [TokenUnit(t)];
  }

  lemma WrapBack(p: Int16, q: Int16)
    ensures ToInt16(p + Diff(q, p)) == q
  {
  }

  /** Applying the nibbles to the previous band gives the band they were taken from. */
  lemma SmallBandBack(prev: Band, b: Band)
    requires GoodBand(b) && SmallFits(prev, b)
    ensures SmallBand(prev, b.y1 - b.y0, AdjBytes(prev.pts, b.pts)) == b
  {
    hide AdjBytes;
    var adj := AdjBytes(prev.pts, b.pts);
    var c := SmallBand(prev, b.y1 - b.y0, adj);
    forall i | 0 <= i < |b.pts|
      ensures c.pts[i] == b.pts[i]
    {
      PointBack(prev.pts, b.pts, i);
    }
    assert c.pts == b.pts;
  }

  lemma PointBack(prev: seq<Int16>, pts: seq<Int16>, i: nat)
    requires |pts| == |prev| && |pts| % 2 == 0 && AllNear(pts, prev) && i < |pts|
    ensures Adjusted(prev[i], AdjBytes(prev, pts)[i / 2], i % 2 == 0) == pts[i]
  {
    hide Adjusted, AdjByte, Diff;
    var k := i / 2;
    NibblesBack(pts[2 * k], pts[2 * k + 1], prev[2 * k], prev[2 * k + 1]);
    assert i == 2 * k || i == 2 * k + 1;
  }

  lemma NibblesBack(start: Int16, end: Int16, prevStart: Int16, prevEnd: Int16)
    requires Near(start, prevStart) && Near(end, prevEnd)
    ensures Adjusted(prevStart, AdjByte(start, end, prevStart, prevEnd), true) == start
    ensures Adjusted(prevEnd, AdjByte(start, end, prevStart, prevEnd), false) == end
  {
    var adj: int := AdjByte(start, end, prevStart, prevEnd);
    assert adj % 16 == Diff(start, prevStart) + 8 && adj / 16 == Diff(end, prevEnd) + 8;
    WrapBack(prevStart, start);
    WrapBack(prevEnd, end);
  }

  lemma BandTokenPlaces(before: seq<Band>, b: Band)
    requires GoodBand(b)
    ensures ValidToken(BandToken(before, b)) && !BandToken(before, b).Repeat?
    ensures UnitFits(before, TokenUnit(BandToken(before, b)))
    ensures Place(before, TokenUnit(BandToken(before, b))) == b
  {
    if before != [] && SmallFits(Last(before), b) {
      SmallBandBack(Last(before), b);
    }
  }

  /** The encoding of any list of bands is valid and stands for that list. */
  lemma {:induction false} TokensMean(bs: seq<Band>)
    requires EachGood(bs)
    ensures ValidTokens(Tokens(bs)) && TokensFit(Tokens(bs))
    ensures Bands(Units(Tokens(bs))) == Some(bs)
    ensures |Units(Tokens(bs))| == |bs|
  {
    hide BandToken, AppendToken, Place, Units, Bands, ValidTokens, TokensFit, UnitFits, GoodBand, TokenUnit;
    if bs == [] {
      NoTokens();
    } else {
      var before, b := Front(bs), Last(bs);
      TokensMean(before);
      BandTokenPlaces(before, b);
      AppendTokenUnits(Tokens(before), BandToken(before, b));
      assert before + [b] == bs;
      BandsSnoc(Units(Tokens(before)), TokenUnit(BandToken(before, b)), before);
    }
  }

  lemma NoTokens()
    ensures EachGood([]) && ValidTokens(Tokens([])) && TokensFit(Tokens([])) && Units(Tokens([])) == []
    ensures Bands(Units(Tokens([]))) == Some([])
  {
  }

  lemma BandsSnoc(us: seq<Unit>, u: Unit, before: seq<Band>)
    requires Bands(us) == Some(before) && UnitFits(before, u)
    ensures Bands(us + [u]) == Some(before + [Place(before, u)])
  {
    assert Front(us + [u]) == us && Last(us + [u]) == u;
  }

  function Encoded(bs: seq<Band>): seq<Byte>
    requires EachGood(bs)
  {
    TokensMean(bs);
    Serialize(Tokens(bs))
  }

  /** Decoding an encoded list of bands gives exactly that list. */
  lemma DecodeEncoded(bs: seq<Band>)
    requires EachGood(bs)
    ensures Decode(Encoded(bs), |bs|) == Some(bs)
  {
    TokensMean(bs);
    UnitsCount(Tokens(bs));
    ParseSerialize(Tokens(bs));
  }
}
