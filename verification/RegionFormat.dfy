/** The compressed band format of a region: what the bytes after the region
    header mean. A region's bytes are a sequence of tokens; a token is an
    absolute band (full or compact), a band given by nibble-sized differences
    from the band before it (small), or a repeat of the latest small band. */
module RegionFormat {
  import opened Options
  import opened Words

  /** The rows y0 <= y < y1, each holding the spans [pts[0], pts[1]), [pts[2], pts[3]), ... */
  datatype Band = Band(y0: Int16, y1: Int16, pts: seq<Int16>)

  datatype Token =
    | Full(y0: Int16, y1: Int16, pts: seq<Int16>)
    | Compact(y0: Int16, sameTop: bool, pts: seq<Int16>)
    | Small(height: nat, adj: seq<Byte>)
    | Repeat(count: nat)

  const MAX_SPANS := 0x3FFF
  const MAX_REPEAT := 257

  function Last<T>(s: seq<T>): T
    requires s != []
  {
    s[|s| - 1]
  }

  function Front<T>(s: seq<T>): seq<T>
    requires s != []
  {
    s[..|s| - 1]
  }

  // ---- Bytes of one token ----

  function WordBytes(pts: seq<Int16>): (s: seq<Byte>)
    ensures |s| == 2 * |pts|
  {
    seq(2 * |pts|, i requires 0 <= i < 2 * |pts| =>
      if i % 2 == 0 then LowByte(pts[i / 2]) else HighByte(pts[i / 2]))
  }

  function LowBytes(pts: seq<Int16>): (s: seq<Byte>)
    ensures |s| == |pts|
  {
    seq(|pts|, i requires 0 <= i < |pts| => LowByte(pts[i]))
  }

  predicate SameTop(pts: seq<Int16>) {
    forall i :: 0 <= i < |pts| ==> HighByte(pts[i]) == HighByte(pts[0])
  }

  predicate ValidToken(t: Token) {
    match t
    case Full(_, _, pts) => |pts| % 2 == 0 && 2 <= |pts| <= 2 * MAX_SPANS
    case Compact(_, sameTop, pts) => |pts| % 2 == 0 && 2 <= |pts| <= 62 && (sameTop ==> SameTop(pts))
    case Small(height, adj) => 1 <= height <= 8 && 1 <= |adj| <= 15 && !(height == 8 && |adj| >= 14)
    case Repeat(count) => 1 <= count <= MAX_REPEAT
  }

  function FullHeader(y0: Int16, y1: Int16, spans: nat): (s: seq<Byte>)
    requires spans <= MAX_SPANS
    ensures |s| == 6
  {
    [0xC0 + spans % 64, spans / 64, LowByte(y0), HighByte(y0), LowByte(y1), HighByte(y1)]
  }

  function CompactHeader(y0: Int16, sameTop: bool, spans: nat): (s: seq<Byte>)
    requires spans <= 31
    ensures |s| == 3
  {
    [0x80 + (if sameTop then 0x20 else 0) + spans, LowByte(y0), HighByte(y0)]
  }

  function TokenBytes(t: Token): seq<Byte>
    requires ValidToken(t)
  {
    match t
    case Full(y0, y1, pts) => FullHeader(y0, y1, |pts| / 2) + WordBytes(pts)
    case Compact(y0, sameTop, pts) =>
      CompactHeader(y0, sameTop, |pts| / 2) +
      (if sameTop then [HighByte(pts[0])] + LowBytes(pts) else WordBytes(pts))
    case Small(height, adj) => [|adj| + 16 * (height - 1)] + adj
    case Repeat(count) => if count == 1 then [0x7F] else [0x7E, count - 2]
  }

  predicate ValidTokens(ts: seq<Token>) {
    forall i :: 0 <= i < |ts| ==> ValidToken(ts[i])
  }

  function Serialize(ts: seq<Token>): seq<Byte>
    requires ValidTokens(ts)
  {
    if ts == [] then [] else TokenBytes(ts[0]) + Serialize(ts[1..])
  }

  lemma {:induction false} SerializeAppend(ts: seq<Token>, us: seq<Token>)
    requires ValidTokens(ts) && ValidTokens(us)
    ensures ValidTokens(ts + us)
    ensures Serialize(ts + us) == Serialize(ts) + Serialize(us)
  {
    hide TokenBytes, ValidToken;
    if ts == [] {
      assert ts + us == us;
    } else {
      SerializeAppend(ts[1..], us);
      assert (ts + us)[1..] == ts[1..] + us;
    }
  }

  // ---- Reading one token ----

  function WordsAt(s: seq<Byte>, n: nat): (pts: seq<Int16>)
    requires |s| >= 2 * n
    ensures |pts| == n
  {
    seq(n, i requires 0 <= i < n => FromBytes(s[2 * i], s[2 * i + 1]))
  }

  function ParseToken(s: seq<Byte>): Option<(Token, nat)> {
    if |s| == 0 then None
    else if s[0] >= 0xC0 then ParseFull(s)
    else if s[0] >= 0x80 then ParseCompact(s)
    else if s[0] == 0x7F then Some((Repeat(1), 1))
    else if s[0] == 0x7E then (if |s| < 2 then None else Some((Repeat(s[1] as int + 2), 2)))
    else ParseSmall(s)
  }

  function ParseFull(s: seq<Byte>): Option<(Token, nat)>
    requires |s| > 0
  {
    if |s| < 6 then None else
      var n: nat := s[0] % 64 + 64 * (s[1] as int);
      if n == 0 || |s| < 6 + 4 * n then None
      else Some((Full(FromBytes(s[2], s[3]), FromBytes(s[4], s[5]), WordsAt(s[6..], 2 * n)), 6 + 4 * n))
  }

  function ParseCompact(s: seq<Byte>): Option<(Token, nat)>
    requires |s| > 0
  {
    var n: nat := s[0] % 32;
    if s[0] >= 0xA0 then
      if n == 0 || |s| < 4 + 2 * n then None
      else Some((Compact(FromBytes(s[1], s[2]), true,
                         seq(2 * n, i requires 0 <= i < 2 * n => FromBytes(s[4 + i], s[3]))), 4 + 2 * n))
    else
      if n == 0 || |s| < 3 + 4 * n then None
      else Some((Compact(FromBytes(s[1], s[2]), false, WordsAt(s[3..], 2 * n)), 3 + 4 * n))
  }

  function ParseSmall(s: seq<Byte>): Option<(Token, nat)>
    requires |s| > 0
  {
    var n: nat := s[0] % 16;
    if n == 0 || |s| < 1 + n then None else Some((Small(s[0] / 16 + 1, s[1..1 + n]), 1 + n))
  }

  lemma WordsOfBytes(pts: seq<Int16>, rest: seq<Byte>)
    ensures WordsAt(WordBytes(pts) + rest, |pts|) == pts
  {
    hide WordBytes, FromBytes, LowByte, HighByte;
    forall i | 0 <= i < |pts|
      ensures WordsAt(WordBytes(pts) + rest, |pts|)[i] == pts[i]
    {
      WordBytesAt(pts, i);
      assert (WordBytes(pts) + rest)[2 * i] == WordBytes(pts)[2 * i];
      assert (WordBytes(pts) + rest)[2 * i + 1] == WordBytes(pts)[2 * i + 1];
      BytesRoundTrip(pts[i]);
    }
  }

  lemma WordBytesAt(pts: seq<Int16>, i: nat)
    requires i < |pts|
    ensures WordBytes(pts)[2 * i] == LowByte(pts[i]) && WordBytes(pts)[2 * i + 1] == HighByte(pts[i])
  {
    hide LowByte, HighByte;
    assert 2 * i / 2 == i && (2 * i + 1) / 2 == i;
  }

  lemma ParseFullBytes(y0: Int16, y1: Int16, pts: seq<Int16>, rest: seq<Byte>)
    requires ValidToken(Full(y0, y1, pts))
    ensures var s := FullHeader(y0, y1, |pts| / 2) + WordBytes(pts) + rest;
            ParseFull(s) == Some((Full(y0, y1, pts), 6 + 2 * |pts|))
  {
    hide WordBytes, WordsAt, FromBytes, LowByte, HighByte;
    var n := |pts| / 2;
    var h := FullHeader(y0, y1, n);
    var s := h + WordBytes(pts) + rest;
    assert s[..6] == h;
    assert s[0] as int % 64 + 64 * (s[1] as int) == n;
    assert s[2] == h[2] && s[3] == h[3] && s[4] == h[4] && s[5] == h[5];
    BytesRoundTrip(y0);
    BytesRoundTrip(y1);
    assert s[6..] == WordBytes(pts) + rest;
    WordsOfBytes(pts, rest);
  }

  lemma ParseCompactBytes(y0: Int16, pts: seq<Int16>, rest: seq<Byte>)
    requires ValidToken(Compact(y0, false, pts))
    ensures var s := CompactHeader(y0, false, |pts| / 2) + WordBytes(pts) + rest;
            ParseCompact(s) == Some((Compact(y0, false, pts), 3 + 2 * |pts|))
  {
    hide WordBytes, WordsAt, FromBytes, LowByte, HighByte;
    var h := CompactHeader(y0, false, |pts| / 2);
    var s := h + WordBytes(pts) + rest;
    assert s[..3] == h;
    assert s[1] == h[1] && s[2] == h[2];
    BytesRoundTrip(y0);
    assert s[3..] == WordBytes(pts) + rest;
    WordsOfBytes(pts, rest);
  }

  lemma SameTopAt(pts: seq<Int16>, i: nat)
    requires SameTop(pts) && i < |pts|
    ensures HighByte(pts[i]) == HighByte(pts[0])
  {
  }

  lemma ParseSameTopBytes(y0: Int16, pts: seq<Int16>, rest: seq<Byte>)
    requires ValidToken(Compact(y0, true, pts))
    ensures var s := CompactHeader(y0, true, |pts| / 2) + [HighByte(pts[0])] + LowBytes(pts) + rest;
            ParseCompact(s) == Some((Compact(y0, true, pts), 4 + |pts|))
  {
    hide FromBytes, LowByte, HighByte, SameTop;
    var h := CompactHeader(y0, true, |pts| / 2);
    var s := h + [HighByte(pts[0])] + LowBytes(pts) + rest;
    assert s[..3] == h;
    assert s[1] == h[1] && s[2] == h[2] && s[3] == HighByte(pts[0]);
    BytesRoundTrip(y0);
    var read := ParseCompact(s).value.0.pts;
    forall i | 0 <= i < |pts|
      ensures read[i] == pts[i]
    {
      assert s[4 + i] == LowBytes(pts)[i];
      SameTopAt(pts, i);
      BytesRoundTrip(pts[i]);
    }
    assert read == pts;
  }

  /** Reading what was written gives the token back, whatever follows it. */
  lemma ParseTokenBytes(t: Token, rest: seq<Byte>)
    requires ValidToken(t)
    ensures ParseToken(TokenBytes(t) + rest) == Some((t, |TokenBytes(t)|))
  {
    hide ParseFull, ParseCompact, WordBytes, LowBytes, LowByte, HighByte, SameTop;
    match t
    case Full(y0, y1, pts) =>
      assert TokenBytes(t)[0] == FullHeader(y0, y1, |pts| / 2)[0];
      ParseFullBytes(y0, y1, pts, rest);
    case Compact(y0, sameTop, pts) =>
      assert TokenBytes(t)[0] == CompactHeader(y0, sameTop, |pts| / 2)[0];
      if sameTop {
        ParseSameTopBytes(y0, pts, rest);
        assert TokenBytes(t) + rest == CompactHeader(y0, true, |pts| / 2) + [HighByte(pts[0])] + LowBytes(pts) + rest;
      } else {
        ParseCompactBytes(y0, pts, rest);
      }
    case Small(height, adj) => ParseSmallBytes(height, adj, rest);
    case Repeat(count) => ParseRepeatBytes(count, rest);
  }

  lemma ParseSmallBytes(height: nat, adj: seq<Byte>, rest: seq<Byte>)
    requires ValidToken(Small(height, adj))
    ensures var t := Small(height, adj); ParseToken(TokenBytes(t) + rest) == Some((t, |TokenBytes(t)|))
  {
    hide ParseFull, ParseCompact;
    var t := Small(height, adj);
    assert (TokenBytes(t) + rest)[1..1 + |adj|] == adj;
  }

  lemma ParseRepeatBytes(count: nat, rest: seq<Byte>)
    requires ValidToken(Repeat(count))
    ensures var t := Repeat(count); ParseToken(TokenBytes(t) + rest) == Some((t, |TokenBytes(t)|))
  {
    hide ParseFull, ParseCompact;
  }

  lemma BytesOfWords(s: seq<Byte>, n: nat)
    requires |s| >= 2 * n
    ensures WordBytes(WordsAt(s, n)) == s[..2 * n]
  {
    hide FromBytes, LowByte, HighByte;
    forall i | 0 <= i < 2 * n
      ensures WordBytes(WordsAt(s, n))[i] == s[i]
    {
      BytesOfWord(s[i / 2 * 2], s[i / 2 * 2 + 1]);
    }
  }

  lemma HeaderCount(low: Byte, high: Byte)
    requires 0xC0 <= low
    ensures var n := low % 64 + 64 * (high as int);
            0 <= n <= MAX_SPANS && 0xC0 + n % 64 == low && n / 64 == high
  {
  }

  lemma ParsedFullBytes(s: seq<Byte>)
    requires |s| > 0 && 0xC0 <= s[0] && ParseFull(s).Some?
    ensures var (t, len) := ParseFull(s).value;
            t.Full? && ValidToken(t) && 0 < len <= |s| && TokenBytes(t) == s[..len]
  {
    hide WordBytes, WordsAt, FromBytes, LowByte, HighByte;
    var (t, len) := ParseFull(s).value;
    HeaderCount(s[0], s[1]);
    assert |t.pts| / 2 == s[0] % 64 + 64 * (s[1] as int);
    BytesOfWord(s[2], s[3]);
    BytesOfWord(s[4], s[5]);
    BytesOfWords(s[6..], |t.pts|);
    assert FullHeader(t.y0, t.y1, |t.pts| / 2) == s[..6];
    assert s[6..][..2 * |t.pts|] == s[6..len];
  }

  lemma ParsedCompactBytes(s: seq<Byte>)
    requires |s| > 0 && 0x80 <= s[0] < 0xA0 && ParseCompact(s).Some?
    ensures var (t, len) := ParseCompact(s).value;
            t.Compact? && ValidToken(t) && 0 < len <= |s| && TokenBytes(t) == s[..len]
  {
    hide WordBytes, WordsAt, FromBytes, LowByte, HighByte;
    var (t, len) := ParseCompact(s).value;
    assert |t.pts| / 2 == s[0] % 32 && 0x80 + s[0] % 32 == s[0];
    BytesOfWord(s[1], s[2]);
    BytesOfWords(s[3..], |t.pts|);
    assert CompactHeader(t.y0, false, |t.pts| / 2) == s[..3];
    assert s[3..][..2 * |t.pts|] == s[3..len];
  }

  lemma ParsedSameTopBytes(s: seq<Byte>)
    requires |s| > 0 && 0xA0 <= s[0] < 0xC0 && ParseCompact(s).Some?
    ensures var (t, len) := ParseCompact(s).value;
            t.Compact? && ValidToken(t) && 0 < len <= |s| && TokenBytes(t) == s[..len]
  {
    hide FromBytes, LowByte, HighByte;
    var (t, len) := ParseCompact(s).value;
    assert |t.pts| / 2 == s[0] % 32 && 0xA0 + s[0] % 32 == s[0];
    BytesOfWord(s[1], s[2]);
    forall i | 0 <= i < |t.pts|
      ensures HighByte(t.pts[i]) == s[3] && LowByte(t.pts[i]) == s[4 + i]
    {
      BytesOfWord(s[4 + i], s[3]);
    }
    assert CompactHeader(t.y0, true, |t.pts| / 2) == s[..3];
    assert LowBytes(t.pts) == s[4..len];
  }

  /** A token that was read is valid, and writing it gives the bytes it was read from. */
  lemma ParsedTokenBytes(s: seq<Byte>)
    requires ParseToken(s).Some?
    ensures var (t, len) := ParseToken(s).value;
            ValidToken(t) && 0 < len <= |s| && TokenBytes(t) == s[..len]
  {
    if s[0] >= 0xC0 {
      ParsedFullBytes(s);
    } else if s[0] >= 0xA0 {
      ParsedSameTopBytes(s);
    } else if s[0] >= 0x80 {
      ParsedCompactBytes(s);
    } else {
      var (t, len) := ParseToken(s).value;
      assert TokenBytes(t) == s[..len];
    }
  }

  // ---- Reading a whole region ----

  function TokenBands(t: Token): nat {
    if t.Repeat? then t.count else 1
  }

  lemma ValidTokenBands(t: Token)
    requires ValidToken(t)
    ensures TokenBands(t) >= 1
  {
  }

  /** Splits all of `s` into tokens that together hold n bands. */
  function Parse(s: seq<Byte>, n: nat): Option<seq<Token>>
    decreases n
  {
    if n == 0 then (if s == [] then Some([]) else None)
    else match ParseToken(s)
      case None => None
      case Some((t, len)) =>
        if len > |s| || TokenBands(t) == 0 || TokenBands(t) > n then None
        else match Parse(s[len..], n - TokenBands(t))
          case None => None
          case Some(ts) => Some([t] + ts)
  }

  function CountBands(ts: seq<Token>): nat {
    if ts == [] then 0 else TokenBands(ts[0]) + CountBands(ts[1..])
  }

  lemma {:induction false} CountBandsAppend(ts: seq<Token>, us: seq<Token>)
    ensures CountBands(ts + us) == CountBands(ts) + CountBands(us)
  {
    if ts == [] {
      assert ts + us == us;
    } else {
      CountBandsAppend(ts[1..], us);
      assert (ts + us)[1..] == ts[1..] + us;
    }
  }

  /** Tokens survive the trip through bytes. */
  lemma {:induction false} ParseSerialize(ts: seq<Token>)
    requires ValidTokens(ts)
    ensures Parse(Serialize(ts), CountBands(ts)) == Some(ts)
  {
    hide TokenBytes, ValidToken, ParseToken;
    if ts != [] {
      var s := Serialize(ts);
      ParseTokenBytes(ts[0], Serialize(ts[1..]));
      assert ValidToken(ts[0]) && |TokenBytes(ts[0])| <= |s| && 1 <= TokenBands(ts[0]) by {
        ValidTokenBands(ts[0]);
      }
      assert s[|TokenBytes(ts[0])|..] == Serialize(ts[1..]);
      ParseSerialize(ts[1..]);
      assert [ts[0]] + ts[1..] == ts;
    }
  }

  lemma {:induction false} SerializeParse(s: seq<Byte>, n: nat)
    requires Parse(s, n).Some?
    ensures ValidTokens(Parse(s, n).value)
    ensures Serialize(Parse(s, n).value) == s
    ensures CountBands(Parse(s, n).value) == n
    decreases n
  {
    hide TokenBytes, ValidToken, ParseToken;
    if n > 0 {
      ParsedTokenBytes(s);
      var (t, len) := ParseToken(s).value;
      SerializeParse(s[len..], n - TokenBands(t));
      var ts := Parse(s, n).value;
      assert ts[1..] == Parse(s[len..], n - TokenBands(t)).value;
    }
  }

  // ---- What the tokens mean ----

  /** One band as the decoder meets it: absolute, or relative to the band before. */
  datatype Unit = Absolute(band: Band) | Relative(height: nat, adj: seq<Byte>)

  function LastSmall(ts: seq<Token>): Option<Token>
    ensures LastSmall(ts).Some? ==> LastSmall(ts).value.Small? && LastSmall(ts).value in ts
  {
    if ts == [] then None
    else if Last(ts).Small? then Some(Last(ts))
    else LastSmall(Front(ts))
  }

  function TokenUnits(t: Token, small: Option<Token>): (us: seq<Unit>)
    requires small.Some? ==> small.value.Small?
  {
    match t
    case Full(y0, y1, pts) => [Absolute(Band(y0, y1, pts))]
    case Compact(y0, _, pts) => [Absolute(Band(y0, ToInt16(y0 + 1), pts))]
    case Small(height, adj) => [Relative(height, adj)]
    case Repeat(count) =>
      if small.None? then [] else seq(count, _ => Relative(small.value.height, small.value.adj))
  }

  function Units(ts: seq<Token>): seq<Unit> {
    if ts == [] then [] else Units(Front(ts)) + TokenUnits(Last(ts), LastSmall(Front(ts)))
  }

  /** Every repeat has a small band before it to repeat. */
  predicate TokensFit(ts: seq<Token>) {
    ts == [] || (TokensFit(Front(ts)) && (Last(ts).Repeat? ==> LastSmall(Front(ts)).Some?))
  }

  function Adjusted(p: int, adj: Byte, start: bool): Int16 {
    ToInt16(p + (if start then adj % 16 else adj / 16) - 8)
  }

  function SmallBand(prev: Band, height: nat, adj: seq<Byte>): Band
    requires |prev.pts| == 2 * |adj|
  {
    Band(prev.y1, ToInt16(prev.y1 + height),
         seq(|prev.pts|, i requires 0 <= i < |prev.pts| => Adjusted(prev.pts[i], adj[i / 2], i % 2 == 0)))
  }

  /** A relative band needs a band before it with the same number of spans. */
  predicate UnitFits(before: seq<Band>, u: Unit) {
    u.Relative? ==> before != [] && |Last(before).pts| == 2 * |u.adj|
  }

  function Place(before: seq<Band>, u: Unit): Band
    requires UnitFits(before, u)
  {
    match u
    case Absolute(b) => b
    case Relative(height, adj) => SmallBand(Last(before), height, adj)
  }

  function Bands(us: seq<Unit>): Option<seq<Band>> {
    if us == [] then Some([])
    else match Bands(Front(us))
      case None => None
      case Some(before) =>
        if UnitFits(before, Last(us)) then Some(before + [Place(before, Last(us))]) else None
  }

  /** The bands that `n` bands' worth of bytes stand for, None if they are malformed. */
  function Decode(s: seq<Byte>, n: nat): Option<seq<Band>> {
    match Parse(s, n)
    case None => None
    case Some(ts) => if TokensFit(ts) then Bands(Units(ts)) else None
  }

  /** Band i is placed by unit i after the i bands before it. */
  lemma {:induction false} BandAt(us: seq<Unit>, i: nat)
    requires Bands(us).Some? && i <= |us|
    ensures |Bands(us).value| == |us|
    ensures Bands(us[..i]) == Some(Bands(us).value[..i])
    ensures i < |us| ==>
        UnitFits(Bands(us).value[..i], us[i]) && Bands(us).value[i] == Place(Bands(us).value[..i], us[i])
  {
    if us == [] {
    } else if i == |us| {
      BandAt(Front(us), 0);
      assert us[..i] == us;
      assert Bands(us).value[..i] == Bands(us).value;
    } else {
      BandAt(Front(us), i);
      assert us[..i] == Front(us)[..i];
      if i == |us| - 1 {
        assert us[..i] == Front(us);
      } else {
        assert Bands(us).value[..i] == Bands(Front(us)).value[..i];
      }
    }
  }

  lemma {:induction false} UnitsCount(ts: seq<Token>)
    requires TokensFit(ts)
    ensures |Units(ts)| == CountBands(ts)
  {
    if ts != [] {
      UnitsCount(Front(ts));
      CountBandsAppend(Front(ts), [Last(ts)]);
      assert Front(ts) + [Last(ts)] == ts;
    }
  }

  /** The units of the first k tokens are a prefix, and token k supplies the next ones. */
  lemma {:induction false} UnitsPrefix(ts: seq<Token>, k: nat)
    requires k < |ts| && TokensFit(ts)
    ensures TokensFit(ts[..k]) && TokensFit(ts[..k + 1])
    ensures ts[k].Repeat? ==> LastSmall(ts[..k]).Some?
    ensures Units(ts[..k + 1]) == Units(ts[..k]) + TokenUnits(ts[k], LastSmall(ts[..k]))
    ensures Units(ts[..k + 1]) <= Units(ts)
    ensures LastSmall(ts[..k + 1]) == if ts[k].Small? then Some(ts[k]) else LastSmall(ts[..k])
  {
    assert Front(ts[..k + 1]) == ts[..k];
    assert Last(ts[..k + 1]) == ts[k];
    if k == |ts| - 1 {
      assert ts[..k + 1] == ts;
    } else {
      UnitsPrefix(Front(ts), k);
      assert Front(ts)[..k] == ts[..k] && Front(ts)[..k + 1] == ts[..k + 1];
    }
  }

  // ---- The format by example ----

  /** Words have their low byte first; a count of spans has its low six bits first, and eight more after them. */
  lemma FullExample()
    ensures TokenBytes(Full(0x102, 0x304, [5, 0x607])) == [0xC1, 0, 2, 1, 4, 3, 5, 0, 7, 6]
    ensures FullHeader(0, 1, 0x102) == [0xC2, 4, 0, 0, 1, 0]
  {
    assert FullHeader(0x102, 0x304, 1) == [0xC1, 0, 2, 1, 4, 3];
    assert WordBytes([5, 0x607]) == [5, 0, 7, 6];
    hide WordBytes, LowByte, HighByte;
  }

  /** One row: */
  lemma CompactExample()
    ensures TokenBytes(Compact(0x102, false, [5, 0x607])) == [0x81, 2, 1, 5, 0, 7, 6]
  {
    assert CompactHeader(0x102, false, 1) == [0x81, 2, 1];
    assert WordBytes([5, 0x607]) == [5, 0, 7, 6];
    hide WordBytes, LowByte, HighByte, CompactHeader;
  }

  /** ... and if its points have their high byte in common that is written once. */
  lemma SameTopExample()
    ensures SameTop([0x605, 0x607]) && TokenBytes(Compact(0x102, true, [0x605, 0x607])) == [0xA1, 2, 1, 6, 5, 7]
  {
    assert CompactHeader(0x102, true, 1) == [0xA1, 2, 1];
    assert HighByte(0x605) == 6 && HighByte(0x607) == 6;
    assert LowBytes([0x605, 0x607]) == [5, 7];
    hide LowBytes, LowByte, HighByte, CompactHeader;
  }

  /** Three rows, starting two columns to the right of the band above and ending one to the right; once more; and five
      times more. */
  lemma SmallExample()
    ensures TokenBytes(Small(3, [0x9A])) == [0x21, 0x9A]
    ensures SmallBand(Band(0, 10, [100, 200]), 3, [0x9A]) == Band(10, 13, [102, 201])
    ensures TokenBytes(Repeat(1)) == [0x7F] && TokenBytes(Repeat(5)) == [0x7E, 3]
  {
    assert SmallBand(Band(0, 10, [100, 200]), 3, [0x9A]).pts == [102, 201];
  }
}
