/** Combining two scanlines: one left-to-right pass over both rows of toggle points. */
module RegionSweep {
  import opened Words
  import opened RegionFormat
  import opened RegionRows

  datatype Mode = Intersect | Union | Xor | Difference | Unknown(code: int)

  /** CheckRegionCondition. */
  function Holds2(mode: Mode, a: bool, b: bool): bool {
    match mode
    case Intersect => a && b
    case Union => a || b
    case Xor => a != b
    case Difference => a && !b
    case Unknown(_) => false
  }

  /** Whether x is inside after the toggles at or before it, starting from `start`. */
  predicate Inside(p: seq<Int16>, start: bool, x: int) {
    if p == [] || x < p[0] then start else Inside(p[1..], !start, x)
  }

  lemma {:induction false} InsideRow(p: seq<Int16>, x: int)
    requires IsRow(p)
    ensures Inside(p, false, x) <==> InRow(p, x)
  {
    if p == [] {
    } else if x < p[0] {
      FirstPoint(p);
    } else if x < p[1] {
      assert InSpan(p, 0, x);
      assert p[1..][0] == p[1];
    } else {
      InTail(p, x);
      InsideRow(p[2..], x);
      assert p[1..][1..] == p[2..];
    }
  }

  function Toggle(mode: Mode, a: bool, b: bool, a': bool, b': bool, x: Int16): seq<Int16> {
    if Holds2(mode, a, b) != Holds2(mode, a', b') then [x] else []
  }

  /** Whether the next toggle comes from p, from q, or (being at the same x) from both. */
  predicate Takes(p: seq<Int16>, q: seq<Int16>) {
    p != [] && (q == [] || p[0] <= q[0])
  }

  function NextX(p: seq<Int16>, q: seq<Int16>): Int16
    requires p != [] || q != []
  {
    if Takes(p, q) then p[0] else q[0]
  }

  function Rest(p: seq<Int16>, taken: bool): seq<Int16>
    requires taken ==> p != []
  {
    if taken then p[1..] else p
  }

  /** The toggles of the combination of p and q, entered with the given state. */
  function Sweep(mode: Mode, p: seq<Int16>, q: seq<Int16>, a: bool, b: bool): seq<Int16>
    decreases |p| + |q|
  {
    if p == [] && q == [] then []
    else
      var a', b' := a != Takes(p, q), b != Takes(q, p);
      Toggle(mode, a, b, a', b', NextX(p, q)) + Sweep(mode, Rest(p, Takes(p, q)), Rest(q, Takes(q, p)), a', b')
  }

  /** Spans that end where they begin are dropped. */
  function Kept(toggles: seq<Int16>): seq<Int16> {
    if |toggles| < 2 then toggles
    else (if toggles[0] == toggles[1] then [] else toggles[..2]) + Kept(toggles[2..])
  }

  /** The scanline of the combination. */
  function CombinedRow(mode: Mode, p: seq<Int16>, q: seq<Int16>): seq<Int16> {
    Kept(Sweep(mode, p, q, false, false))
  }

  /** Each point at least `gap` after those before it. */
  predicate Spaced(p: seq<Int16>, gap: nat) {
    forall i, j :: 0 <= i < j < |p| ==> p[i] + gap <= p[j]
  }

  predicate After(p: seq<Int16>, x: int, gap: nat) {
    forall i :: 0 <= i < |p| ==> x + gap <= p[i]
  }

  lemma RestAfter(p: seq<Int16>, q: seq<Int16>, gap: nat)
    requires Spaced(p, gap) && Spaced(q, gap) && (p != [] || q != []) && gap <= 1
    ensures Spaced(Rest(p, Takes(p, q)), gap) && After(Rest(p, Takes(p, q)), NextX(p, q), gap)
    ensures Spaced(Rest(q, Takes(q, p)), gap) && After(Rest(q, Takes(q, p)), NextX(p, q), gap)
  {
  }

  lemma SpacedCons(x: Int16, p: seq<Int16>, gap: nat)
    requires Spaced(p, gap) && After(p, x, gap)
    ensures Spaced([x] + p, gap)
  {
  }

  /** One step of the sweep: the toggle at the next point, if any, before what the rest gives. */
  lemma SweepOnce(mode: Mode, p: seq<Int16>, q: seq<Int16>, a: bool, b: bool)
    requires p != [] || q != []
    ensures var (a', b') := (a != Takes(p, q), b != Takes(q, p));
            Sweep(mode, p, q, a, b)
            == Toggle(mode, a, b, a', b', NextX(p, q)) + Sweep(mode, Rest(p, Takes(p, q)), Rest(q, Takes(q, p)), a', b')
  {
  }

  lemma NextAfter(p: seq<Int16>, q: seq<Int16>, from: int, gap: nat)
    requires After(p, from, gap) && After(q, from, gap) && (p != [] || q != [])
    ensures from + gap <= NextX(p, q)
  {
  }

  lemma TogglePrefix(mode: Mode, a: bool, b: bool, a': bool, b': bool, x: Int16, out: seq<Int16>, from: int, gap: nat)
    requires Spaced(out, gap) && After(out, x, gap) && from + gap <= x
    ensures var more := Toggle(mode, a, b, a', b', x) + out; Spaced(more, gap) && After(more, from, gap)
  {
    hide Holds2;
    SpacedCons(x, out, gap);
    assert [] + out == out;
  }

  /** Sweeping keeps the toggles in order, as far apart as those swept, and never goes left of where it started. */
  lemma {:induction false} SweepSpaced(mode: Mode, p: seq<Int16>, q: seq<Int16>, a: bool, b: bool, from: int, gap: nat)
    requires Spaced(p, gap) && Spaced(q, gap) && After(p, from, gap) && After(q, from, gap) && gap <= 1
    ensures Spaced(Sweep(mode, p, q, a, b), gap) && After(Sweep(mode, p, q, a, b), from, gap)
    decreases |p| + |q|
  {
    if p != [] || q != [] {
      SweepOnce(mode, p, q, a, b);
      hide Sweep, Toggle, Spaced, After;
      var a', b' := a != Takes(p, q), b != Takes(q, p);
      var x, p', q' := NextX(p, q), Rest(p, Takes(p, q)), Rest(q, Takes(q, p));
      RestAfter(p, q, gap);
      NextAfter(p, q, from, gap);
      SweepSpaced(mode, p', q', a', b', x, gap);
      TogglePrefix(mode, a, b, a', b', x, Sweep(mode, p', q', a', b'), from, gap);
    }
  }

  /** A toggle put in front changes what is at and after it only. */
  lemma InsideToggle(out: seq<Int16>, x: Int16, before: bool, after: bool, y: int)
    requires After(out, x, 0)
    ensures Inside((if before != after then [x] else []) + out, before, y)
         == if y < x then before else Inside(out, after, y)
  {
    assert ([x] + out)[1..] == out;
    assert [] + out == out;
  }

  lemma InsideRest(p: seq<Int16>, q: seq<Int16>, a: bool, y: int)
    requires Spaced(p, 0) && Spaced(q, 0) && (p != [] || q != [])
    ensures y < NextX(p, q) ==> Inside(p, a, y) == a
    ensures y >= NextX(p, q) ==> Inside(p, a, y) == Inside(Rest(p, Takes(p, q)), a != Takes(p, q), y)
  {
  }

  /** At every point the sweep's toggles say what the operation says of the inputs' toggles. */
  lemma {:induction false} SweepInside(mode: Mode, p: seq<Int16>, q: seq<Int16>, a: bool, b: bool, y: int)
    requires Spaced(p, 0) && Spaced(q, 0)
    ensures Inside(Sweep(mode, p, q, a, b), Holds2(mode, a, b), y)
         == Holds2(mode, Inside(p, a, y), Inside(q, b, y))
    decreases |p| + |q|
  {
    hide Holds2;
    if p != [] || q != [] {
      var a', b' := a != Takes(p, q), b != Takes(q, p);
      var x, p', q' := NextX(p, q), Rest(p, Takes(p, q)), Rest(q, Takes(q, p));
      var out := Sweep(mode, p', q', a', b');
      RestAfter(p, q, 0);
      SweepSpaced(mode, p', q', a', b', x, 0);
      InsideToggle(out, x, Holds2(mode, a, b), Holds2(mode, a', b'), y);
      SweepInside(mode, p', q', a', b', y);
      InsideRest(p, q, a, y);
      InsideRest(q, p, b, y);
      assert Sweep(mode, p, q, a, b) == Toggle(mode, a, b, a', b', x) + out;
    }
  }

  function Odd(n: nat): bool {
    n % 2 == 1
  }

  /** The sweep ends outside: an even number of toggles when both rows have one. */
  lemma {:induction false} SweepParity(mode: Mode, p: seq<Int16>, q: seq<Int16>, a: bool, b: bool)
    ensures Odd(|Sweep(mode, p, q, a, b)|)
         == (Holds2(mode, a, b) != Holds2(mode, a != Odd(|p|), b != Odd(|q|)))
    decreases |p| + |q|
  {
    hide Holds2;
    if p != [] || q != [] {
      SweepOnce(mode, p, q, a, b);
      hide Sweep, Toggle, Odd, Rest;
      var a', b' := a != Takes(p, q), b != Takes(q, p);
      var p', q' := Rest(p, Takes(p, q)), Rest(q, Takes(q, p));
      SweepParity(mode, p', q', a', b');
      OddRest(p, Takes(p, q));
      OddRest(q, Takes(q, p));
      OddToggle(mode, a, b, a', b', NextX(p, q), Sweep(mode, p', q', a', b'));
    } else {
      assert !Odd(0);
    }
  }

  lemma OddRest(p: seq<Int16>, taken: bool)
    requires taken ==> p != []
    ensures Odd(|p|) == (Odd(|Rest(p, taken)|) != taken)
  {
  }

  lemma OddToggle(mode: Mode, a: bool, b: bool, a': bool, b': bool, x: Int16, out: seq<Int16>)
    ensures Odd(|Toggle(mode, a, b, a', b', x) + out|) == (Odd(|out|) != (Holds2(mode, a, b) != Holds2(mode, a', b')))
  {
    hide Holds2;
  }

  lemma {:induction false} SweepLength(mode: Mode, p: seq<Int16>, q: seq<Int16>, a: bool, b: bool)
    ensures |Sweep(mode, p, q, a, b)| <= |p| + |q|
    decreases |p| + |q|
  {
    if p != [] || q != [] {
      SweepOnce(mode, p, q, a, b);
      hide Sweep, Holds2;
      SweepLength(mode, Rest(p, Takes(p, q)), Rest(q, Takes(q, p)), a != Takes(p, q), b != Takes(q, p));
    }
  }

  lemma KeptOnce(toggles: seq<Int16>)
    requires |toggles| >= 2
    ensures Kept(toggles) == (if toggles[0] == toggles[1] then [] else toggles[..2]) + Kept(toggles[2..])
  {
  }

  lemma {:induction false} KeptRow(toggles: seq<Int16>)
    requires IsRow(toggles)
    ensures IsRow(Kept(toggles)) && |Kept(toggles)| <= |toggles|
    ensures Kept(toggles) != [] ==> toggles != [] && toggles[0] <= Kept(toggles)[0]
  {
    if toggles != [] {
      RowTail(toggles);
      KeptRow(toggles[2..]);
      KeptOnce(toggles);
      hide Kept, IsRow;
      if toggles[0] == toggles[1] {
        assert [] + Kept(toggles[2..]) == Kept(toggles[2..]);
      } else {
        PairedRow(toggles[0], toggles[1], Kept(toggles[2..]));
        assert toggles[..2] == [toggles[0], toggles[1]];
      }
    }
  }

  lemma RowTail(p: seq<Int16>)
    requires IsRow(p) && p != []
    ensures |p| >= 2 && IsRow(p[2..]) && p[0] <= p[1] && (p[2..] != [] ==> p[1] <= p[2..][0])
  {
  }

  lemma PairedRow(a: Int16, b: Int16, rest: seq<Int16>)
    requires a <= b && (rest != [] ==> b <= rest[0]) && IsRow(rest)
    ensures IsRow([a, b] + rest) && ([a, b] + rest)[2..] == rest
  {
  }

  /** Dropping them changes no points, and nothing where there are none. */
  lemma {:induction false} KeptPoints(toggles: seq<Int16>, x: int)
    requires IsRow(toggles)
    ensures InRow(Kept(toggles), x) <==> InRow(toggles, x)
  {
    if toggles != [] {
      InTail(toggles, x);
      KeptRow(toggles);
      KeptPoints(toggles[2..], x);
      KeptOnce(toggles);
      hide Kept, InRow, IsRow;
      if toggles[0] == toggles[1] {
        assert [] + Kept(toggles[2..]) == Kept(toggles[2..]);
      } else {
        InTail(Kept(toggles), x);
        assert Kept(toggles)[2..] == Kept(toggles[2..]);
      }
    }
  }

  lemma {:induction false} KeptAll(toggles: seq<Int16>)
    requires Increasing(toggles)
    ensures Kept(toggles) == toggles
  {
    if |toggles| >= 2 {
      KeptAll(toggles[2..]);
    }
  }

  lemma CombinedRowStrict(mode: Mode, p: seq<Int16>, q: seq<Int16>)
    requires IsStrict(p) && IsStrict(q)
    ensures IsStrict(CombinedRow(mode, p, q))
  {
    SweepSpaced(mode, p, q, false, false, -0x8001, 1);
    SweepParity(mode, p, q, false, false);
    KeptAll(Sweep(mode, p, q, false, false));
  }

  /** A combined scanline is a scanline, holding exactly the points the operation asks for. */
  lemma CombinedRowPoints(mode: Mode, p: seq<Int16>, q: seq<Int16>)
    requires IsRow(p) && IsRow(q)
    ensures IsRow(CombinedRow(mode, p, q)) && |CombinedRow(mode, p, q)| <= |p| + |q|
    ensures forall x :: InRow(CombinedRow(mode, p, q), x) <==> Holds2(mode, InRow(p, x), InRow(q, x))
  {
    var out := Sweep(mode, p, q, false, false);
    SweepSpaced(mode, p, q, false, false, -0x8000, 0);
    SweepParity(mode, p, q, false, false);
    SweepLength(mode, p, q, false, false);
    KeptRow(out);
    hide Kept, Sweep, Spaced;
    forall x
      ensures InRow(CombinedRow(mode, p, q), x) <==> Holds2(mode, InRow(p, x), InRow(q, x))
    {
      SweepInside(mode, p, q, false, false, x);
      InsideRow(p, x);
      InsideRow(q, x);
      InsideRow(out, x);
      KeptPoints(out, x);
    }
  }

  /** How dropping goes on as toggles come in: a span that opens stays until it is closed. */
  lemma {:induction false} KeptSnoc(toggles: seq<Int16>, x: Int16)
    ensures !Odd(|toggles|) ==> Kept(toggles + [x]) == Kept(toggles) + [x]
    ensures Odd(|toggles|) ==> Kept(toggles) != [] && Last(Kept(toggles)) == Last(toggles)
    ensures Odd(|toggles|) ==>
              Kept(toggles + [x]) == if Last(toggles) == x then Front(Kept(toggles)) else Kept(toggles) + [x]
  {
    if |toggles| < 2 {
      KeptShort(toggles, x);
    } else {
      KeptSnoc(toggles[2..], x);
      KeptOnce(toggles);
      KeptOnce(toggles + [x]);
      SnocTail(toggles, x);
      hide Kept;
      var front := if toggles[0] == toggles[1] then [] else toggles[..2];
      LastOf(front, Kept(toggles[2..]));
      assert front + (Kept(toggles[2..]) + [x]) == front + Kept(toggles[2..]) + [x];
    }
  }

  lemma KeptShort(toggles: seq<Int16>, x: Int16)
    requires |toggles| < 2
    ensures Kept(toggles) == toggles
    ensures Kept(toggles + [x]) == if |toggles| == 1 && toggles[0] == x then [] else toggles + [x]
  {
    if |toggles| == 1 {
      assert (toggles + [x])[..2] == toggles + [x] && (toggles + [x])[2..] == [];
    }
  }

  lemma SnocTail(p: seq<Int16>, x: Int16)
    requires |p| >= 2
    ensures (p + [x])[2..] == p[2..] + [x] && (p + [x])[..2] == p[..2] && (p + [x])[0] == p[0] && (p + [x])[1] == p[1]
    ensures p[2..] != [] ==> Last(p[2..]) == Last(p)
    ensures Odd(|p|) == Odd(|p[2..]|) && (Odd(|p|) ==> p[2..] != [])
  {
  }

  lemma LastOf(front: seq<Int16>, rest: seq<Int16>)
    ensures rest != [] ==> Last(front + rest) == Last(rest) && Front(front + rest) == front + Front(rest)
  {
  }

  /** What is left of the sweep from point i of p and point j of q on. */
  function SweepFrom(mode: Mode, p: seq<Int16>, q: seq<Int16>, i: nat, j: nat, a: bool, b: bool): seq<Int16>
    requires i <= |p| && j <= |q|
  {
    Sweep(mode, p[i..], q[j..], a, b)
  }

  predicate TakesAt(p: seq<Int16>, q: seq<Int16>, i: nat, j: nat) {
    i < |p| && (j >= |q| || p[i] <= q[j])
  }

  lemma SweepStep(mode: Mode, p: seq<Int16>, q: seq<Int16>, i: nat, j: nat, a: bool, b: bool) returns (rest: seq<Int16>)
    requires i <= |p| && j <= |q| && (i < |p| || j < |q|)
    ensures var tp, tq := TakesAt(p, q, i, j), TakesAt(q, p, j, i);
            && rest == SweepFrom(mode, p, q, if tp then i + 1 else i, if tq then j + 1 else j, a != tp, b != tq)
            && SweepFrom(mode, p, q, i, j, a, b)
               == (if Holds2(mode, a, b) != Holds2(mode, a != tp, b != tq) then [if tp then p[i] else q[j]]
                   else []) + rest
  {
    if i < |p| { assert p[i..][1..] == p[i + 1..]; }
    if j < |q| { assert q[j..][1..] == q[j + 1..]; }
    var tp, tq := Takes(p[i..], q[j..]), Takes(q[j..], p[i..]);
    SweepOnce(mode, p[i..], q[j..], a, b);
    hide Sweep;
    rest := Sweep(mode, Rest(p[i..], tp), Rest(q[j..], tq), a != tp, b != tq);
  }

  /** Opens or closes an output span at curX; a span closed where it was opened is dropped. */
  method EmitToggle(outSpans: seq<Int16>, inSpan: bool, shouldBeActive: bool, curX: Int16)
    returns (outSpans': seq<Int16>, inSpan': bool)
    requires inSpan ==> outSpans != []
    ensures inSpan' == shouldBeActive
    ensures outSpans' == if inSpan && !shouldBeActive && Last(outSpans) == curX then Front(outSpans)
                         else outSpans + (if shouldBeActive != inSpan then [curX] else [])
  {
    outSpans', inSpan' := outSpans, inSpan;
    if shouldBeActive && !inSpan {
      outSpans' := outSpans + [curX];
      inSpan' := true;
    } else if !shouldBeActive && inSpan {
      if outSpans[|outSpans| - 1] == curX {
        outSpans' := outSpans[..|outSpans| - 1];
      } else {
        outSpans' := outSpans + [curX];
      }
      inSpan' := false;
    }
  }

  /** Takes the leftmost of the next two toggles, or both when they are at the same x. */
  method TakePoint(aXPoints: seq<Int16>, bXPoints: seq<Int16>, aIdx: nat, bIdx: nat, activeA: bool, activeB: bool)
    returns (aIdx': nat, bIdx': nat, activeA': bool, activeB': bool, curX: Int16)
    requires aIdx <= |aXPoints| && bIdx <= |bXPoints| && (aIdx < |aXPoints| || bIdx < |bXPoints|)
    ensures aIdx' == if TakesAt(aXPoints, bXPoints, aIdx, bIdx) then aIdx + 1 else aIdx
    ensures bIdx' == if TakesAt(bXPoints, aXPoints, bIdx, aIdx) then bIdx + 1 else bIdx
    ensures aIdx' <= |aXPoints| && bIdx' <= |bXPoints| && aIdx + bIdx < aIdx' + bIdx'
    ensures activeA' == (activeA != TakesAt(aXPoints, bXPoints, aIdx, bIdx))
    ensures activeB' == (activeB != TakesAt(bXPoints, aXPoints, bIdx, aIdx))
    ensures curX == if TakesAt(aXPoints, bXPoints, aIdx, bIdx) then aXPoints[aIdx] else bXPoints[bIdx]
  {
    aIdx', bIdx', activeA', activeB' := aIdx, bIdx, activeA, activeB;
    if aIdx < |aXPoints| && (bIdx >= |bXPoints| || aXPoints[aIdx] < bXPoints[bIdx]) {
      curX := aXPoints[aIdx];
      aIdx', activeA' := aIdx + 1, !activeA;
    } else if bIdx < |bXPoints| && (aIdx >= |aXPoints| || bXPoints[bIdx] < aXPoints[aIdx]) {
      curX := bXPoints[bIdx];
      bIdx', activeB' := bIdx + 1, !activeB;
    } else {
      curX := aXPoints[aIdx];
      aIdx', activeA' := aIdx + 1, !activeA;
      curX := bXPoints[bIdx];
      bIdx', activeB' := bIdx + 1, !activeB;
    }
  }

  /** The loop of CdGetRegionCombinationEx that merges the toggles of one slice. */
  method CombineSpans(mode: Mode, aXPoints: seq<Int16>, bXPoints: seq<Int16>) returns (outSpans: seq<Int16>)
    requires IsRow(aXPoints) && IsRow(bXPoints)
    ensures outSpans == CombinedRow(mode, aXPoints, bXPoints) && IsRow(outSpans)
  {
    assert !Holds2(mode, false, false);
    CombinedRowPoints(mode, aXPoints, bXPoints);
    ghost var whole := Sweep(mode, aXPoints, bXPoints, false, false);
    var aIdx, bIdx := 0, 0;
    var activeA, activeB, inSpan := false, false, false;
    outSpans := [];
    ghost var toggles: seq<Int16>, sweep := [], whole;
    assert aXPoints[0..] == aXPoints && bXPoints[0..] == bXPoints;
    assert Kept([]) == [] && !Odd(0) && [] + whole == whole;
    hide Holds2, Sweep, SweepFrom, IsRow, Kept, Last, Front, TakesAt, Odd;
    while aIdx < |aXPoints| || bIdx < |bXPoints|
      invariant 0 <= aIdx <= |aXPoints| && 0 <= bIdx <= |bXPoints|
      invariant inSpan == Holds2(mode, activeA, activeB) == Odd(|toggles|) && outSpans == Kept(toggles)
      invariant sweep == SweepFrom(mode, aXPoints, bXPoints, aIdx, bIdx, activeA, activeB)
      invariant toggles + sweep == whole
      decreases |aXPoints| - aIdx + |bXPoints| - bIdx
    {
      ghost var rest := SweepStep(mode, aXPoints, bXPoints, aIdx, bIdx, activeA, activeB);
      var curX;
      aIdx, bIdx, activeA, activeB, curX := TakePoint(aXPoints, bXPoints, aIdx, bIdx, activeA, activeB);
      var shouldBeActive := Holds2(mode, activeA, activeB);
      ghost var emitted := if shouldBeActive != inSpan then [curX] else [];
      assert sweep == emitted + rest;
      Regrouped(toggles, emitted, rest);
      EmittedKept(toggles, inSpan, shouldBeActive, curX);
      outSpans, inSpan := EmitToggle(outSpans, inSpan, shouldBeActive, curX);
      toggles, sweep := toggles + emitted, rest;
    }
    SweepEnd(mode, aXPoints, bXPoints, activeA, activeB);
    assert toggles + [] == toggles;
  }

  lemma Regrouped(a: seq<Int16>, b: seq<Int16>, c: seq<Int16>)
    ensures a + (b + c) == a + b + c && (b == [] ==> a + b == a)
  {
  }

  /** What EmitToggle does to the toggles kept. */
  lemma EmittedKept(toggles: seq<Int16>, inSpan: bool, active: bool, x: Int16)
    requires inSpan == Odd(|toggles|)
    ensures inSpan ==> Kept(toggles) != []
    ensures var more := toggles + (if active != inSpan then [x] else []);
            && active == Odd(|more|)
            && Kept(more) == if inSpan && !active && Last(Kept(toggles)) == x then Front(Kept(toggles))
                             else Kept(toggles) + (if active != inSpan then [x] else [])
  {
    KeptSnoc(toggles, x);
    hide Kept, Last, Front;
    assert toggles + [] == toggles && Kept(toggles) + [] == Kept(toggles);
  }

  lemma SweepEnd(mode: Mode, p: seq<Int16>, q: seq<Int16>, a: bool, b: bool)
    ensures SweepFrom(mode, p, q, |p|, |q|, a, b) == []
  {
  }
}
