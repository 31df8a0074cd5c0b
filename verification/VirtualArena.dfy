/** The arena virtual addresses are taken from: a list of free ranges in order of address. */
module VirtualArena {

  const PAGE := 4096
  const WORD := 0x1_0000_0000

  datatype Range = Range(start: nat, pages: nat)

  function End(r: Range): nat {
    r.start + r.pages * PAGE
  }

  predicate Inside(r: Range, x: int) {
    r.start <= x < End(r)
  }

  /** The address lies in one of the ranges. */
  ghost predicate Holds(ranges: seq<Range>, x: int) {
    exists i :: 0 <= i < |ranges| && Inside(ranges[i], x)
  }

  predicate NoneEmpty(ranges: seq<Range>) {
    forall i :: 0 <= i < |ranges| ==> ranges[i].pages > 0
  }

  /** All of the one lie below all of the other, and do not touch them. */
  predicate Below(a: seq<Range>, b: seq<Range>) {
    forall i, j :: 0 <= i < |a| && 0 <= j < |b| ==> End(a[i]) < b[j].start
  }

  /** None is empty, and each ends short of where the next starts. */
  predicate Tidy(ranges: seq<Range>) {
    NoneEmpty(ranges) && forall i, j :: 0 <= i < j < |ranges| ==> End(ranges[i]) < ranges[j].start
  }

  lemma TidyJoin(a: seq<Range>, b: seq<Range>)
    ensures Tidy(a + b) <==> Tidy(a) && Tidy(b) && Below(a, b)
  {
    hide End;
    var c := a + b;
    assert forall i :: 0 <= i < |a| ==> c[i] == a[i];
    assert forall j :: 0 <= j < |b| ==> c[|a| + j] == b[j];
    assert forall i :: |a| <= i < |c| ==> c[i] == b[i - |a|];
  }

  lemma HoldsJoin(a: seq<Range>, b: seq<Range>, x: int)
    ensures Holds(a + b, x) <==> Holds(a, x) || Holds(b, x)
  {
    hide Inside;
    var c := a + b;
    assert forall i :: 0 <= i < |a| ==> c[i] == a[i];
    if Holds(b, x) {
      var j :| 0 <= j < |b| && Inside(b[j], x);
      assert Inside(c[|a| + j], x);
    }
  }

  lemma HoldsOne(r: Range, x: int)
    ensures Holds([r], x) <==> Inside(r, x)
  {
    if Inside(r, x) {
      assert Inside([r][0], x);
    }
  }

  /** A list in three parts, the middle one a single range. */
  lemma Parts(a: seq<Range>, r: Range, b: seq<Range>, x: int)
    ensures Tidy(a + [r] + b) <==>
            Tidy(a) && Tidy(b) && r.pages > 0 && Below(a, [r]) && Below([r], b) && Below(a, b)
    ensures Holds(a + [r] + b, x) <==> Holds(a, x) || Inside(r, x) || Holds(b, x)
  {
    hide End, Inside, Holds;
    TidyJoin(a + [r], b);
    TidyJoin(a, [r]);
    HoldsJoin(a + [r], b, x);
    HoldsJoin(a, [r], x);
    HoldsOne(r, x);
    var ar := a + [r];
    assert ar[|a|] == r && forall i :: 0 <= i < |a| ==> ar[i] == a[i];
  }

  /** How many pages a request is taken for; the sum is one of 32 bits. */
  function PagesFor(bytes: nat): nat {
    (bytes + PAGE - 1) % WORD / PAGE
  }

  /** They are enough exactly if the sum does not wrap; a request of all of memory is taken for none. */
  lemma PagesCover(bytes: nat)
    requires bytes < WORD
    ensures PagesFor(bytes) * PAGE >= bytes <==> bytes <= WORD - PAGE
    ensures PagesFor(WORD - 1) == 0
  {
  }

  // ---- Taking ----

  /** The first range that is long enough; one past the last if none is. */
  function FirstFit(ranges: seq<Range>, pages: nat): (k: nat)
    ensures k <= |ranges| && (k < |ranges| ==> ranges[k].pages >= pages)
    ensures forall i :: 0 <= i < k ==> ranges[i].pages < pages
  {
    if ranges == [] || ranges[0].pages >= pages then 0 else 1 + FirstFit(ranges[1..], pages)
  }

  /** The list once the k-th range has been cut short from its start. */
  function Taken(ranges: seq<Range>, k: nat, pages: nat): seq<Range>
    requires k < |ranges| && ranges[k].pages >= pages
  {
    if ranges[k].pages == pages then ranges[..k] + ranges[k + 1..]
    else ranges[k := Range(ranges[k].start + pages * PAGE, ranges[k].pages - pages)]
  }

  /** Exactly the addresses handed out are free no more. */
  lemma TakenExact(ranges: seq<Range>, k: nat, pages: nat, x: int)
    requires Tidy(ranges) && k < |ranges| && ranges[k].pages >= pages > 0
    ensures Tidy(Taken(ranges, k, pages))
    ensures var r := Range(ranges[k].start, pages);
            && (Inside(r, x) ==> Holds(ranges, x))
            && (Holds(Taken(ranges, k, pages), x) <==> Holds(ranges, x) && !Inside(r, x))
  {
    var a, c, b := ranges[..k], ranges[k], ranges[k + 1..];
    var rest := Range(c.start + pages * PAGE, c.pages - pages);
    assert ranges == a + [c] + b;
    Parts(a, c, b, x);
    CutParts(a, c, rest, b, x);
    if c.pages == pages {
      TidyJoin(a, b);
      HoldsJoin(a, b, x);
    } else {
      Parts(a, rest, b, x);
      assert Taken(ranges, k, pages) == a + [rest] + b;
    }
  }

  lemma CutParts(a: seq<Range>, c: Range, rest: Range, b: seq<Range>, x: int)
    requires Below(a, [c]) && Below([c], b) && End(rest) == End(c) && c.start <= rest.start && c.pages > 0
    ensures Below(a, [rest]) && Below([rest], b)
    ensures Inside(c, x) ==> !Holds(a, x) && !Holds(b, x)
  {
    assert [c][0] == c;
    hide End;
  }

  lemma NextNotFree(ranges: seq<Range>, k: nat)
    requires Tidy(ranges) && k < |ranges|
    ensures !Holds(ranges, End(ranges[k]))
  {
  }

  /** Pages of free addresses in a row lie in one range: nothing free touches it. */
  lemma RunInOne(ranges: seq<Range>, start: nat, pages: nat) returns (k: nat)
    requires Tidy(ranges) && pages > 0 && FreeRun(ranges, start, pages)
    ensures k < |ranges| && ranges[k].start <= start && ranges[k].pages >= pages
  {
    assert Inside(Range(start, pages), start);
    assert Holds(ranges, start);
    k :| 0 <= k < |ranges| && Inside(ranges[k], start);
    NextNotFree(ranges, k);
  }

  /** A run of free addresses of so many pages. */
  ghost predicate FreeRun(ranges: seq<Range>, start: nat, pages: nat) {
    forall x :: Inside(Range(start, pages), x) ==> Holds(ranges, x)
  }

  /** The search fails exactly when no run of free addresses is as long as asked. */
  lemma FirstFitFails(ranges: seq<Range>, pages: nat)
    requires Tidy(ranges) && pages > 0
    ensures FirstFit(ranges, pages) == |ranges| <==> forall start: nat :: !FreeRun(ranges, start, pages)
  {
    var k := FirstFit(ranges, pages);
    if k < |ranges| {
      forall x | Inside(Range(ranges[k].start, pages), x)
        ensures Holds(ranges, x)
      {
        assert Inside(ranges[k], x);
      }
      assert FreeRun(ranges, ranges[k].start, pages);
    } else {
      forall start: nat
        ensures !FreeRun(ranges, start, pages)
      {
        if FreeRun(ranges, start, pages) {
          var i := RunInOne(ranges, start, pages);
        }
      }
    }
  }

  // ---- Giving back ----

  /** The first range that does not start below an address. */
  function NotBelow(ranges: seq<Range>, start: nat): (k: nat)
    ensures k <= |ranges| && (k < |ranges| ==> ranges[k].start >= start)
    ensures forall i :: 0 <= i < k ==> ranges[i].start < start
  {
    if ranges == [] || ranges[0].start >= start then 0 else 1 + NotBelow(ranges[1..], start)
  }

  predicate LeftOf(ranges: seq<Range>, r: Range, k: nat)
    requires k <= |ranges|
  {
    k > 0 && End(ranges[k - 1]) == r.start
  }

  predicate RightOf(ranges: seq<Range>, r: Range, k: nat)
    requires k <= |ranges|
  {
    k < |ranges| && End(r) == ranges[k].start
  }

  /** The range given back with those it touches. */
  function Joined(ranges: seq<Range>, r: Range, k: nat): Range
    requires k <= |ranges|
  {
    Range(if LeftOf(ranges, r, k) then ranges[k - 1].start else r.start,
          r.pages + (if LeftOf(ranges, r, k) then ranges[k - 1].pages else 0)
          + (if RightOf(ranges, r, k) then ranges[k].pages else 0))
  }

  function Lower(ranges: seq<Range>, r: Range, k: nat): seq<Range>
    requires k <= |ranges|
  {
    if LeftOf(ranges, r, k) then ranges[..k - 1] else ranges[..k]
  }

  function Upper(ranges: seq<Range>, r: Range, k: nat): seq<Range>
    requires k <= |ranges|
  {
    if RightOf(ranges, r, k) then ranges[k + 1..] else ranges[k..]
  }

  /** The list with a range put in its place, as one with those it touches. */
  function Given(ranges: seq<Range>, r: Range): seq<Range> {
    var k := NotBelow(ranges, r.start);
    Lower(ranges, r, k) + [Joined(ranges, r, k)] + Upper(ranges, r, k)
  }

  predicate Touches(ranges: seq<Range>, start: nat) {
    exists i :: 0 <= i < |ranges| && (End(ranges[i]) == start || ranges[i].start == start)
  }

  /** Exactly the addresses given back are free in addition, and nothing free touches. */
  lemma GivenExact(ranges: seq<Range>, r: Range, x: int)
    requires Tidy(ranges) && r.pages > 0 && forall y :: Inside(r, y) ==> !Holds(ranges, y)
    ensures Tidy(Given(ranges, r))
    ensures Holds(Given(ranges, r), x) <==> Holds(ranges, x) || Inside(r, x)
  {
    var k := NotBelow(ranges, r.start);
    Apart(ranges, r, k);
    JoinedBelow(ranges, r, k);
    hide *;
    Parts(Lower(ranges, r, k), Joined(ranges, r, k), Upper(ranges, r, k), x);
    GivenHolds(ranges, r, k, x);
    GivenIs(ranges, r);
  }

  lemma GivenIs(ranges: seq<Range>, r: Range)
    ensures var k := NotBelow(ranges, r.start);
            Given(ranges, r) == Lower(ranges, r, k) + [Joined(ranges, r, k)] + Upper(ranges, r, k)
  {
  }

  /** The same by cases, as the code has it. */
  lemma GivenCases(ranges: seq<Range>, r: Range, k: nat)
    requires k == NotBelow(ranges, r.start)
    ensures LeftOf(ranges, r, k) && RightOf(ranges, r, k) ==>
              Given(ranges, r) == ranges[..k - 1] + [Joined(ranges, r, k)] + ranges[k + 1..]
    ensures LeftOf(ranges, r, k) && !RightOf(ranges, r, k) ==> Given(ranges, r) == ranges[k - 1 := Joined(ranges, r, k)]
    ensures !LeftOf(ranges, r, k) && RightOf(ranges, r, k) ==> Given(ranges, r) == ranges[k := Joined(ranges, r, k)]
    ensures !LeftOf(ranges, r, k) && !RightOf(ranges, r, k) ==>
              Given(ranges, r) == ranges[..k] + [Joined(ranges, r, k)] + ranges[k..]
  {
    hide Joined, End, NotBelow;
    if LeftOf(ranges, r, k) && !RightOf(ranges, r, k) {
      Replaced(ranges, k - 1, Joined(ranges, r, k));
    } else if RightOf(ranges, r, k) && !LeftOf(ranges, r, k) {
      Replaced(ranges, k, Joined(ranges, r, k));
    }
  }

  lemma Replaced(ranges: seq<Range>, k: nat, m: Range)
    requires k < |ranges|
    ensures ranges[k := m] == ranges[..k] + [m] + ranges[k + 1..]
  {
  }

  lemma JoinedEnd(ranges: seq<Range>, r: Range, k: nat)
    requires k <= |ranges|
    ensures var m := Joined(ranges, r, k);
            && m.start == (if LeftOf(ranges, r, k) then ranges[k - 1].start else r.start)
            && End(m) == (if RightOf(ranges, r, k) then End(ranges[k]) else End(r))
  {
  }

  lemma JoinedBelow(ranges: seq<Range>, r: Range, k: nat)
    requires Tidy(ranges) && k <= |ranges| && r.pages > 0
    requires forall i :: 0 <= i < k ==> End(ranges[i]) <= r.start && (i < k - 1 ==> End(ranges[i]) < r.start)
    requires forall i :: k <= i < |ranges| ==> End(r) <= ranges[i].start && (i > k ==> End(r) < ranges[i].start)
    ensures var a, m, b := Lower(ranges, r, k), Joined(ranges, r, k), Upper(ranges, r, k);
            && m.pages > 0 && Tidy(a) && Tidy(b) && Below(a, [m]) && Below([m], b) && Below(a, b)
  {
    JoinedSome(ranges, r, k);
    LowerUpper(ranges, r, k);
    LowerBelow(ranges, r, k);
    UpperBelow(ranges, r, k);
    hide *;
  }

  lemma LowerBelow(ranges: seq<Range>, r: Range, k: nat)
    requires Tidy(ranges) && k <= |ranges|
    requires forall i :: 0 <= i < k ==> End(ranges[i]) <= r.start && (i < k - 1 ==> End(ranges[i]) < r.start)
    ensures Below(Lower(ranges, r, k), [Joined(ranges, r, k)])
  {
    JoinedEnd(ranges, r, k);
    hide End, Joined, Tidy;
    var a := Lower(ranges, r, k);
    forall i | 0 <= i < |a|
      ensures a[i] == ranges[i] && End(a[i]) < Joined(ranges, r, k).start
    {
      if i < k - 1 { InOrder(ranges, i, k - 1); }
    }
  }

  lemma UpperBelow(ranges: seq<Range>, r: Range, k: nat)
    requires Tidy(ranges) && k <= |ranges|
    requires forall i :: k <= i < |ranges| ==> End(r) <= ranges[i].start && (i > k ==> End(r) < ranges[i].start)
    ensures Below([Joined(ranges, r, k)], Upper(ranges, r, k))
  {
    JoinedEnd(ranges, r, k);
    hide End, Joined, Tidy;
    var b, from := Upper(ranges, r, k), if RightOf(ranges, r, k) then k + 1 else k;
    forall i | 0 <= i < |b|
      ensures b[i] == ranges[from + i] && End(Joined(ranges, r, k)) < b[i].start
    {
      if from + i > k { InOrder(ranges, k, from + i); }
    }
  }

  lemma LowerUpper(ranges: seq<Range>, r: Range, k: nat)
    requires Tidy(ranges) && k <= |ranges|
    ensures Tidy(Lower(ranges, r, k)) && Tidy(Upper(ranges, r, k)) && Below(Lower(ranges, r, k), Upper(ranges, r, k))
  {
    hide End;
  }

  lemma JoinedSome(ranges: seq<Range>, r: Range, k: nat)
    requires k <= |ranges| && r.pages > 0
    ensures Joined(ranges, r, k).pages > 0
  {
  }

  lemma GivenHolds(ranges: seq<Range>, r: Range, k: nat, x: int)
    requires k <= |ranges|
    ensures Holds(Lower(ranges, r, k), x) || Inside(Joined(ranges, r, k), x) || Holds(Upper(ranges, r, k), x) <==>
            Holds(ranges, x) || Inside(r, x)
  {
    var a, b := Lower(ranges, r, k), Upper(ranges, r, k);
    assert ranges == ranges[..k] + ranges[k..];
    HoldsJoin(ranges[..k], ranges[k..], x);
    if LeftOf(ranges, r, k) {
      assert ranges[..k] == a + [ranges[k - 1]];
      HoldsJoin(a, [ranges[k - 1]], x);
      HoldsOne(ranges[k - 1], x);
    }
    if RightOf(ranges, r, k) {
      assert ranges[k..] == [ranges[k]] + b;
      HoldsJoin([ranges[k]], b, x);
      HoldsOne(ranges[k], x);
    }
  }

  /** Ranges apart from one given back lie below or above it. */
  lemma Apart(ranges: seq<Range>, r: Range, k: nat)
    requires Tidy(ranges) && r.pages > 0 && k == NotBelow(ranges, r.start)
    requires forall y :: Inside(r, y) ==> !Holds(ranges, y)
    ensures forall i :: 0 <= i < k ==> End(ranges[i]) <= r.start && (i < k - 1 ==> End(ranges[i]) < r.start)
    ensures forall i :: k <= i < |ranges| ==> End(r) <= ranges[i].start && (i > k ==> End(r) < ranges[i].start)
  {
    assert Inside(r, r.start);
    forall i | 0 <= i < k
      ensures End(ranges[i]) <= r.start && (i < k - 1 ==> End(ranges[i]) < r.start)
    {
      assert !Inside(ranges[i], r.start);
      if i < k - 1 {
        assert End(ranges[i]) < ranges[k - 1].start;
      }
    }
    if k < |ranges| {
      assert Inside(ranges[k], ranges[k].start);
      assert !Inside(r, ranges[k].start);
      assert End(r) <= ranges[k].start;
    }
  }

  /** An empty range given back is put on the list, unless it touches one that is there. */
  lemma GivenNothing(ranges: seq<Range>, start: nat)
    requires Tidy(ranges)
    ensures Tidy(Given(ranges, Range(start, 0))) <==> Touches(ranges, start)
    ensures Touches(ranges, start) ==> Given(ranges, Range(start, 0)) == ranges
  {
    var r := Range(start, 0);
    var k := NotBelow(ranges, start);
    JoinedEnd(ranges, r, k);
    TouchesAt(ranges, start, k);
    GivenIs(ranges, r);
    JoinedNothing(ranges, r, k);
    hide Tidy, Touches, Given, Joined;
    if !LeftOf(ranges, r, k) && !RightOf(ranges, r, k) {
      Parts(ranges[..k], r, ranges[k..], 0);
    } else {
      assert Given(ranges, r) == ranges;
    }
  }

  lemma JoinedNothing(ranges: seq<Range>, r: Range, k: nat)
    requires k <= |ranges| && r.pages == 0
    ensures LeftOf(ranges, r, k) && !RightOf(ranges, r, k) ==> Joined(ranges, r, k) == ranges[k - 1]
    ensures !LeftOf(ranges, r, k) && RightOf(ranges, r, k) ==> Joined(ranges, r, k) == ranges[k]
    ensures !LeftOf(ranges, r, k) && !RightOf(ranges, r, k) ==> Joined(ranges, r, k) == r
  {
  }

  lemma InOrder(ranges: seq<Range>, i: nat, j: nat)
    requires Tidy(ranges) && i < j < |ranges|
    ensures ranges[i].start <= End(ranges[i]) < ranges[j].start <= End(ranges[j])
  {
  }

  lemma TouchesAt(ranges: seq<Range>, start: nat, k: nat)
    requires Tidy(ranges) && k == NotBelow(ranges, start)
    ensures var r := Range(start, 0);
            && (Touches(ranges, start) <==> LeftOf(ranges, r, k) || RightOf(ranges, r, k))
            && !(LeftOf(ranges, r, k) && RightOf(ranges, r, k))
  {
    if 0 < k < |ranges| { InOrder(ranges, k - 1, k); }
    forall i | 0 <= i < |ranges|
      ensures i < k - 1 ==> ranges[i].start <= End(ranges[i]) < start
      ensures i > k ==> start < ranges[i].start <= End(ranges[i])
    {
      if i < k - 1 { InOrder(ranges, i, k - 1); }
      if i > k { InOrder(ranges, k, i); }
    }
    assert forall i :: 0 <= i < |ranges| ==> ranges[i].start < End(ranges[i]);
    hide End, Tidy, NotBelow;
  }

  // ---- The list as it is changed ----

  class VirtArena {
    var freeList: seq<Range>

    /** InitVirtArena. */
    constructor (start: nat, bytes: nat)
      ensures freeList == [Range(start, PagesFor(bytes))]
    {
      freeList := [Range(start, PagesFor(bytes))];
    }

    /** The first range long enough is cut short from its start, or taken out; zero if there is none. */
    method AllocVirtEx(bytes: nat) returns (address: nat)
      modifies this
      ensures var k := FirstFit(old(freeList), PagesFor(bytes));
              if k < |old(freeList)|
              then address == old(freeList)[k].start && freeList == Taken(old(freeList), k, PagesFor(bytes))
              else address == 0 && freeList == old(freeList)
    {
      var pages := PagesFor(bytes);
      var curr := 0;
      while curr < |freeList|
        invariant 0 <= curr <= |freeList| && freeList == old(freeList)
        invariant FirstFit(freeList, pages) == curr + FirstFit(freeList[curr..], pages)
      {
        if freeList[curr].pages >= pages {
          address := freeList[curr].start;
          if freeList[curr].pages == pages {
            freeList := freeList[..curr] + freeList[curr + 1..];
          } else {
            freeList := freeList[curr := Range(address + pages * PAGE, freeList[curr].pages - pages)];
          }
          return;
        }
        assert freeList[curr..][1..] == freeList[curr + 1..];
        curr := curr + 1;
      }
      address := 0;
    }

    method FindNotBelow(start: nat) returns (curr: nat)
      ensures curr == NotBelow(freeList, start)
    {
      curr := 0;
      while curr < |freeList| && freeList[curr].start < start
        invariant 0 <= curr <= |freeList|
        invariant NotBelow(freeList, start) == curr + NotBelow(freeList[curr..], start)
      {
        assert freeList[curr..][1..] == freeList[curr + 1..];
        curr := curr + 1;
      }
    }

    /** The range goes in its place, as one with those it touches. */
    method FreeVirtEx(start: nat, bytes: nat)
      modifies this
      ensures freeList == Given(old(freeList), Range(start, PagesFor(bytes)))
    {
      var pages := PagesFor(bytes);
      var end := start + pages * PAGE;
      var curr := FindNotBelow(start);
      GivenCases(freeList, Range(start, pages), curr);
      hide Given, PagesFor, NotBelow;
      var mergedLeft := curr > 0 && freeList[curr - 1].start + freeList[curr - 1].pages * PAGE == start;
      var mergedRight := curr < |freeList| && end == freeList[curr].start;
      if mergedLeft && mergedRight {
        var prev := freeList[curr - 1];
        freeList := freeList[..curr - 1] + [Range(prev.start, prev.pages + (pages + freeList[curr].pages))]
                    + freeList[curr + 1..];
      } else if mergedLeft {
        freeList := freeList[curr - 1 := Range(freeList[curr - 1].start, freeList[curr - 1].pages + pages)];
      } else if mergedRight {
        freeList := freeList[curr := Range(start, freeList[curr].pages + pages)];
      } else {
        freeList := freeList[..curr] + [Range(start, pages)] + freeList[curr..];
      }
    }
  }

  // ---- Runs ----

  /** The free list, and the ranges handed out and not yet given back. */
  datatype State = State(free: seq<Range>, owned: seq<Range>)

  /** A range is given back with the size it was asked for with. */
  datatype Op = Alloc(bytes: nat) | Free(i: nat)

  predicate Allowed(st: State, op: Op) {
    match op
    case Alloc(bytes) => bytes < WORD
    case Free(i) => i < |st.owned|
  }

  function Step(st: State, op: Op): State
    requires Allowed(st, op)
  {
    match op
    case Alloc(bytes) =>
      var k := FirstFit(st.free, PagesFor(bytes));
      if k == |st.free| then st
      else State(Taken(st.free, k, PagesFor(bytes)), st.owned + [Range(st.free[k].start, PagesFor(bytes))])
    case Free(i) => State(Given(st.free, st.owned[i]), st.owned[..i] + st.owned[i + 1..])
  }

  /** An address is handed out once, and not while it is free. */
  ghost predicate OwnedApart(st: State) {
    && (forall i, j, x :: 0 <= i < j < |st.owned| && Inside(st.owned[i], x) ==> !Inside(st.owned[j], x))
    && (forall i, x :: 0 <= i < |st.owned| && Inside(st.owned[i], x) ==> !Holds(st.free, x))
  }

  /** The free list is tidy, and every address of the arena is either free or handed out to one owner. */
  ghost predicate Inv(st: State, arena: Range) {
    && Tidy(st.free) && OwnedApart(st)
    && forall x :: Inside(arena, x) <==> Holds(st.free, x) || Holds(st.owned, x)
  }

  /** A range of no pages is given back where nothing free begins or ends. */
  predicate Strays(st: State, op: Op) {
    op.Free? && op.i < |st.owned| && st.owned[op.i].pages == 0 && !Touches(st.free, st.owned[op.i].start)
  }

  lemma AllocKeeps(st: State, arena: Range, bytes: nat)
    requires Inv(st, arena) && bytes < WORD
    ensures Inv(Step(st, Alloc(bytes)), arena)
  {
    var pages := PagesFor(bytes);
    var k := FirstFit(st.free, pages);
    var st' := Step(st, Alloc(bytes));
    if k < |st.free| {
      var r := Range(st.free[k].start, pages);
      forall x
        ensures (Inside(r, x) ==> Holds(st.free, x)) && (Holds(st'.free, x) <==> Holds(st.free, x) && !Inside(r, x))
        ensures Holds(st'.owned, x) <==> Holds(st.owned, x) || Inside(r, x)
        ensures Tidy(st'.free)
      {
        HoldsJoin(st.owned, [r], x);
        HoldsOne(r, x);
        if pages > 0 {
          TakenExact(st.free, k, pages, x);
        } else {
          assert st'.free == st.free;
        }
      }
      hide Holds, Inside, Tidy, Taken;
      assert Tidy(st'.free) && forall i :: 0 <= i < |st.owned| ==> st'.owned[i] == st.owned[i];
      assert forall i, x :: 0 <= i < |st.owned| && Inside(st.owned[i], x) ==> !Holds(st.free, x);
    }
  }

  /** Ranges that share no address, with one taken out. */
  lemma HoldsWithout(ranges: seq<Range>, i: nat, x: int)
    requires i < |ranges| && forall j, k, y :: 0 <= j < k < |ranges| && Inside(ranges[j], y) ==> !Inside(ranges[k], y)
    ensures Holds(ranges[..i] + ranges[i + 1..], x) <==> Holds(ranges, x) && !Inside(ranges[i], x)
  {
    hide Inside;
    var rest := ranges[..i] + ranges[i + 1..];
    if Holds(ranges, x) && !Inside(ranges[i], x) {
      var j :| 0 <= j < |ranges| && Inside(ranges[j], x);
      assert Inside(rest[if j < i then j else j - 1], x);
    }
    if Holds(rest, x) {
      var j :| 0 <= j < |rest| && Inside(rest[j], x);
      assert Inside(ranges[if j < i then j else j + 1], x);
    }
  }

  lemma FreeKeeps(st: State, arena: Range, i: nat)
    requires Inv(st, arena) && i < |st.owned| && !Strays(st, Free(i))
    ensures Inv(Step(st, Free(i)), arena)
  {
    var r := st.owned[i];
    hide *;
    forall x
      ensures Holds(Given(st.free, r), x) <==> Holds(st.free, x) || Inside(r, x)
    {
      FreedHolds(st, arena, i, x);
    }
    FreedHolds(st, arena, i, 0);
    OwnedWithout(st, arena, i);
    OwnedHeld(st.owned, i);
    StepFree(st, i);
    Parted(st, Step(st, Free(i)), arena, r);
  }

  lemma StepFree(st: State, i: nat)
    requires i < |st.owned|
    ensures Allowed(st, Free(i))
    ensures Step(st, Free(i)) == State(Given(st.free, st.owned[i]), st.owned[..i] + st.owned[i + 1..])
  {
  }

  lemma FreedHolds(st: State, arena: Range, i: nat, x: int)
    requires Inv(st, arena) && i < |st.owned| && !Strays(st, Free(i))
    ensures Holds(Given(st.free, st.owned[i]), x) <==> Holds(st.free, x) || Inside(st.owned[i], x)
    ensures Tidy(Given(st.free, st.owned[i]))
  {
    hide Holds, Given, Tidy;
    if st.owned[i].pages > 0 {
      GivenExact(st.free, st.owned[i], x);
    } else {
      GivenNothing(st.free, st.owned[i].start);
    }
  }

  lemma Parted(st: State, st': State, arena: Range, r: Range)
    requires Inv(st, arena) && Tidy(st'.free) && OwnedApart(State(st.free, st'.owned))
    requires forall j, x :: 0 <= j < |st'.owned| && Inside(st'.owned[j], x) ==> !Inside(r, x)
    requires forall x :: Holds(st'.free, x) <==> Holds(st.free, x) || Inside(r, x)
    requires forall x :: Holds(st'.owned, x) <==> Holds(st.owned, x) && !Inside(r, x)
    requires forall x :: Inside(r, x) ==> Holds(st.owned, x)
    ensures Inv(st', arena)
  {
    hide Holds, Inside, Tidy;
  }

  lemma OwnedWithout(st: State, arena: Range, i: nat)
    requires Inv(st, arena) && i < |st.owned|
    ensures var rest := st.owned[..i] + st.owned[i + 1..];
            && OwnedApart(State(st.free, rest))
            && (forall j, x :: 0 <= j < |rest| && Inside(rest[j], x) ==> !Inside(st.owned[i], x))
            && forall x :: Holds(rest, x) <==> Holds(st.owned, x) && !Inside(st.owned[i], x)
  {
    hide Holds, Inside, Tidy;
    var rest := st.owned[..i] + st.owned[i + 1..];
    forall j | 0 <= j < |rest|
      ensures rest[j] == st.owned[if j < i then j else j + 1]
    {
    }
    forall x
      ensures Holds(rest, x) <==> Holds(st.owned, x) && !Inside(st.owned[i], x)
    {
      HoldsWithout(st.owned, i, x);
    }
  }

  lemma OwnedHeld(ranges: seq<Range>, i: nat)
    requires i < |ranges|
    ensures forall x :: Inside(ranges[i], x) ==> Holds(ranges, x)
  {
    hide Inside;
  }

  /** A step keeps the arena parted and the list tidy exactly if it gives back no stray range of no pages. */
  lemma StepKeepsIff(st: State, arena: Range, op: Op)
    requires Inv(st, arena) && Allowed(st, op)
    ensures Inv(Step(st, op), arena) <==> !Strays(st, op)
  {
    match op
    case Alloc(bytes) => AllocKeeps(st, arena, bytes);
    case Free(i) =>
      if Strays(st, op) {
        GivenNothing(st.free, st.owned[i].start);
      } else {
        FreeKeeps(st, arena, i);
      }
  }

  ghost predicate Reaches(st: State, ops: seq<Op>, st': State)
    decreases |ops|
  {
    if ops == [] then st' == st else Allowed(st, ops[0]) && Reaches(Step(st, ops[0]), ops[1..], st')
  }

  ghost predicate Throughout(st: State, arena: Range, ops: seq<Op>)
    decreases |ops|
  {
    Inv(st, arena) && (ops == [] || (Allowed(st, ops[0]) ==> Throughout(Step(st, ops[0]), arena, ops[1..])))
  }

  predicate NoneStray(st: State, ops: seq<Op>)
    decreases |ops|
  {
    ops == [] || (Allowed(st, ops[0]) ==> !Strays(st, ops[0]) && NoneStray(Step(st, ops[0]), ops[1..]))
  }

  /** Over a whole run the free list stays tidy and the arena parted if and only if no step gives back a stray range. */
  lemma {:induction false} RunKeeps(st: State, arena: Range, ops: seq<Op>, st': State)
    requires Inv(st, arena) && Reaches(st, ops, st')
    ensures Throughout(st, arena, ops) <==> NoneStray(st, ops)
    ensures NoneStray(st, ops) ==> Inv(st', arena)
    decreases |ops|
  {
    hide Inv, Strays, Step;
    if ops != [] {
      StepKeepsIff(st, arena, ops[0]);
      if Inv(Step(st, ops[0]), arena) {
        RunKeeps(Step(st, ops[0]), arena, ops[1..], st');
      }
    }
  }

  lemma FreshInv(arena: Range)
    requires arena.pages > 0
    ensures Inv(State([arena], []), arena)
  {
    forall x
      ensures Holds([arena], x) <==> Inside(arena, x)
    {
      HoldsOne(arena, x);
    }
  }

  /** A request fails exactly when no run of free addresses is long enough, and then only. */
  lemma AllocFails(st: State, arena: Range, bytes: nat)
    requires Inv(st, arena) && 0 < bytes <= WORD - PAGE
    ensures Step(st, Alloc(bytes)).owned == st.owned <==> forall start: nat :: !FreeRun(st.free, start, PagesFor(bytes))
    ensures PagesFor(bytes) * PAGE >= bytes
  {
    PagesCover(bytes);
    FirstFitFails(st.free, PagesFor(bytes));
  }

  /** A request for nothing is given the start of a free range; once that has been handed out, giving the nothing back
      puts a range of no pages on the list. So does a request for all of memory, whose size wraps to nothing. */
  lemma NothingGivenBack(arena: Range, bytes: nat)
    requires arena.pages > 1 && (bytes == 0 || bytes == WORD - 1)
    ensures exists st' :: Reaches(State([arena], []), [Alloc(bytes), Alloc(PAGE), Free(0)], st') && !NoneEmpty(st'.free)
  {
    var st := State([arena], []);
    var nothing, rest := Range(arena.start, 0), Range(arena.start + PAGE, arena.pages - 1);
    assert PagesFor(bytes) == 0 && PagesFor(PAGE) == 1;
    var st1 := Step(st, Alloc(bytes));
    assert st1 == State([arena], [nothing]);
    var st2 := Step(st1, Alloc(PAGE));
    assert st2 == State([rest], [nothing, Range(arena.start, 1)]);
    var st3 := Step(st2, Free(0));
    assert st3.free == [nothing, rest];
    assert st3.free[0].pages == 0;
    assert [Alloc(bytes), Alloc(PAGE), Free(0)][1..] == [Alloc(PAGE), Free(0)];
    assert [Alloc(PAGE), Free(0)][1..] == [Free(0)] && [Free(0)][1..] == [];
    hide Step;
    assert Reaches(st3, [], st3) && Reaches(st2, [Free(0)], st3) && Reaches(st1, [Alloc(PAGE), Free(0)], st3);
  }
}
