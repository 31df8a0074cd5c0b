/** Filling polygons row by row: where their edges cross a row, and the spans those crossings bound. */
module PolygonRows {

  datatype Vertex = Vertex(x: int, y: int)

  type Polygon = seq<Vertex>

  datatype Crossing = Crossing(x: int, direction: int)

  datatype Fill = Alternate | Winding

  // ---- Crossings ----

  /** Division as C has it, towards zero. */
  function TruncDiv(n: int, d: int): int
    requires d != 0
  {
    if n >= 0 then n / d else -(-n / d)
  }

  function Wrap32(x: int): int {
    var u := x % 0x1_0000_0000;
    if u < 0x8000_0000 then u else u - 0x1_0000_0000
  }

  /** The edge from a to b crosses the row: its upper end counts, its lower end does not. */
  predicate Crosses(a: Vertex, b: Vertex, y: int) {
    a.y <= y < b.y || b.y <= y < a.y
  }

  function CrossingOf(a: Vertex, b: Vertex, y: int): Crossing
    requires Crosses(a, b, y)
  {
    Crossing(a.x + TruncDiv(Wrap32((b.x - a.x) * (y - a.y)), b.y - a.y), if a.y < b.y then 1 else -1)
  }

  /** After the last corner comes the first. */
  function Next(p: Polygon, i: nat): Vertex
    requires i < |p|
  {
    if i + 1 == |p| then p[0] else p[i + 1]
  }

  /** Where the first n edges of a polygon cross a row. */
  function EdgeCrossings(p: Polygon, y: int, n: nat): seq<Crossing>
    requires n <= |p|
  {
    if n == 0 then []
    else EdgeCrossings(p, y, n - 1)
         + if Crosses(p[n - 1], Next(p, n - 1), y) then [CrossingOf(p[n - 1], Next(p, n - 1), y)] else []
  }

  /** Where polygons cross a row; those of fewer than three corners do not count. */
  function Crossings(ps: seq<Polygon>, y: int): seq<Crossing> {
    if ps == [] then []
    else
      var n := |ps| - 1;
      Crossings(ps[..n], y) + if |ps[n]| >= 3 then EdgeCrossings(ps[n], y, |ps[n]|) else []
  }

  /** How a crossing counts: by one, or by the way it goes. */
  function Worth(c: Crossing, fill: Fill): int {
    if fill == Alternate then 1 else c.direction
  }

  /** What the crossings at or left of a column count for. */
  function Tally(cs: seq<Crossing>, fill: Fill, x: int): int {
    if cs == [] then 0
    else
      var n := |cs| - 1;
      Tally(cs[..n], fill, x) + if cs[n].x <= x then Worth(cs[n], fill) else 0
  }

  function Total(cs: seq<Crossing>, fill: Fill): int {
    if cs == [] then 0 else Total(cs[..|cs| - 1], fill) + Worth(cs[|cs| - 1], fill)
  }

  /** By the even-odd rule, or by the winding rule. */
  predicate Counts(tally: int, fill: Fill) {
    if fill == Alternate then tally % 2 == 1 else tally != 0
  }

  /** The pixel is inside the polygons. */
  predicate Inside(ps: seq<Polygon>, fill: Fill, x: int, y: int) {
    Counts(Tally(Crossings(ps, y), fill, x), fill)
  }

  lemma {:induction false} TallyJoin(a: seq<Crossing>, b: seq<Crossing>, fill: Fill, x: int)
    ensures Tally(a + b, fill, x) == Tally(a, fill, x) + Tally(b, fill, x)
    ensures Total(a + b, fill) == Total(a, fill) + Total(b, fill)
  {
    if b == [] {
      assert a + b == a;
    } else {
      var n := |b| - 1;
      assert (a + b)[..|a| + n] == a + b[..n];
      TallyJoin(a, b[..n], fill, x);
    }
  }

  /** Whether the corner is below the row. */
  function Below(v: Vertex, y: int): int {
    if v.y > y then 1 else 0
  }

  /** Along a polygon the crossings one way and the other add up to where one is. */
  lemma {:induction false} EdgesBalance(p: Polygon, y: int, n: nat)
    requires 0 < |p| && n <= |p|
    ensures Total(EdgeCrossings(p, y, n), Winding) == Below(if n == |p| then p[0] else p[n], y) - Below(p[0], y)
  {
    if n > 0 {
      var a, b, before := p[n - 1], Next(p, n - 1), EdgeCrossings(p, y, n - 1);
      EdgesBalance(p, y, n - 1);
      OneEdge(a, b, y);
      hide CrossingOf, Crosses, Below;
      if Crosses(a, b, y) {
        TotalOne(CrossingOf(a, b, y));
        TallyJoin(before, [CrossingOf(a, b, y)], Winding, 0);
      } else {
        assert before + [] == before;
      }
    }
  }

  lemma OneEdge(a: Vertex, b: Vertex, y: int)
    ensures Crosses(a, b, y) ==> CrossingOf(a, b, y).direction == Below(b, y) - Below(a, y)
    ensures !Crosses(a, b, y) ==> Below(a, y) == Below(b, y)
  {
    hide TruncDiv, Wrap32;
  }

  lemma TotalOne(c: Crossing)
    ensures Total([c], Winding) == c.direction
  {
  }

  predicate EachWay(cs: seq<Crossing>) {
    forall i :: 0 <= i < |cs| ==> cs[i].direction == 1 || cs[i].direction == -1
  }

  lemma {:induction false} EdgesEachWay(p: Polygon, y: int, n: nat)
    requires n <= |p|
    ensures EachWay(EdgeCrossings(p, y, n))
  {
    if n > 0 {
      EdgesEachWay(p, y, n - 1);
    }
  }

  /** Every row crosses the polygons as often one way as the other, and so an even number of times. */
  lemma {:induction false} RowBalances(ps: seq<Polygon>, y: int)
    ensures EachWay(Crossings(ps, y)) && Total(Crossings(ps, y), Winding) == 0
    ensures |Crossings(ps, y)| % 2 == 0
  {
    if ps != [] {
      var n := |ps| - 1;
      RowBalances(ps[..n], y);
      if |ps[n]| >= 3 {
        var cs := EdgeCrossings(ps[n], y, |ps[n]|);
        EdgesBalance(ps[n], y, |ps[n]|);
        EdgesEachWay(ps[n], y, |ps[n]|);
        TallyJoin(Crossings(ps[..n], y), cs, Winding, 0);
        TotalParity(cs);
      } else {
        assert Crossings(ps[..n], y) + [] == Crossings(ps[..n], y);
      }
    }
  }

  lemma {:induction false} TotalParity(cs: seq<Crossing>)
    requires EachWay(cs)
    ensures Total(cs, Winding) % 2 == |cs| % 2
  {
    if cs != [] {
      TotalParity(cs[..|cs| - 1]);
    }
  }

  // ---- Sorting ----

  predicate SortedTo(cs: seq<Crossing>, n: nat) {
    forall i, j :: 0 <= i < j < |cs| && n <= j ==> cs[i].x <= cs[j].x
  }

  /** The crossings at column x, in order. */
  function At(cs: seq<Crossing>, x: int): seq<Crossing> {
    if cs == [] then []
    else
      var n := |cs| - 1;
      At(cs[..n], x) + if cs[n].x == x then [cs[n]] else []
  }

  /** Puts a crossing behind those at or left of its column. */
  function Insert(cs: seq<Crossing>, c: Crossing): seq<Crossing> {
    if cs == [] || cs[|cs| - 1].x <= c.x then cs + [c] else Insert(cs[..|cs| - 1], c) + [cs[|cs| - 1]]
  }

  /** The crossings by column; those at one column stay in the order they were found in. */
  function Sorted(cs: seq<Crossing>): seq<Crossing> {
    if cs == [] then [] else Insert(Sorted(cs[..|cs| - 1]), cs[|cs| - 1])
  }

  lemma {:induction false} AtJoin(a: seq<Crossing>, b: seq<Crossing>, x: int)
    ensures At(a + b, x) == At(a, x) + At(b, x)
  {
    if b == [] {
      assert a + b == a;
    } else {
      var n := |b| - 1;
      assert (a + b)[..|a| + n] == a + b[..n];
      AtJoin(a, b[..n], x);
      assert At(a, x) + At(b[..n], x) + (if b[n].x == x then [b[n]] else [])
          == At(a, x) + (At(b[..n], x) + if b[n].x == x then [b[n]] else []);
    }
  }

  lemma AtOne(c: Crossing, x: int)
    ensures At([c], x) == if c.x == x then [c] else []
  {
    assert [c][..0] == [] && At([], x) == [];
  }

  /** The same crossings, in an order that differs at most between columns. */
  ghost predicate Shuffled(a: seq<Crossing>, b: seq<Crossing>) {
    && multiset(a) == multiset(b)
    && (forall x :: At(a, x) == At(b, x))
    && (forall fill, x :: Tally(a, fill, x) == Tally(b, fill, x))
    && forall fill :: Total(a, fill) == Total(b, fill)
  }

  lemma ShuffledParts(l: seq<Crossing>, a: Crossing, b: Crossing, r: seq<Crossing>)
    requires a.x != b.x
    ensures Shuffled(l + [a] + [b] + r, l + [b] + [a] + r)
  {
    hide At, Tally, Total;
    forall fill, x
      ensures Tally(l + [a] + [b] + r, fill, x) == Tally(l + [b] + [a] + r, fill, x)
      ensures Total(l + [a] + [b] + r, fill) == Total(l + [b] + [a] + r, fill)
    {
      TallyParts(l, a, b, r, fill, x);
    }
    forall fill
      ensures Total(l + [a] + [b] + r, fill) == Total(l + [b] + [a] + r, fill)
    {
      TallyParts(l, a, b, r, fill, 0);
    }
    forall x
      ensures At(l + [a] + [b] + r, x) == At(l + [b] + [a] + r, x)
    {
      AtParts(l, a, b, r, x);
    }
  }

  lemma AtParts(l: seq<Crossing>, a: Crossing, b: Crossing, r: seq<Crossing>, x: int)
    requires a.x != b.x
    ensures At(l + [a] + [b] + r, x) == At(l + [b] + [a] + r, x)
  {
    hide At;
    AtJoin(l + [a] + [b], r, x);
    AtJoin(l + [b] + [a], r, x);
    AtJoin(l + [a], [b], x);
    AtJoin(l + [b], [a], x);
    AtJoin(l, [a], x);
    AtJoin(l, [b], x);
    AtOne(a, x);
    AtOne(b, x);
    if a.x == x {
      assert At(l, x) + [a] + [] == At(l, x) + [] + [a];
    } else if b.x == x {
      assert At(l, x) + [] + [b] == At(l, x) + [b] + [];
    }
  }

  lemma TallyParts(l: seq<Crossing>, a: Crossing, b: Crossing, r: seq<Crossing>, fill: Fill, x: int)
    ensures Tally(l + [a] + [b] + r, fill, x) == Tally(l + [b] + [a] + r, fill, x)
    ensures Total(l + [a] + [b] + r, fill) == Total(l + [b] + [a] + r, fill)
  {
    hide Tally, Total;
    TallyJoin(l + [a] + [b], r, fill, x);
    TallyJoin(l + [b] + [a], r, fill, x);
    TallyJoin(l + [a], [b], fill, x);
    TallyJoin(l + [b], [a], fill, x);
    TallyJoin(l, [a], fill, x);
    TallyJoin(l, [b], fill, x);
  }

  lemma SwapShuffles(cs: seq<Crossing>, j: nat)
    requires j + 1 < |cs| && cs[j].x != cs[j + 1].x
    ensures Shuffled(cs, cs[j := cs[j + 1]][j + 1 := cs[j]])
  {
    var swapped := cs[j := cs[j + 1]][j + 1 := cs[j]];
    Parted(cs, j);
    Parted(swapped, j);
    assert swapped[..j] == cs[..j] && swapped[j + 2..] == cs[j + 2..];
    hide Shuffled;
    ShuffledParts(cs[..j], cs[j], cs[j + 1], cs[j + 2..]);
  }

  lemma Parted(cs: seq<Crossing>, j: nat)
    requires j + 1 < |cs|
    ensures cs == cs[..j] + [cs[j]] + [cs[j + 1]] + cs[j + 2..]
  {
  }

  /** SortDynamicArray, by column. */
  method SortCrossings(unsorted: seq<Crossing>) returns (cs: seq<Crossing>)
    ensures cs == Sorted(unsorted)
  {
    hide Shuffled, Tally, Total, Sorted;
    cs := unsorted;
    ShuffledSame(cs);
    if |cs| <= 1 {
      SortedOnly(unsorted, cs);
      return;
    }
    for i := 0 to |cs| - 1
      invariant |cs| == |unsorted| && Shuffled(unsorted, cs) && SortedTo(cs, |cs| - i)
    {
      for j := 0 to |cs| - i - 1
        invariant |cs| == |unsorted| && Shuffled(unsorted, cs) && SortedTo(cs, |cs| - i)
        invariant forall m :: 0 <= m < j ==> cs[m].x <= cs[j].x
      {
        if cs[j].x > cs[j + 1].x {
          SwapShuffles(cs, j);
          ShuffledOn(unsorted, cs, cs[j := cs[j + 1]][j + 1 := cs[j]]);
          cs := cs[j := cs[j + 1]][j + 1 := cs[j]];
        }
      }
    }
    SortedOnly(unsorted, cs);
  }

  lemma ShuffledSame(cs: seq<Crossing>)
    ensures Shuffled(cs, cs)
  {
  }

  lemma ShuffledOn(a: seq<Crossing>, b: seq<Crossing>, c: seq<Crossing>)
    requires Shuffled(a, b) && Shuffled(b, c)
    ensures Shuffled(a, c) && |a| == |b| == |c|
  {
    assert |a| == |multiset(a)| && |b| == |multiset(b)| && |c| == |multiset(c)|;
  }

  lemma ShuffledJoin(a: seq<Crossing>, b: seq<Crossing>, c: seq<Crossing>)
    requires Shuffled(a, b)
    ensures Shuffled(a + c, b + c)
  {
    hide At, Tally, Total;
    forall x ensures At(a + c, x) == At(b + c, x) { AtJoin(a, c, x); AtJoin(b, c, x); }
    forall fill, x
      ensures Tally(a + c, fill, x) == Tally(b + c, fill, x)
    {
      TallyJoin(a, c, fill, x);
      TallyJoin(b, c, fill, x);
    }
    forall fill
      ensures Total(a + c, fill) == Total(b + c, fill)
    {
      TallyJoin(a, c, fill, 0);
      TallyJoin(b, c, fill, 0);
    }
  }

  lemma SortedSnoc(cs: seq<Crossing>, c: Crossing)
    requires SortedTo(cs, 0) && (cs != [] ==> cs[|cs| - 1].x <= c.x)
    ensures SortedTo(cs + [c], 0)
  {
  }

  lemma {:induction false} InsertSorts(cs: seq<Crossing>, c: Crossing)
    requires SortedTo(cs, 0)
    ensures SortedTo(Insert(cs, c), 0) && |Insert(cs, c)| == |cs| + 1
    ensures Insert(cs, c)[|cs|].x == if cs == [] || cs[|cs| - 1].x <= c.x then c.x else cs[|cs| - 1].x
  {
    if cs != [] && c.x < cs[|cs| - 1].x {
      InsertSorts(cs[..|cs| - 1], c);
      hide SortedTo;
      SortedSnoc(Insert(cs[..|cs| - 1], c), cs[|cs| - 1]);
    }
  }

  lemma {:induction false} InsertShuffles(cs: seq<Crossing>, c: Crossing)
    ensures Shuffled(cs + [c], Insert(cs, c))
  {
    if cs == [] || cs[|cs| - 1].x <= c.x {
      ShuffledSame(cs + [c]);
    } else {
      var n := |cs| - 1;
      var l, d := cs[..n], cs[n];
      InsertShuffles(l, c);
      assert Insert(cs, c) == Insert(l, c) + [d];
      hide Shuffled, Insert, At, Tally, Total;
      ShuffledParts(l, d, c, []);
      ShuffledJoin(l + [c], Insert(l, c), [d]);
      assert l + [d] + [c] + [] == cs + [c];
      assert l + [c] + [d] + [] == l + [c] + [d];
      ShuffledOn(cs + [c], l + [c] + [d], Insert(cs, c));
    }
  }

  lemma {:induction false} SortedSorts(cs: seq<Crossing>)
    ensures SortedTo(Sorted(cs), 0)
  {
    if cs != [] {
      SortedSorts(cs[..|cs| - 1]);
      InsertSorts(Sorted(cs[..|cs| - 1]), cs[|cs| - 1]);
    }
  }

  lemma {:induction false} SortedShuffles(cs: seq<Crossing>)
    ensures Shuffled(cs, Sorted(cs))
  {
    if cs == [] {
      ShuffledSame(cs);
    } else {
      var n := |cs| - 1;
      SortedShuffles(cs[..n]);
      assert Sorted(cs) == Insert(Sorted(cs[..n]), cs[n]);
      hide Shuffled, Insert, At, Tally, Total, Sorted;
      InsertShuffles(Sorted(cs[..n]), cs[n]);
      ShuffledJoin(cs[..n], Sorted(cs[..n]), [cs[n]]);
      assert cs[..n] + [cs[n]] == cs;
      ShuffledOn(cs, Sorted(cs[..n]) + [cs[n]], Sorted(cs));
    }
  }

  lemma {:induction false} AtNone(cs: seq<Crossing>, x: int)
    requires forall i :: 0 <= i < |cs| ==> cs[i].x != x
    ensures At(cs, x) == []
  {
    if cs != [] {
      AtNone(cs[..|cs| - 1], x);
    }
  }

  /** What is at a column is in the list, and so not right of its end. */
  lemma AtReaches(cs: seq<Crossing>, x: int)
    requires SortedTo(cs, 0) && At(cs, x) != []
    ensures cs != [] && x <= cs[|cs| - 1].x
  {
    if forall i :: 0 <= i < |cs| ==> cs[i].x != x {
      AtNone(cs, x);
    }
  }

  lemma AtLast(cs: seq<Crossing>)
    requires cs != []
    ensures var c := cs[|cs| - 1]; At(cs, c.x) != [] && At(cs, c.x)[|At(cs, c.x)| - 1] == c
  {
  }

  /** The order by column, and that within each column, fix the list. */
  lemma {:induction false} SortedUnique(a: seq<Crossing>, b: seq<Crossing>)
    requires SortedTo(a, 0) && SortedTo(b, 0) && forall x :: At(a, x) == At(b, x)
    ensures a == b
  {
    assert At([], 0) == [];
    if a != [] { AtLast(a); }
    if b != [] { AtLast(b); }
    hide At;
    assert (a == []) == (b == []) by { SortedEmpty(a, b); }
    if a != [] {
      var m, n := |a| - 1, |b| - 1;
      AtReaches(b, a[m].x);
      AtReaches(a, b[n].x);
      assert At(a, a[m].x) == At(b, a[m].x);
      forall x ensures At(a[..m], x) == At(b[..n], x) { AtFront(a, b, x); }
      SortedUnique(a[..m], b[..n]);
      assert a == a[..m] + [a[m]] && b == b[..n] + [b[n]];
    }
  }

  lemma SortedEmpty(a: seq<Crossing>, b: seq<Crossing>)
    requires forall x :: At(a, x) == At(b, x)
    ensures a == [] <==> b == []
  {
    if a != [] { AtLast(a); }
    if b != [] { AtLast(b); }
  }

  lemma AtFront(a: seq<Crossing>, b: seq<Crossing>, x: int)
    requires a != [] && b != [] && a[|a| - 1] == b[|b| - 1] && At(a, x) == At(b, x)
    ensures At(a[..|a| - 1], x) == At(b[..|b| - 1], x)
  {
    var c := a[|a| - 1];
    var l, r := At(a[..|a| - 1], x), At(b[..|b| - 1], x);
    if c.x == x {
      assert l == (l + [c])[..|l|] && r == (r + [c])[..|r|];
    } else {
      assert l + [] == l && r + [] == r;
    }
  }

  lemma SortedOnly(a: seq<Crossing>, b: seq<Crossing>)
    requires Shuffled(a, b) && SortedTo(b, 0)
    ensures b == Sorted(a)
  {
    SortedShuffles(a);
    SortedSorts(a);
    hide Sorted, At;
    assert forall x :: At(b, x) == At(a, x) == At(Sorted(a), x);
    SortedUnique(b, Sorted(a));
  }
}
