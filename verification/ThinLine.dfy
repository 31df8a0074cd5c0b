/** Bresenham's line between any two points, as the pixels it fills. */
module ThinLine {
  import opened Arithmetic

  datatype Point = Point(x: int, y: int)

  /** Which way a coordinate moves. */
  function Toward(from: int, to: int): int {
    if from < to then 1 else -1
  }

  /** How far a point that lies `across` and `down` of the start is off the ideal line along the shorter side, times the
      longer side. */
  function Off(dx: int, dy: int, across: int, down: int): int {
    dx * down - dy * across
  }

  /** It is within half a pixel. */
  predicate WithinHalf(dx: int, dy: int, across: int, down: int) {
    -Max(dx, dy) <= 2 * Off(dx, dy, across, down) <= Max(dx, dy)
  }

  /** The k-th pixel of the line: k moves on along the longer side, and as close to the ideal line as a pixel can be. */
  predicate OnLine(from: Point, to: Point, p: Point, k: nat) {
    var dx, dy := Abs(to.x - from.x), Abs(to.y - from.y);
    var across, down := (p.x - from.x) * Toward(from.x, to.x), (p.y - from.y) * Toward(from.y, to.y);
    0 <= across <= dx && 0 <= down <= dy && (if dx >= dy then across else down) == k && WithinHalf(dx, dy, across, down)
  }

  predicate FitsInt(x: int) {
    -0x8000_0000 <= x < 0x8000_0000
  }

  lemma OffMoves(dx: int, dy: int, a: int, b: int)
    ensures Off(dx, dy, a + 1, b) == Off(dx, dy, a, b) - dy
    ensures Off(dx, dy, a, b + 1) == Off(dx, dy, a, b) + dx
    ensures Off(dx, dy, a + 1, b + 1) == Off(dx, dy, a, b) + dx - dy
  {
  }

  lemma OffStarts(dx: int, dy: int)
    ensures Off(dx, dy, 0, 0) == 0
  {
  }

  /** Where the pixel is along the shorter side is at most all of it, and all of it where the longer side ends. */
  lemma EndTogether(longer: int, shorter: int, m: int, n: int)
    requires 0 <= m <= longer && longer > 0 && shorter >= 0 && n >= 0
    requires -longer <= 2 * Off(longer, shorter, m, n) <= longer
    ensures n <= shorter && (m == longer ==> n == shorter)
  {
    if n > shorter {
      Multiples(shorter + 1, n, longer);
      Multiples(m, longer, shorter);
    } else if m == longer && n < shorter {
      Multiples(n + 1, shorter, longer);
    }
  }

  lemma OffTurned(dx: int, dy: int, a: int, b: int)
    ensures Off(dy, dx, b, a) == -Off(dx, dy, a, b)
  {
  }

  /** On a diagonal the error is a multiple of the side, and so never half of it. */
  lemma NoHalf(side: int, a: int, b: int)
    requires side > 0
    ensures 2 * Off(side, side, a, b) != -side
  {
    var d := b - a;
    assert 2 * Off(side, side, a, b) == side * (2 * d);
    if d >= 0 {
      Multiples(0, 2 * d, side);
    } else {
      Multiples(1, -d, side);
      assert side * (2 * d) == -2 * (-d * side);
    }
  }

  /** One move, across, down or both, as the error says: along the longer side always, and along the other so that the
      pixel stays within half of the line. */
  lemma MoveStays(dx: int, dy: int, a: int, b: int)
    requires 0 <= a <= dx && 0 <= b <= dy && (a < dx || b < dy) && WithinHalf(dx, dy, a, b)
    ensures var e2 := 2 * (dx - dy + Off(dx, dy, a, b));
            var a', b' := if e2 > -dy then a + 1 else a, if e2 < dx then b + 1 else b;
            && a' <= dx && b' <= dy && WithinHalf(dx, dy, a', b')
            && (if dx >= dy then a' == a + 1 else b' == b + 1)
  {
    hide Off;
    var e2 := 2 * (dx - dy + Off(dx, dy, a, b));
    var a', b' := if e2 > -dy then a + 1 else a, if e2 < dx then b + 1 else b;
    OffMoves(dx, dy, a, b);
    OffTurned(dx, dy, a, b);
    OffTurned(dx, dy, a', b');
    if dx >= dy {
      EndTogether(dx, dy, a, b);
      if dx == dy { NoHalf(dx, a, b); }
      EndTogether(dx, dy, a', b');
    } else {
      EndTogether(dy, dx, b, a);
      EndTogether(dy, dx, b', a');
    }
  }

  /** DrawThinLine: the pixels it fills, in order. */
  method DrawThinLine(from: Point, to: Point) returns (filled: seq<Point>)
    ensures |filled| == Max(Abs(to.x - from.x), Abs(to.y - from.y)) + 1
    ensures filled[0] == from && filled[|filled| - 1] == to
    ensures forall k :: 0 <= k < |filled| ==> OnLine(from, to, filled[k], k)
  {
    var dx, dy := Abs(to.x - from.x), Abs(to.y - from.y);
    var sx, sy := Toward(from.x, to.x), Toward(from.y, to.y);
    var err := dx - dy;
    var x, y := from.x, from.y;
    filled := [];
    ghost var a, b := 0, 0;
    OffStarts(dx, dy);
    hide OnLine, Off;
    while true
      invariant 0 <= a <= dx && 0 <= b <= dy && Point(x, y) == Along(from, to, a, b)
      invariant WithinHalf(dx, dy, a, b) && err == dx - dy + Off(dx, dy, a, b)
      invariant |filled| == if dx >= dy then a else b
      invariant filled == [] ==> a == 0 && b == 0
      invariant filled != [] ==> filled[0] == from
      invariant forall k :: 0 <= k < |filled| ==> OnLine(from, to, filled[k], k)
      decreases dx - a + (dy - b)
    {
      AlongIsOn(from, to, a, b);
      filled := filled + [Point(x, y)];
      if x == to.x && y == to.y {
        break;
      }
      MoveStays(dx, dy, a, b);
      OffMoves(dx, dy, a, b);
      var e2 := 2 * err;
      assert Max(dx, dy) < 0x2000_0000 ==> FitsInt(e2);
      if e2 > -dy {
        err := err - dy;
        x := x + sx;
        a := a + 1;
      }
      if e2 < dx {
        err := err + dx;
        y := y + sy;
        b := b + 1;
      }
    }
  }

  function Along(from: Point, to: Point, a: int, b: int): Point {
    Point(if from.x < to.x then from.x + a else from.x - a, if from.y < to.y then from.y + b else from.y - b)
  }

  lemma AlongIsOn(from: Point, to: Point, a: int, b: int)
    requires var dx, dy := Abs(to.x - from.x), Abs(to.y - from.y);
             0 <= a <= dx && 0 <= b <= dy && WithinHalf(dx, dy, a, b)
    ensures var dx, dy := Abs(to.x - from.x), Abs(to.y - from.y);
            && OnLine(from, to, Along(from, to, a, b), if dx >= dy then a else b)
            && (Along(from, to, a, b) == to <==> a == dx && b == dy)
  {
    hide Off;
  }
}
