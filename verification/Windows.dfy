/** Windows on a desktop, front first, and what can be seen of each. Regions are the sets of their points. */
module Windows {
  datatype Point = Point(x: int, y: int)

  datatype Rect = Rect(x: int, y: int, w: int, h: int)

  type Area = set<Point>

  function RectArea(r: Rect): Area {
    set x, y | r.x <= x < r.x + r.w && r.y <= y < r.y + r.h :: Point(x, y)
  }

  /** `rgn` is all of the window, `vis` what can be seen of it, `dirty` what is to be painted again. */
  datatype Window = Window(id: nat, rgn: Area, vis: Area, dirty: Area)

  /** The points of all of them. */
  function Union(ws: seq<Window>): Area {
    if ws == [] then {} else Union(ws[..|ws| - 1]) + ws[|ws| - 1].rgn
  }

  /** Some of what a window can show has been laid bare, or been covered. */
  function Changed(w: Window, area: Area, covered: bool): Window {
    var overlap := w.rgn * area;
    w.(vis := if covered then w.vis - overlap else w.vis + overlap, dirty := w.dirty + overlap)
  }

  lemma ChangedNothing(w: Window, area: Area, covered: bool)
    requires w.rgn * area == {}
    ensures Changed(w, area, covered) == w
  {
    assert w.vis + {} == w.vis && w.vis - {} == w.vis && w.dirty + {} == w.dirty;
  }

  /** Of each window exactly that can be seen which is under none in front of it. */
  ghost predicate Right(ws: seq<Window>, desktop: Window) {
    && (forall k :: 0 <= k < |ws| ==> ws[k].vis == ws[k].rgn - Union(ws[..k]))
    && desktop.vis == desktop.rgn - Union(ws)
  }

  lemma UnionSnoc(ws: seq<Window>, k: nat)
    requires k < |ws|
    ensures Union(ws[..k + 1]) == Union(ws[..k]) + ws[k].rgn
  {
    assert ws[..k + 1][..k] == ws[..k];
  }

  lemma {:induction false} UnionMember(ws: seq<Window>, p: Point)
    ensures p in Union(ws) <==> exists k :: 0 <= k < |ws| && p in ws[k].rgn
  {
    if ws != [] {
      var n := |ws| - 1;
      UnionMember(ws[..n], p);
      if p in ws[n].rgn {
      } else if k :| 0 <= k < n && p in ws[..n][k].rgn {
        assert p in ws[k].rgn;
      }
    }
  }

  lemma {:induction false} UnionJoin(a: seq<Window>, b: seq<Window>)
    ensures Union(a + b) == Union(a) + Union(b)
  {
    if b == [] {
      assert a + b == a;
    } else {
      var n := |b| - 1;
      assert (a + b)[..|a| + n] == a + b[..n];
      UnionJoin(a, b[..n]);
    }
  }

  /** The same regions in the same places. */
  ghost predicate SameRegions(a: seq<Window>, b: seq<Window>) {
    |a| == |b| && forall k :: 0 <= k < |a| ==> a[k].rgn == b[k].rgn
  }

  lemma {:induction false} UnionSame(a: seq<Window>, b: seq<Window>)
    requires SameRegions(a, b)
    ensures Union(a) == Union(b)
  {
    if a != [] {
      UnionSame(a[..|a| - 1], b[..|b| - 1]);
    }
  }

  lemma UnionSplit(ws: seq<Window>, k: nat, i: nat)
    requires k < i <= |ws|
    ensures Union(ws[..i]) == Union(ws[..k]) + ws[k].rgn + Union(ws[k + 1..i])
  {
    assert ws[..i] == ws[..k + 1] + ws[k + 1..i];
    UnionJoin(ws[..k + 1], ws[k + 1..i]);
    UnionSnoc(ws, k);
  }

  lemma InFront(ws: seq<Window>, k: nat, p: Point)
    requires k <= |ws|
    ensures p in Union(ws[..k]) <==> exists j :: 0 <= j < k && p in ws[j].rgn
  {
    UnionMember(ws[..k], p);
    if j :| 0 <= j < k && p in ws[j].rgn {
      assert p in ws[..k][j].rgn;
    }
  }

  lemma {:induction false} Foremost(ws: seq<Window>, p: Point) returns (k: nat)
    requires p in Union(ws)
    ensures k < |ws| && p in ws[k].rgn && p !in Union(ws[..k])
  {
    var n := |ws| - 1;
    if p in Union(ws[..n]) {
      k := Foremost(ws[..n], p);
      assert ws[..n][..k] == ws[..k];
    } else {
      k := n;
    }
  }

  /** Every point of a window can be seen in exactly one window, the foremost that has it; a point of the desktop can be
      seen there exactly if no window has it. */
  lemma SeenOnce(ws: seq<Window>, desktop: Window, p: Point)
    requires Right(ws, desktop)
    ensures p in Union(ws) ==> exists k :: 0 <= k < |ws| && p in ws[k].vis
    ensures forall j, k :: 0 <= j < k < |ws| && p in ws[k].vis ==> p !in ws[j].rgn && p !in ws[j].vis
    ensures p in desktop.vis <==> p in desktop.rgn && p !in Union(ws)
  {
    if p in Union(ws) {
      var k := Foremost(ws, p);
      assert p in ws[k].vis;
    }
    forall j, k | 0 <= j < k < |ws| && p in ws[k].vis
      ensures p !in ws[j].rgn && p !in ws[j].vis
    {
      InFront(ws, k, p);
    }
  }

  // ---- Uncovering and covering ----

  /** What is left of a region for window i once those in front of it have had theirs; a part laid bare by window k is
      not seen where anything in front of k covers it. */
  function Bare(ws: seq<Window>, k: nat, i: nat, area: Area, covered: bool): Area
    requires k < i <= |ws|
  {
    (if covered then area else area - Union(ws[..k])) - Union(ws[k + 1..i])
  }

  /** The windows behind k, up to n, have had their part of a region laid bare or covered. */
  ghost predicate ChangedTo(ws: seq<Window>, ws': seq<Window>, k: nat, n: nat, area: Area, covered: bool)
    requires k < n <= |ws|
  {
    && |ws'| == |ws|
    && (forall i :: 0 <= i < |ws| && !(k < i < n) ==> ws'[i] == ws[i])
    && (forall i :: k < i < n ==> ws'[i] == Changed(ws[i], Bare(ws, k, i, area, covered), covered))
  }

  lemma ChangedNone(ws: seq<Window>, k: nat, area: Area, covered: bool)
    requires k < |ws|
    ensures ChangedTo(ws, ws, k, k + 1, area, covered)
  {
  }

  lemma ChangedNext(ws: seq<Window>, ws': seq<Window>, k: nat, i: nat, area: Area, covered: bool)
    requires k < i < |ws| && ChangedTo(ws, ws', k, i, area, covered)
    ensures |ws'| == |ws| && ws'[i] == ws[i]
    ensures ChangedTo(ws, ws'[i := Changed(ws'[i], Bare(ws, k, i, area, covered), covered)], k, i + 1, area, covered)
  {
    hide Changed, Bare;
  }

  /** All of them have, and the desktop. */
  ghost predicate Invalidated(ws: seq<Window>, desktop: Window, ws': seq<Window>, desktop': Window, k: nat, area: Area,
                              covered: bool)
    requires k < |ws|
  {
    && ChangedTo(ws, ws', k, |ws|, area, covered)
    && desktop' == Changed(desktop, Bare(ws, k, |ws|, area, covered), covered)
  }

  /** Further back no more is left. */
  lemma BareLess(ws: seq<Window>, k: nat, n: nat, i: nat, area: Area, covered: bool)
    requires k < n <= i <= |ws|
    ensures Bare(ws, k, i, area, covered) <= Bare(ws, k, n, area, covered)
  {
    assert ws[k + 1..i] == ws[k + 1..n] + ws[n..i];
    UnionJoin(ws[k + 1..n], ws[n..i]);
  }

  /** Once nothing is left, nothing behind changes. */
  lemma RestNothing(ws: seq<Window>, desktop: Window, ws': seq<Window>, k: nat, n: nat, area: Area, covered: bool)
    requires k < n <= |ws| && ChangedTo(ws, ws', k, n, area, covered) && Bare(ws, k, n, area, covered) == {}
    ensures Invalidated(ws, desktop, ws', desktop, k, area, covered)
  {
    forall i | n <= i <= |ws|
      ensures Bare(ws, k, i, area, covered) == {}
    {
      BareLess(ws, k, n, i, area, covered);
    }
    forall i | n <= i < |ws|
      ensures Changed(ws[i], Bare(ws, k, i, area, covered), covered) == ws[i]
    {
      ChangedNothing(ws[i], {}, covered);
    }
    ChangedNothing(desktop, {}, covered);
  }

  lemma BareNext(ws: seq<Window>, k: nat, i: nat, area: Area, covered: bool)
    requires k < i < |ws|
    ensures Bare(ws, k, i + 1, area, covered) == Bare(ws, k, i, area, covered) - ws[i].rgn
  {
    assert ws[k + 1..i + 1] == ws[k + 1..i] + [ws[i]];
    UnionJoin(ws[k + 1..i], [ws[i]]);
    assert Union([ws[i]]) == ws[i].rgn;
  }

  lemma BareFirst(ws: seq<Window>, k: nat, area: Area, covered: bool)
    requires k < |ws|
    ensures Bare(ws, k, k + 1, area, covered) == if covered then area else area - Union(ws[..k])
  {
  }

  lemma DisjointLeft(a: Area, b: Area)
    requires a * b == {}
    ensures b - a == b
  {
    forall p | p in b
      ensures p !in a
    {
      assert p in a ==> p in a * b;
    }
  }

  class WindowManager {
    const origin: Point
    var desktop: Window
    var windows: seq<Window>

    ghost predicate Valid()
      reads this
    {
      Right(windows, desktop)
    }

    /** A desktop with nothing on it. */
    constructor (id: nat, place: Rect)
      ensures Valid() && windows == [] && desktop.rgn == RectArea(place) && origin == Point(place.x, place.y)
    {
      var area := RectArea(place);
      origin := Point(place.x, place.y);
      desktop, windows := Window(id, area, area, area), [];
    }

    /** WmApplyExposureToSubtree, for a window without children. */
    method ApplyExposure(i: nat, exposed: Area, covered: bool) returns (rest: Area, nowEmpty: bool)
      requires i < |windows|
      modifies this`windows
      ensures windows == old(windows)[i := Changed(old(windows[i]), exposed, covered)]
      ensures rest == exposed - windows[i].rgn && (nowEmpty ==> rest == {})
    {
      var w := windows[i];
      var claimed := w.rgn * exposed;
      if claimed == {} {
        ChangedNothing(w, exposed, covered);
        DisjointLeft(w.rgn, exposed);
        return exposed, false;
      }
      rest := exposed - claimed;
      windows := windows[i := w.(vis := if covered then w.vis - claimed else w.vis + claimed,
                                 dirty := w.dirty + claimed)];
      nowEmpty := rest == {};
    }

    /** WmInvalidateExposedRegion. */
    method InvalidateExposedRegion(k: nat, area: Area, covered: bool)
      requires k < |windows|
      modifies this`windows, this`desktop
      ensures Invalidated(old(windows), old(desktop), windows, desktop, k, area, covered)
    {
      var exposed := area;
      if !covered {
        exposed := HiddenInFront(k, area);
        if exposed == {} {
          BareFirst(windows, k, area, covered);
          RestNothing(windows, desktop, windows, k, k + 1, area, covered);
          return;
        }
      }
      BareFirst(windows, k, area, covered);
      ghost var ws := windows;
      ChangedNone(ws, k, area, covered);
      hide Bare, Changed, Union, ChangedTo;
      for i := k + 1 to |windows|
        invariant |windows| == |ws| && exposed == Bare(ws, k, i, area, covered)
        invariant ChangedTo(ws, windows, k, i, area, covered) && desktop == old(desktop)
      {
        BareNext(ws, k, i, area, covered);
        ChangedNext(ws, windows, k, i, area, covered);
        var nowEmpty;
        exposed, nowEmpty := ApplyExposure(i, exposed, covered);
        if nowEmpty {
          RestNothing(ws, desktop, windows, k, i + 1, area, covered);
          return;
        }
      }
      InvalidateDesktop(exposed, covered);
    }

    /** What stays hidden behind the windows in front of the k-th is left out. */
    method HiddenInFront(k: nat, area: Area) returns (exposed: Area)
      requires k < |windows|
      ensures exposed == area - Union(windows[..k])
    {
      exposed := area;
      for j := 0 to k
        invariant exposed == area - Union(windows[..j])
      {
        UnionSnoc(windows, j);
        exposed := exposed - windows[j].rgn;
        if exposed == {} {
          FrontNothing(windows, j + 1, k, area);
          return;
        }
      }
    }

    /** WmInvalidateExposedRegionOnWindow, for the desktop. */
    method InvalidateDesktop(exposed: Area, covered: bool)
      modifies this`desktop
      ensures desktop == Changed(old(desktop), exposed, covered)
    {
      var overlap := desktop.rgn * exposed;
      if overlap != {} {
        desktop := desktop.(vis := if covered then desktop.vis - overlap else desktop.vis + overlap,
                            dirty := desktop.dirty + overlap);
      } else {
        ChangedNothing(desktop, exposed, covered);
      }
    }

    /** The same, unless there is nothing to do. */
    method InvalidateIfAny(k: nat, area: Area, covered: bool)
      requires k < |windows|
      modifies this`windows, this`desktop
      ensures Invalidated(old(windows), old(desktop), windows, desktop, k, area, covered)
    {
      if area != {} {
        InvalidateExposedRegion(k, area, covered);
      } else {
        BareFirst(windows, k, area, covered);
        RestNothing(windows, desktop, windows, k, k + 1, area, covered);
      }
    }

    /** ClipOurVisibility: what can be seen is what no window in front covers. */
    method ClipOurVisibility(k: nat)
      requires k < |windows|
      modifies this`windows
      ensures windows == old(windows)[k := old(windows[k]).(vis := old(windows[k]).vis - Union(old(windows)[..k]))]
    {
      ghost var ws := windows;
      assert ws[k].vis - Union(ws[..0]) == ws[k].vis;
      for j := 0 to k
        invariant windows == ws[k := ws[k].(vis := ws[k].vis - Union(ws[..j]))]
      {
        UnionSnoc(ws, j);
        assert ws[k].vis - Union(ws[..j]) - ws[j].rgn == ws[k].vis - Union(ws[..j + 1]);
        windows := windows[k := windows[k].(vis := windows[k].vis - windows[j].rgn)];
        if windows[k].vis == {} {
          FrontNothing(ws, j + 1, k, ws[k].vis);
          break;
        }
      }
    }

    /** WmCreateWindow, on the desktop: a window in front of all others. */
    method CreateWindow(id: nat, local: Rect)
      requires Valid()
      modifies this`windows, this`desktop
      ensures Valid() && |windows| == |old(windows)| + 1
      ensures windows[0].id == id
      ensures windows[0].rgn == RectArea(local.(x := origin.x + local.x, y := origin.y + local.y))
      ensures windows[0].vis == windows[0].rgn == windows[0].dirty
      ensures forall i :: 0 <= i < |old(windows)| ==> Repainted(old(windows)[i], windows[i + 1])
      ensures Repainted(old(desktop), desktop)
    {
      hide Union, Changed, Bare, RectArea, Right;
      ghost var ws, d := windows, desktop;
      var area := RectArea(local.(x := origin.x + local.x, y := origin.y + local.y));
      windows := [Window(id, area, {}, {})] + windows;
      ghost var ws1 := windows;
      InvalidateIfAny(0, area, true);
      ghost var ws2 := windows;
      windows := windows[0 := Window(id, area, area, area)];
      ClipOurVisibility(0);
      CreatedRight(ws, d, ws1, ws2, desktop, windows);
    }

    /** WmRaiseToTop: the k-th window from the front comes to the front, and the others keep their order. */
    method RaiseToTop(k: nat)
      requires Valid() && k < |windows|
      modifies this`windows, this`desktop
      ensures Valid() && |windows| == |old(windows)| && Repainted(old(windows)[k], windows[0])
      ensures forall i :: 1 <= i <= k ==> Repainted(old(windows)[i - 1], windows[i])
      ensures forall i :: k < i < |windows| ==> Repainted(old(windows)[i], windows[i])
      ensures Repainted(old(desktop), desktop)
    {
      hide Union, Changed, Bare, Right;
      ghost var ws, d := windows, desktop;
      if k == 0 {
        return;
      }
      var win := windows[k];
      windows := [win] + windows[..k] + windows[k + 1..];
      windows := windows[0 := win.(vis := win.rgn)];
      NoneInFront(windows, win.rgn);
      ClipOurVisibility(0);
      ghost var ws1 := windows;
      var newlyVisible := windows[0].vis - win.vis;
      if newlyVisible != {} {
        windows := windows[0 := windows[0].(dirty := windows[0].dirty + newlyVisible)];
      }
      ghost var ws2 := windows;
      InvalidateExposedRegion(0, win.rgn, true);
      RaisedRight(ws, d, ws2, desktop, windows, k);
    }

    /** WmChangePosition, for a window on the desktop: the k-th from the front gets a new place. */
    method ChangePosition(k: nat, local: Rect)
      requires Valid() && k < |windows|
      modifies this`windows, this`desktop
      ensures Valid() && |windows| == |old(windows)|
      ensures windows[k].rgn == RectArea(local.(x := origin.x + local.x, y := origin.y + local.y))
      ensures windows[k].dirty == windows[k].rgn && windows[k].id == old(windows[k]).id
      ensures forall i :: 0 <= i < |windows| && i != k ==> Repainted(old(windows)[i], windows[i])
      ensures Repainted(old(desktop), desktop)
    {
      hide Union, Changed, Bare, RectArea, Right;
      ghost var ws, d := windows, desktop;
      var was := windows[k].rgn;
      var now := RectArea(local.(x := origin.x + local.x, y := origin.y + local.y));
      windows := windows[k := windows[k].(rgn := now)];
      ghost var ws1 := windows;
      InvalidateIfAny(k, was - now, false);
      ghost var ws2, d2 := windows, desktop;
      InvalidateIfAny(k, now - was, true);
      ghost var ws3, d3 := windows, desktop;
      windows := windows[k := windows[k].(dirty := now)];
      windows := windows[k := windows[k].(vis := now)];
      ClipOurVisibility(k);
      MovedRight(ws, d, ws1, ws2, d2, ws3, d3, windows, k, now);
    }
  }

  /** The same window in the same place, and what can newly be seen of it is to be painted. */
  predicate Repainted(was: Window, now: Window) {
    && now.id == was.id && now.rgn == was.rgn && was.dirty <= now.dirty && now.vis - was.vis <= now.dirty
  }

  /** A window was moved from one area to another: what it laid bare and what it covered come to just that. */
  lemma MovedArea(w: Area, front: Area, between: Area, was: Area, now: Area)
    ensures var vis := w - (front + was + between);
            var laid := vis + w * (((was - now) - front) - between);
            laid - w * ((now - was) - between) == w - (front + now + between)
  {
  }

  /** The steps of a move: the new place, what that lays bare, what it covers, and the window itself. */
  ghost predicate MoveSteps(ws: seq<Window>, d: Window, ws1: seq<Window>, ws2: seq<Window>, d2: Window,
                            ws3: seq<Window>, d3: Window, ws4: seq<Window>, k: nat, now: Area) {
    && k < |ws| && ws1 == ws[k := ws[k].(rgn := now)]
    && Invalidated(ws1, d, ws2, d2, k, ws[k].rgn - now, false)
    && |ws2| == |ws| && Invalidated(ws2, d2, ws3, d3, k, now - ws[k].rgn, true)
    && |ws4| == |ws3| && (forall i :: 0 <= i < |ws4| && i != k ==> ws4[i] == ws3[i])
    && ws4[k].rgn == now && ws4[k].vis == now - Union(ws3[..k])
  }

  lemma MovedRight(ws: seq<Window>, d: Window, ws1: seq<Window>, ws2: seq<Window>, d2: Window, ws3: seq<Window>,
                   d3: Window, ws4: seq<Window>, k: nat, now: Area)
    requires Right(ws, d) && MoveSteps(ws, d, ws1, ws2, d2, ws3, d3, ws4, k, now)
    ensures Right(ws4, d3) && Repainted(d, d3)
    ensures forall i :: 0 <= i < |ws| && i != k ==> Repainted(ws[i], ws4[i])
  {
    assert |ws4| == |ws|;
    hide *;
    forall i | 0 <= i < |ws|
      ensures ws4[i].vis == ws4[i].rgn - Union(ws4[..i]) && (i != k ==> Repainted(ws[i], ws4[i]))
    {
      MovedAt(ws, d, ws1, ws2, d2, ws3, d3, ws4, k, now, i);
    }
    MovedDesktop(ws, d, ws1, ws2, d2, ws3, d3, ws4, k, now);
    RightIs(ws4, d3);
  }

  lemma MovedSame(ws: seq<Window>, d: Window, ws1: seq<Window>, ws2: seq<Window>, d2: Window, ws3: seq<Window>,
                  d3: Window, ws4: seq<Window>, k: nat, now: Area)
    requires MoveSteps(ws, d, ws1, ws2, d2, ws3, d3, ws4, k, now)
    ensures SameRegions(ws1, ws2) && SameRegions(ws1, ws4)
  {
  }

  lemma MovedAt(ws: seq<Window>, d: Window, ws1: seq<Window>, ws2: seq<Window>, d2: Window, ws3: seq<Window>,
                d3: Window, ws4: seq<Window>, k: nat, now: Area, i: nat)
    requires Right(ws, d) && MoveSteps(ws, d, ws1, ws2, d2, ws3, d3, ws4, k, now) && i < |ws| == |ws4|
    ensures ws4[i].vis == ws4[i].rgn - Union(ws4[..i]) && (i != k ==> Repainted(ws[i], ws4[i]))
  {
    MovedSame(ws, d, ws1, ws2, d2, ws3, d3, ws4, k, now);
    hide Union, Changed, Bare;
    if i <= k {
      UnionSame(ws4[..i], ws[..i]);
      UnionSame(ws3[..i], ws[..i]);
    } else {
      MovedBehind(ws, ws1, ws2, ws4, k, i, now, ws[i], ws2[i], ws4[i]);
    }
  }

  lemma MovedDesktop(ws: seq<Window>, d: Window, ws1: seq<Window>, ws2: seq<Window>, d2: Window, ws3: seq<Window>,
                     d3: Window, ws4: seq<Window>, k: nat, now: Area)
    requires Right(ws, d) && MoveSteps(ws, d, ws1, ws2, d2, ws3, d3, ws4, k, now)
    ensures d3.vis == d3.rgn - Union(ws4) && Repainted(d, d3)
  {
    MovedSame(ws, d, ws1, ws2, d2, ws3, d3, ws4, k, now);
    hide Union, Changed, Bare;
    assert ws[..|ws|] == ws && ws4[..|ws|] == ws4;
    MovedBehind(ws, ws1, ws2, ws4, k, |ws|, now, d, d2, d3);
  }

  lemma RightIs(ws: seq<Window>, d: Window)
    requires forall i :: 0 <= i < |ws| ==> ws[i].vis == ws[i].rgn - Union(ws[..i])
    requires d.vis == d.rgn - Union(ws)
    ensures Right(ws, d)
  {
  }

  /** What is behind the window shows what it should, then. */
  lemma MovedBehind(ws: seq<Window>, ws1: seq<Window>, ws2: seq<Window>, ws4: seq<Window>, k: nat, i: nat, now: Area,
                    w: Window, w2: Window, w4: Window)
    requires k < i <= |ws| && |ws4| == |ws| && SameRegions(ws1, ws2) && SameRegions(ws1, ws4)
    requires ws1 == ws[k := ws[k].(rgn := now)] && w.vis == w.rgn - Union(ws[..i])
    requires w2 == Changed(w, Bare(ws1, k, i, ws[k].rgn - now, false), false)
    requires w4 == Changed(w2, Bare(ws2, k, i, now - ws[k].rgn, true), true)
    ensures w4.vis == w4.rgn - Union(ws4[..i]) && Repainted(w, w4)
  {
    UnionSplit(ws, k, i);
    UnionSplit(ws4, k, i);
    var front, between := Union(ws[..k]), Union(ws[k + 1..i]);
    UnionSame(ws1[..k], ws[..k]);
    UnionSame(ws4[..k], ws[..k]);
    UnionSame(ws1[k + 1..i], ws[k + 1..i]);
    UnionSame(ws2[k + 1..i], ws[k + 1..i]);
    UnionSame(ws4[k + 1..i], ws[k + 1..i]);
    MovedArea(w.rgn, front, between, ws[k].rgn, now);
  }

  /** A window in front covers an area: whether what is behind was counting it already or not, now it does. */
  lemma CoveredArea(w: Area, now: Area, between: Area, vis: Area)
    requires vis == w - between || vis == w - (now + between)
    ensures vis - w * (now - between) == w - (now + between)
  {
  }

  lemma CoveredBehind(ws: seq<Window>, ws': seq<Window>, i: nat, w: Window, w': Window)
    requires 0 < i <= |ws| && SameRegions(ws, ws') && w' == Changed(w, Bare(ws, 0, i, ws[0].rgn, true), true)
    requires w.vis == w.rgn - Union(ws[1..i]) || w.vis == w.rgn - Union(ws[..i])
    ensures w'.vis == w'.rgn - Union(ws'[..i]) && Repainted(w, w')
  {
    UnionSplit(ws, 0, i);
    UnionSame(ws[..i], ws'[..i]);
    CoveredArea(w.rgn, ws[0].rgn, Union(ws[1..i]), w.vis);
  }

  /** All behind a window in front that covers its whole area show what they should. */
  lemma CoveredRight(ws: seq<Window>, d: Window, ws': seq<Window>, d': Window, ws'': seq<Window>)
    requires ws != [] && Invalidated(ws, d, ws', d', 0, ws[0].rgn, true)
    requires |ws''| == |ws| && ws''[0].rgn == ws[0].rgn == ws''[0].vis
    requires forall i :: 1 <= i < |ws| ==> ws''[i] == ws'[i]
    requires forall i :: 1 <= i < |ws| ==>
               ws[i].vis == ws[i].rgn - Union(ws[1..i]) || ws[i].vis == ws[i].rgn - Union(ws[..i])
    requires d.vis == d.rgn - Union(ws[1..]) || d.vis == d.rgn - Union(ws)
    ensures Right(ws'', d') && Repainted(d, d') && forall i :: 1 <= i < |ws| ==> Repainted(ws[i], ws''[i])
  {
    assert SameRegions(ws, ws'');
    assert ws[1..|ws|] == ws[1..] && ws[..|ws|] == ws && ws''[..|ws|] == ws'';
    CoveredBehind(ws, ws'', |ws|, d, d');
    forall i | 0 <= i < |ws|
      ensures ws''[i].vis == ws''[i].rgn - Union(ws''[..i]) && (i > 0 ==> Repainted(ws[i], ws''[i]))
    {
      if i > 0 {
        CoveredBehind(ws, ws'', i, ws[i], ws''[i]);
      }
    }
    hide *;
    RightIs(ws'', d');
  }

  lemma CreatedRight(ws: seq<Window>, d: Window, ws1: seq<Window>, ws2: seq<Window>, d2: Window, ws3: seq<Window>)
    requires Right(ws, d) && |ws1| == |ws| + 1 && ws1[1..] == ws
    requires Invalidated(ws1, d, ws2, d2, 0, ws1[0].rgn, true) && |ws2| == |ws3| && ws2[1..] == ws3[1..]
    requires ws3[0].rgn == ws1[0].rgn && ws3[0].vis == ws3[0].rgn - Union(ws2[..0])
    ensures Right(ws3, d2) && Repainted(d, d2) && forall i :: 0 <= i < |ws| ==> Repainted(ws[i], ws3[i + 1])
    ensures ws3[0].vis == ws3[0].rgn
  {
    forall i | 1 <= i < |ws1|
      ensures ws1[i].vis == ws1[i].rgn - Union(ws1[1..i]) && ws3[i] == ws2[i]
    {
      assert ws1[i] == ws[i - 1] && ws1[1..i] == ws[..i - 1];
      assert ws2[1..][i - 1] == ws3[1..][i - 1];
    }
    assert ws3[0].vis == ws3[0].rgn;
    CoveredRight(ws1, d, ws2, d2, ws3);
    forall i | 0 <= i < |ws|
      ensures Repainted(ws[i], ws3[i + 1])
    {
      assert ws[i] == ws1[i + 1];
    }
  }

  lemma RaisedRight(ws: seq<Window>, d: Window, ws2: seq<Window>, d3: Window, ws3: seq<Window>, k: nat)
    requires Right(ws, d) && 0 < k < |ws| == |ws2| && ws2[1..] == ws[..k] + ws[k + 1..]
    requires ws2[0].rgn == ws[k].rgn == ws2[0].vis && Repainted(ws[k], ws2[0])
    requires Invalidated(ws2, d, ws3, d3, 0, ws[k].rgn, true)
    ensures Right(ws3, d3) && Repainted(d, d3) && |ws3| == |ws| && Repainted(ws[k], ws3[0])
    ensures forall i :: 1 <= i <= k ==> Repainted(ws[i - 1], ws3[i])
    ensures forall i :: k < i < |ws| ==> Repainted(ws[i], ws3[i])
  {
    hide *;
    forall i | 1 <= i < |ws|
      ensures ws2[i] == if i <= k then ws[i - 1] else ws[i]
      ensures ws2[i].vis == ws2[i].rgn - Union(ws2[1..i]) || ws2[i].vis == ws2[i].rgn - Union(ws2[..i])
    {
      RaisedAt(ws, ws2, k, i);
      RightAt(ws, d, if i <= k then i - 1 else i);
    }
    RaisedAt(ws, ws2, k, |ws|);
    assert ws[..|ws|] == ws && ws2[..|ws|] == ws2;
    RightAt(ws, d, 0);
    RaisedStarts(ws2, d, ws3, d3);
    CoveredRight(ws2, d, ws3, d3, ws3);
  }

  lemma RightAt(ws: seq<Window>, d: Window, k: nat)
    requires Right(ws, d) && k < |ws|
    ensures ws[k].vis == ws[k].rgn - Union(ws[..k]) && d.vis == d.rgn - Union(ws)
  {
  }

  lemma NoneInFront(ws: seq<Window>, area: Area)
    ensures area - Union(ws[..0]) == area
  {
  }

  lemma RaisedStarts(ws: seq<Window>, d: Window, ws': seq<Window>, d': Window)
    requires ws != [] && Invalidated(ws, d, ws', d', 0, ws[0].rgn, true)
    ensures |ws'| == |ws| && ws'[0] == ws[0]
  {
  }

  /** Where each of the others is once the k-th has come to the front, and what is in front of it. */
  lemma RaisedAt(ws: seq<Window>, ws2: seq<Window>, k: nat, i: nat)
    requires 0 < k < |ws| == |ws2| && ws2[1..] == ws[..k] + ws[k + 1..] && ws2[0].rgn == ws[k].rgn && 1 <= i <= |ws|
    ensures i < |ws| ==> ws2[i] == if i <= k then ws[i - 1] else ws[i]
    ensures if i <= k then Union(ws2[1..i]) == Union(ws[..i - 1]) else Union(ws2[..i]) == Union(ws[..i])
  {
    hide Union;
    assert i < |ws| ==> ws2[i] == ws2[1..][i - 1];
    assert ws2[1..i] == ws2[1..][..i - 1];
    if i <= k {
      assert ws2[1..i] == ws[..i - 1];
    } else {
      assert ws2[1..i] == ws[..k] + ws[k + 1..i];
      UnionSplit(ws, k, i);
      UnionSplit(ws2, 0, i);
      UnionJoin(ws[..k], ws[k + 1..i]);
      assert Union(ws2[..0]) == {} by { NoneInFront(ws2, Union(ws2[..0])); }
    }
  }

  lemma FrontNothing(ws: seq<Window>, j: nat, k: nat, area: Area)
    requires j <= k <= |ws| && area - Union(ws[..j]) == {}
    ensures area - Union(ws[..k]) == {}
  {
    assert ws[..k] == ws[..j] + ws[j..k];
    UnionJoin(ws[..j], ws[j..k]);
  }
}
