/** Reference counts against what there is to count: who names each origin and each page, and how many held frames
    make a page busy. */
module VmmRefs {
  import opened VmmStates

  // ---- Sums ----

  function Sum(ws: seq<nat>): nat {
    if ws == [] then 0 else Sum(ws[..|ws| - 1]) + ws[|ws| - 1]
  }

  lemma {:induction false} SumUpdate(ws: seq<nat>, i: nat, w: nat)
    requires i < |ws|
    ensures Sum(ws[i := w]) + ws[i] == Sum(ws) + w
  {
    var n := |ws| - 1;
    if i < n {
      SumUpdate(ws[..n], i, w);
      assert ws[i := w][..n] == ws[..n][i := w];
    } else {
      assert ws[i := w][..n] == ws[..n];
    }
  }

  lemma {:induction false} SumAtLeast(ws: seq<nat>, i: nat)
    requires i < |ws|
    ensures ws[i] <= Sum(ws)
  {
    if i < |ws| - 1 {
      SumAtLeast(ws[..|ws| - 1], i);
    }
  }

  lemma {:induction false} SumZero(ws: seq<nat>)
    requires forall i :: 0 <= i < |ws| ==> ws[i] == 0
    ensures Sum(ws) == 0
  {
    if ws != [] {
      SumZero(ws[..|ws| - 1]);
    }
  }

  // ---- What is counted ----

  function One(b: bool): nat {
    if b then 1 else 0
  }

  /** Pages that wait for origin x. */
  function WaitW(vps: seq<Vp>, x: nat): (ws: seq<nat>)
    ensures |ws| == |vps| && forall i :: 0 <= i < |ws| ==> ws[i] == One(vps[i].place == Absent(x))
  {
    seq(|vps|, i requires 0 <= i < |vps| => One(vps[i].place == Absent(x)))
  }

  /** Frames that belong to origin x. */
  function OwnedW(frames: seq<Frame>, x: nat): (ws: seq<nat>)
    ensures |ws| == |frames| && forall i :: 0 <= i < |ws| ==> ws[i] == One(frames[i].origin == Some(x))
  {
    seq(|frames|, i requires 0 <= i < |frames| => One(frames[i].origin == Some(x)))
  }

  /** Handlers in flight that hold origin x. */
  function HolderW(actors: seq<Phase>, x: nat): (ws: seq<nat>)
    ensures |ws| == |actors| && forall i :: 0 <= i < |ws| ==> ws[i] == One(OriginHeld(actors[i]) == Some(x))
  {
    seq(|actors|, i requires 0 <= i < |actors| => One(OriginHeld(actors[i]) == Some(x)))
  }

  /** Slots that name page x. */
  function SlotW(slots: seq<Link>, x: nat): (ws: seq<nat>)
    ensures |ws| == |slots| && forall i :: 0 <= i < |ws| ==> ws[i] == One(slots[i] == Some(x))
  {
    seq(|slots|, i requires 0 <= i < |slots| => One(slots[i] == Some(x)))
  }

  /** Frames that list page x as their user. */
  function UserW(frames: seq<Frame>, x: nat): (ws: seq<nat>)
    ensures |ws| == |frames| && forall i :: 0 <= i < |ws| ==> ws[i] == One(frames[i].user == Some(x))
  {
    seq(|frames|, i requires 0 <= i < |frames| => One(frames[i].user == Some(x)))
  }

  function PageWeight(p: Phase, x: nat): nat {
    if VpHeld(p) == Some(x) then VpHolds(p) else 0
  }

  /** References to page x held in flight. */
  function InFlightW(actors: seq<Phase>, x: nat): (ws: seq<nat>)
    ensures |ws| == |actors| && forall i :: 0 <= i < |ws| ==> ws[i] == PageWeight(actors[i], x)
  {
    seq(|actors|, i requires 0 <= i < |actors| => PageWeight(actors[i], x))
  }

  predicate CoversUser(fr: Frame, x: nat) {
    fr.covered && fr.user == Some(x)
  }

  /** Frames in a critical section that covers page x. */
  function CoverW(frames: seq<Frame>, x: nat): (ws: seq<nat>)
    ensures |ws| == |frames| && forall i :: 0 <= i < |ws| ==> ws[i] == One(CoversUser(frames[i], x))
  {
    seq(|frames|, i requires 0 <= i < |frames| => One(CoversUser(frames[i], x)))
  }

  // ---- Counts against them ----

  function OriginNames(st: State, x: nat): nat {
    Sum(WaitW(st.vps, x)) + Sum(OwnedW(st.frames, x)) + Sum(HolderW(st.actors, x))
  }

  function VpNames(st: State, x: nat): nat {
    Sum(SlotW(st.slots, x)) + Sum(UserW(st.frames, x)) + Sum(InFlightW(st.actors, x))
  }

  function Covering(st: State, x: nat): nat {
    Sum(CoverW(st.frames, x))
  }

  function OriginSlack(st: State, x: nat): int {
    (if x < |st.originRefs| then st.originRefs[x] else 0) - OriginNames(st, x)
  }

  function VpSlack(st: State, x: nat): int {
    (if x < |st.vpRefs| then st.vpRefs[x] else 0) - VpNames(st, x)
  }

  function BusySlack(st: State, x: nat): int {
    (if x < |st.vps| then st.vps[x].busy else 0) - Covering(st, x)
  }

  /** A page is freed exactly when its count is zero. */
  predicate FreedAt(st: State, x: nat) {
    x < |st.vps| && x < |st.vpRefs| ==> st.vpRefs[x] >= 0 && (st.vps[x].place == Gone <==> st.vpRefs[x] == 0)
  }

  /** Origin x's and page x's counts are exact, except that page v's is n above what names it. */
  predicate OwedAt(st: State, v: nat, n: int, x: nat) {
    OriginSlack(st, x) == 0 && VpSlack(st, x) == (if x == v then n else 0) && BusySlack(st, x) == 0 && FreedAt(st, x)
  }

  ghost predicate Owed(st: State, v: nat, n: int) {
    forall x: nat {:trigger OwedAt(st, v, n, x)} :: OwedAt(st, v, n, x)
  }

  predicate Even(st: State, x: nat) {
    OriginSlack(st, x) == 0 && VpSlack(st, x) == 0 && BusySlack(st, x) == 0 && FreedAt(st, x)
  }

  /** Every reference count is what names its object, a page is freed exactly at zero, and is as busy as the held
      frames that list it. */
  ghost predicate Balanced(st: State) {
    forall x: nat {:trigger Even(st, x)} :: Even(st, x)
  }

  // ---- What each small update does to the difference ----

  lemma SetActorOff(st: State, a: nat, p: Phase, x: nat)
    requires a < |st.actors|
    ensures OriginSlack(SetActor(st, a, p), x) ==
        OriginSlack(st, x) + One(OriginHeld(st.actors[a]) == Some(x)) - One(OriginHeld(p) == Some(x))
    ensures VpSlack(SetActor(st, a, p), x) == VpSlack(st, x) + PageWeight(st.actors[a], x) - PageWeight(p, x)
    ensures BusySlack(SetActor(st, a, p), x) == BusySlack(st, x)
  {
    var st' := SetActor(st, a, p);
    SumUpdate(HolderW(st.actors, x), a, One(OriginHeld(p) == Some(x)));
    SumUpdate(InFlightW(st.actors, x), a, PageWeight(p, x));
    assert HolderW(st'.actors, x) == HolderW(st.actors, x)[a := One(OriginHeld(p) == Some(x))];
    assert InFlightW(st'.actors, x) == InFlightW(st.actors, x)[a := PageWeight(p, x)];
  }

  lemma SetFrameOff(st: State, f: nat, fr: Frame, x: nat)
    requires f < |st.frames|
    ensures OriginSlack(SetFrame(st, f, fr), x) ==
        OriginSlack(st, x) + One(st.frames[f].origin == Some(x)) - One(fr.origin == Some(x))
    ensures VpSlack(SetFrame(st, f, fr), x) ==
        VpSlack(st, x) + One(st.frames[f].user == Some(x)) - One(fr.user == Some(x))
    ensures BusySlack(SetFrame(st, f, fr), x) ==
        BusySlack(st, x) + One(CoversUser(st.frames[f], x)) - One(CoversUser(fr, x))
  {
    var st' := SetFrame(st, f, fr);
    SumUpdate(OwnedW(st.frames, x), f, One(fr.origin == Some(x)));
    SumUpdate(UserW(st.frames, x), f, One(fr.user == Some(x)));
    SumUpdate(CoverW(st.frames, x), f, One(CoversUser(fr, x)));
    assert OwnedW(st'.frames, x) == OwnedW(st.frames, x)[f := One(fr.origin == Some(x))];
    assert UserW(st'.frames, x) == UserW(st.frames, x)[f := One(fr.user == Some(x))];
    assert CoverW(st'.frames, x) == CoverW(st.frames, x)[f := One(CoversUser(fr, x))];
  }

  lemma SetVpOff(st: State, u: nat, vp: Vp, x: nat)
    requires u < |st.vps|
    ensures OriginSlack(SetVp(st, u, vp), x) ==
        OriginSlack(st, x) + One(st.vps[u].place == Absent(x)) - One(vp.place == Absent(x))
    ensures VpSlack(SetVp(st, u, vp), x) == VpSlack(st, x)
    ensures BusySlack(SetVp(st, u, vp), x) == BusySlack(st, x) + (if x == u then vp.busy - st.vps[u].busy else 0)
  {
    var st' := SetVp(st, u, vp);
    SumUpdate(WaitW(st.vps, x), u, One(vp.place == Absent(x)));
    assert WaitW(st'.vps, x) == WaitW(st.vps, x)[u := One(vp.place == Absent(x))];
  }

  lemma EmptySlotOff(st: State, s: nat, x: nat)
    requires s < |st.slots|
    ensures OriginSlack(st.(slots := st.slots[s := None]), x) == OriginSlack(st, x)
    ensures VpSlack(st.(slots := st.slots[s := None]), x) == VpSlack(st, x) + One(st.slots[s] == Some(x))
    ensures BusySlack(st.(slots := st.slots[s := None]), x) == BusySlack(st, x)
  {
    SumUpdate(SlotW(st.slots, x), s, 0);
    assert SlotW(st.slots[s := None], x) == SlotW(st.slots, x)[s := 0];
  }

  lemma SetOriginOff(st: State, u: nat, or: Origin, x: nat)
    requires u < |st.origins|
    ensures OriginSlack(SetOrigin(st, u, or), x) == OriginSlack(st, x)
    ensures VpSlack(SetOrigin(st, u, or), x) == VpSlack(st, x)
    ensures BusySlack(SetOrigin(st, u, or), x) == BusySlack(st, x)
  {
  }

  lemma RefOriginOff(st: State, u: nat, n: int, x: nat)
    requires u < |st.originRefs|
    ensures OriginSlack(RefOrigin(st, u, n), x) == OriginSlack(st, x) + (if x == u then n else 0)
    ensures VpSlack(RefOrigin(st, u, n), x) == VpSlack(st, x)
    ensures BusySlack(RefOrigin(st, u, n), x) == BusySlack(st, x)
  {
  }

  lemma RefVpOff(st: State, u: nat, n: int, x: nat)
    requires u < |st.vpRefs|
    ensures OriginSlack(RefVp(st, u, n), x) == OriginSlack(st, x)
    ensures VpSlack(RefVp(st, u, n), x) == VpSlack(st, x) + (if x == u then n else 0)
    ensures BusySlack(RefVp(st, u, n), x) == BusySlack(st, x)
  {
  }
}
