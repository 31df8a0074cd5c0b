/** Each step's effect on who names whom. */
module VmmSteps {
  import opened VmmStates
  import opened VmmShape

  /** Busy counts play no part in it. */
  lemma BusyShape(st: State, v: nat, busy: nat)
    requires Shape(st) && v < |st.vps|
    ensures Shape(SetVp(st, v, st.vps[v].(busy := busy)))
  {
    var st' := SetVp(st, v, st.vps[v].(busy := busy));
    forall f | 0 <= f < |st'.frames| ensures FrameOk(st', f) { assert FrameOk(st, f); }
    forall o | 0 <= o < |st'.origins| ensures OriginOk(st', o) { assert OriginOk(st, o); }
    forall x | 0 <= x < |st'.vps| ensures VpOk(st', x) { assert VpOk(st, x); }
    forall s | 0 <= s < |st'.slots| ensures SlotOk(st', s) { assert SlotOk(st, s); }
    forall x | 0 <= x < |st'.actors|
      ensures HoldsOk(st', x) && PlaceOk(st', x)
    {
      assert HoldsOk(st, x) && PlaceOk(st, x);
    }
  }

  /** Nor do reference counts. */
  lemma RefsShape(st: State, vpRefs: seq<int>, originRefs: seq<int>)
    requires Shape(st)
    ensures Shape(st.(vpRefs := vpRefs, originRefs := originRefs))
  {
    var st' := st.(vpRefs := vpRefs, originRefs := originRefs);
    forall f | 0 <= f < |st'.frames| ensures FrameOk(st', f) { assert FrameOk(st, f); }
    forall o | 0 <= o < |st'.origins| ensures OriginOk(st', o) { assert OriginOk(st, o); }
    forall x | 0 <= x < |st'.vps| ensures VpOk(st', x) { assert VpOk(st, x); }
    forall s | 0 <= s < |st'.slots| ensures SlotOk(st', s) { assert SlotOk(st, s); }
    forall x | 0 <= x < |st'.actors|
      ensures HoldsOk(st', x) && PlaceOk(st', x)
    {
      assert HoldsOk(st, x) && PlaceOk(st, x);
    }
  }

  /** Past the point where a discard or a release has taken the frame's user off it. */
  predicate Late(p: Phase) {
    p.DUnmapped? || p.DCleared? || p.DLeft? || p.RUnlinked?
  }

  /** An actor moves on without taking or letting go of anything. */
  lemma MoveShape(st: State, a: nat, p: Phase)
    requires Shape(st) && a < |st.actors|
    requires LockHeld(p) == LockHeld(st.actors[a]) && Covers(p) == Covers(st.actors[a])
    requires MutexHeld(p) == None && MutexHeld(st.actors[a]) == None && Owns(p) == None && Owns(st.actors[a]) == None
    requires HoldsOk(SetActor(st, a, p), a) && PlaceOk(SetActor(st, a, p), a)
    requires !Late(st.actors[a]) && !Late(p)
    ensures Shape(SetActor(st, a, p))
  {
    assert HoldsOk(st, a) && PlaceOk(st, a);
    var st' := SetActor(st, a, p);
    forall f | 0 <= f < |st'.frames| ensures FrameOk(st', f) { assert FrameOk(st, f); }
    forall o | 0 <= o < |st'.origins| ensures OriginOk(st', o) { assert OriginOk(st, o); }
    forall v | 0 <= v < |st'.vps| ensures VpOk(st', v) { assert VpOk(st, v); }
    forall s | 0 <= s < |st'.slots| ensures SlotOk(st', s) { assert SlotOk(st, s); }
    forall x | 0 <= x < |st'.actors|
      ensures HoldsOk(st', x) && PlaceOk(st', x)
    {
      assert HoldsOk(st, x) && PlaceOk(st, x);
    }
  }

  function Locked(st: State, a: nat, f: nat, p: Phase): State
    requires a < |st.actors| && f < |st.frames|
  {
    SetActor(SetFrame(st, f, st.frames[f].(lock := Some(a), covered := true)), a, p)
  }

  function Unlocked(st: State, a: nat, f: nat): State
    requires a < |st.actors| && f < |st.frames|
  {
    SetActor(SetFrame(st, f, st.frames[f].(lock := None, covered := false)), a, Idle)
  }

  lemma LockFrames(st: State, a: nat, f0: nat, p: Phase)
    requires Shape(st) && a < |st.actors| && FrameFree(st, f0)
    requires LockHeld(st.actors[a]) == None && MutexHeld(st.actors[a]) == None && Owns(st.actors[a]) == None
    requires LockHeld(p) == Some(f0) && Covers(p) == Some(f0) && MutexHeld(p) == None && Owns(p) == None
    requires p.FEntered? || p.DEntered? || p.REntered?
    requires OriginHeld(p).Some? ==> OriginHeld(p).id < |st.origins| && !st.origins[OriginHeld(p).id].fixed
    requires VpHeld(p).Some? ==> VpHeld(p).id < |st.vps|
    ensures FramesOk(Locked(st, a, f0, p))
  {
    assert FrameOk(st, f0) && HoldsOk(st, a);
    var st' := Locked(st, a, f0, p);
    forall f | 0 <= f < |st'.frames| ensures FrameOk(st', f) { assert FrameOk(st, f); }
  }

  lemma LockHolds(st: State, a: nat, f0: nat, p: Phase, x: nat)
    requires Shape(st) && a < |st.actors| && FrameFree(st, f0)
    requires LockHeld(st.actors[a]) == None && MutexHeld(st.actors[a]) == None && Owns(st.actors[a]) == None
    requires LockHeld(p) == Some(f0) && Covers(p) == Some(f0) && MutexHeld(p) == None && Owns(p) == None
    requires p.FEntered? || p.DEntered? || p.REntered?
    requires OriginHeld(p).Some? ==> OriginHeld(p).id < |st.origins| && !st.origins[OriginHeld(p).id].fixed
    requires VpHeld(p).Some? ==> VpHeld(p).id < |st.vps|
    requires x < |st.actors|
    ensures HoldsOk(Locked(st, a, f0, p), x)
  {
    assert FrameOk(st, f0) && HoldsOk(st, a);
    assert HoldsOk(st, x) && PlaceOk(st, x); assert x != a ==> LockHeld(st.actors[x]) != Some(f0);
  }

  lemma LockPlaces(st: State, a: nat, f0: nat, p: Phase, x: nat)
    requires Shape(st) && a < |st.actors| && FrameFree(st, f0)
    requires LockHeld(st.actors[a]) == None && MutexHeld(st.actors[a]) == None && Owns(st.actors[a]) == None
    requires LockHeld(p) == Some(f0) && Covers(p) == Some(f0) && MutexHeld(p) == None && Owns(p) == None
    requires p.FEntered? || p.DEntered? || p.REntered?
    requires OriginHeld(p).Some? ==> OriginHeld(p).id < |st.origins| && !st.origins[OriginHeld(p).id].fixed
    requires VpHeld(p).Some? ==> VpHeld(p).id < |st.vps|
    requires x < |st.actors|
    ensures PlaceOk(Locked(st, a, f0, p), x)
  {
    assert FrameOk(st, f0) && HoldsOk(st, a);
    assert HoldsOk(st, x) && PlaceOk(st, x); assert x != a ==> LockHeld(st.actors[x]) != Some(f0);
  }

  lemma LockActors(st: State, a: nat, f0: nat, p: Phase)
    requires Shape(st) && a < |st.actors| && FrameFree(st, f0)
    requires LockHeld(st.actors[a]) == None && MutexHeld(st.actors[a]) == None && Owns(st.actors[a]) == None
    requires LockHeld(p) == Some(f0) && Covers(p) == Some(f0) && MutexHeld(p) == None && Owns(p) == None
    requires p.FEntered? || p.DEntered? || p.REntered?
    requires OriginHeld(p).Some? ==> OriginHeld(p).id < |st.origins| && !st.origins[OriginHeld(p).id].fixed
    requires VpHeld(p).Some? ==> VpHeld(p).id < |st.vps|
    ensures ActorsOk(Locked(st, a, f0, p))
  {
    hide HoldsOk, PlaceOk;
    forall x | 0 <= x < |st.actors| ensures HoldsOk(Locked(st, a, f0, p), x) && PlaceOk(Locked(st, a, f0, p), x) {
      LockHolds(st, a, f0, p, x);
      LockPlaces(st, a, f0, p, x);
    }
  }

  /** Taking a frame's lock. */
  lemma LockShape(st: State, a: nat, f0: nat, p: Phase)
    requires Shape(st) && a < |st.actors| && FrameFree(st, f0)
    requires LockHeld(st.actors[a]) == None && MutexHeld(st.actors[a]) == None && Owns(st.actors[a]) == None
    requires LockHeld(p) == Some(f0) && Covers(p) == Some(f0) && MutexHeld(p) == None && Owns(p) == None
    requires p.FEntered? || p.DEntered? || p.REntered?
    requires OriginHeld(p).Some? ==> OriginHeld(p).id < |st.origins| && !st.origins[OriginHeld(p).id].fixed
    requires VpHeld(p).Some? ==> VpHeld(p).id < |st.vps|
    ensures Shape(Locked(st, a, f0, p))
  {
    LockFrames(st, a, f0, p);
    LockActors(st, a, f0, p);
    assert FrameOk(st, f0) && HoldsOk(st, a);
    var st' := Locked(st, a, f0, p);
    forall o | 0 <= o < |st'.origins| ensures OriginOk(st', o) { assert OriginOk(st, o); }
    forall v | 0 <= v < |st'.vps| ensures VpOk(st', v) { assert VpOk(st, v); }
    forall s | 0 <= s < |st'.slots| ensures SlotOk(st', s) { assert SlotOk(st, s); }
  }

  lemma UnlockFrames(st: State, a: nat, f0: nat)
    requires Shape(st) && a < |st.actors| && f0 < |st.frames|
    requires st.actors[a].FDone? || st.actors[a].DEntered? || st.actors[a].REntered?
    requires LockHeld(st.actors[a]) == Some(f0)
    ensures FramesOk(Unlocked(st, a, f0))
  {
    assert FrameOk(st, f0) && HoldsOk(st, a);
    var st' := Unlocked(st, a, f0);
    forall f | 0 <= f < |st'.frames| ensures FrameOk(st', f) { assert FrameOk(st, f); }
  }

  lemma UnlockActors(st: State, a: nat, f0: nat)
    requires Shape(st) && a < |st.actors| && f0 < |st.frames|
    requires st.actors[a].FDone? || st.actors[a].DEntered? || st.actors[a].REntered?
    requires LockHeld(st.actors[a]) == Some(f0)
    ensures ActorsOk(Unlocked(st, a, f0))
  {
    assert FrameOk(st, f0) && HoldsOk(st, a);
    var st' := Unlocked(st, a, f0);
    forall x | 0 <= x < |st'.actors|
      ensures HoldsOk(st', x) && PlaceOk(st', x)
    {
      assert HoldsOk(st, x) && PlaceOk(st, x);
    }
  }

  /** Letting go of a frame's lock. */
  lemma UnlockShape(st: State, a: nat, f0: nat)
    requires Shape(st) && a < |st.actors| && f0 < |st.frames|
    requires st.actors[a].FDone? || st.actors[a].DEntered? || st.actors[a].REntered?
    requires LockHeld(st.actors[a]) == Some(f0)
    ensures Shape(Unlocked(st, a, f0))
  {
    UnlockFrames(st, a, f0);
    UnlockActors(st, a, f0);
    assert FrameOk(st, f0) && HoldsOk(st, a);
    var st' := Unlocked(st, a, f0);
    forall o | 0 <= o < |st'.origins| ensures OriginOk(st', o) { assert OriginOk(st, o); }
    forall v | 0 <= v < |st'.vps| ensures VpOk(st', v) { assert VpOk(st, v); }
    forall s | 0 <= s < |st'.slots| ensures SlotOk(st', s) { assert SlotOk(st, s); }
  }

  /** A new page waits for an origin of its own. */
  lemma CreateShape(st: State, s0: nat, fixed: bool, file: bool)
    requires Shape(st) && s0 < |st.slots| && st.slots[s0] == None
    ensures Shape(CreateStep(st, s0, fixed, file))
  {
    var st' := CreateStep(st, s0, fixed, file);
    forall f | 0 <= f < |st'.frames| ensures FrameOk(st', f) { assert FrameOk(st, f); }
    forall o | 0 <= o < |st'.origins| ensures OriginOk(st', o) { if o < |st.origins| { assert OriginOk(st, o); } }
    forall v | 0 <= v < |st'.vps| ensures VpOk(st', v) { if v < |st.vps| { assert VpOk(st, v); } }
    forall s | 0 <= s < |st'.slots| ensures SlotOk(st', s) { assert SlotOk(st, s); }
    forall x | 0 <= x < |st'.actors|
      ensures HoldsOk(st', x) && PlaceOk(st', x)
    {
      assert HoldsOk(st, x) && PlaceOk(st, x);
    }
    forall v, w | 0 <= v < w < |st'.vps| ensures st'.vps[v].own != st'.vps[w].own { assert VpOk(st, v); }
  }

  /** A fixed page is present for good. */
  lemma FixShape(st: State, v0: nat)
    requires Shape(st) && v0 < |st.vps| && st.vps[v0].place.Absent? && st.vps[v0].fixed
    ensures Shape(SetVp(st, v0, st.vps[v0].(place := OnFixed)))
  {
    assert VpOk(st, v0);
    forall f | 0 <= f < |st.frames| ensures st.frames[f].user != Some(v0) { assert FrameOk(st, f); }
    var st' := SetVp(st, v0, st.vps[v0].(place := OnFixed));
    forall f | 0 <= f < |st'.frames| ensures FrameOk(st', f) { assert FrameOk(st, f); }
    forall o | 0 <= o < |st'.origins| ensures OriginOk(st', o) { assert OriginOk(st, o); }
    forall v | 0 <= v < |st'.vps| ensures VpOk(st', v) { assert VpOk(st, v); }
    forall s | 0 <= s < |st'.slots| ensures SlotOk(st', s) { assert SlotOk(st, s); }
    forall x | 0 <= x < |st'.actors|
      ensures HoldsOk(st', x) && PlaceOk(st', x)
    {
      assert HoldsOk(st, x) && PlaceOk(st, x);
    }
  }

  lemma TakeMutexActors(st: State, a: nat, s0: nat, o0: nat)
    requires Shape(st) && a < |st.actors| && o0 < |st.origins| && st.actors[a] == FLoad(s0, o0)
    requires st.origins[o0].mutex == None && st.origins[o0].phys == None
    ensures ActorsOk(SetActor(SetOrigin(st, o0, st.origins[o0].(mutex := Some(a))), a, FLocked(s0, o0)))
  {
    assert OriginOk(st, o0) && HoldsOk(st, a);
    var st' := SetActor(SetOrigin(st, o0, st.origins[o0].(mutex := Some(a))), a, FLocked(s0, o0));
    forall x | 0 <= x < |st'.actors|
      ensures HoldsOk(st', x) && PlaceOk(st', x)
    {
      assert HoldsOk(st, x) && PlaceOk(st, x);
    }
  }

  /** Taking an origin's mutex, with the second look at it. */
  lemma TakeMutexShape(st: State, a: nat, s0: nat, o0: nat)
    requires Shape(st) && a < |st.actors| && o0 < |st.origins| && st.actors[a] == FLoad(s0, o0)
    requires st.origins[o0].mutex == None && st.origins[o0].phys == None
    ensures Shape(SetActor(SetOrigin(st, o0, st.origins[o0].(mutex := Some(a))), a, FLocked(s0, o0)))
  {
    TakeMutexActors(st, a, s0, o0);
    assert OriginOk(st, o0) && HoldsOk(st, a);
    var st' := SetActor(SetOrigin(st, o0, st.origins[o0].(mutex := Some(a))), a, FLocked(s0, o0));
    forall f | 0 <= f < |st'.frames| ensures FrameOk(st', f) { assert FrameOk(st, f); }
    forall o | 0 <= o < |st'.origins| ensures OriginOk(st', o) { assert OriginOk(st, o); }
    forall v | 0 <= v < |st'.vps| ensures VpOk(st', v) { assert VpOk(st, v); }
    forall s | 0 <= s < |st'.slots| ensures SlotOk(st', s) { assert SlotOk(st, s); }
  }

  lemma AllocFrames(st: State, a: nat, s0: nat, o0: nat, f0: nat)
    requires Shape(st) && a < |st.actors| && f0 < |st.frames| && st.actors[a] == FLocked(s0, o0) && !st.frames[f0].taken
    ensures FramesOk(AllocStep(st, a, s0, o0, f0))
  {
    assert FrameOk(st, f0) && HoldsOk(st, a);
    var st' := AllocStep(st, a, s0, o0, f0);
    forall f | 0 <= f < |st'.frames| ensures FrameOk(st', f) { assert FrameOk(st, f); }
  }

  lemma AllocActors(st: State, a: nat, s0: nat, o0: nat, f0: nat)
    requires Shape(st) && a < |st.actors| && f0 < |st.frames| && st.actors[a] == FLocked(s0, o0) && !st.frames[f0].taken
    ensures ActorsOk(AllocStep(st, a, s0, o0, f0))
  {
    assert FrameOk(st, f0) && HoldsOk(st, a);
    var st' := AllocStep(st, a, s0, o0, f0);
    forall x | 0 <= x < |st'.actors|
      ensures HoldsOk(st', x) && PlaceOk(st', x)
    {
      assert HoldsOk(st, x) && PlaceOk(st, x);
    }
  }

  /** A free frame is taken, known to this actor alone. */
  lemma AllocShape(st: State, a: nat, s0: nat, o0: nat, f0: nat)
    requires Shape(st) && a < |st.actors| && f0 < |st.frames| && st.actors[a] == FLocked(s0, o0) && !st.frames[f0].taken
    ensures Shape(AllocStep(st, a, s0, o0, f0))
  {
    AllocFrames(st, a, s0, o0, f0);
    AllocActors(st, a, s0, o0, f0);
    assert FrameOk(st, f0) && HoldsOk(st, a);
    var st' := AllocStep(st, a, s0, o0, f0);
    forall o | 0 <= o < |st'.origins| ensures OriginOk(st', o) { assert OriginOk(st, o); }
    forall v | 0 <= v < |st'.vps| ensures VpOk(st', v) { assert VpOk(st, v); }
    forall s | 0 <= s < |st'.slots| ensures SlotOk(st', s) { assert SlotOk(st, s); }
  }

  lemma AdoptActors(st: State, a: nat, s0: nat, o0: nat, f0: nat)
    requires Shape(st) && a < |st.actors| && f0 < |st.frames| && st.actors[a] == FFrame(s0, o0, f0)
        && st.frames[f0].lock == None
    ensures ActorsOk(SetActor(SetFrame(st, f0,
        st.frames[f0].(origin := Some(o0), wired := 0, dirty := false, owner := None)), a, FAdopted(s0, o0, f0)))
  {
    assert FrameOk(st, f0) && HoldsOk(st, a);
    var st' := SetActor(SetFrame(st, f0,
        st.frames[f0].(origin := Some(o0), wired := 0, dirty := false, owner := None)), a, FAdopted(s0, o0, f0));
    forall x | 0 <= x < |st'.actors|
      ensures HoldsOk(st', x) && PlaceOk(st', x)
    {
      assert HoldsOk(st, x) && PlaceOk(st, x);
    }
  }

  /** The loaded frame becomes its origin's; the origin does not name it yet. */
  lemma AdoptShape(st: State, a: nat, s0: nat, o0: nat, f0: nat)
    requires Shape(st) && a < |st.actors| && f0 < |st.frames| && st.actors[a] == FFrame(s0, o0, f0)
        && st.frames[f0].lock == None
    ensures Shape(SetActor(SetFrame(st, f0,
        st.frames[f0].(origin := Some(o0), wired := 0, dirty := false, owner := None)), a, FAdopted(s0, o0, f0)))
  {
    AdoptActors(st, a, s0, o0, f0);
    assert FrameOk(st, f0) && HoldsOk(st, a);
    var st' := SetActor(SetFrame(st, f0,
        st.frames[f0].(origin := Some(o0), wired := 0, dirty := false, owner := None)), a, FAdopted(s0, o0, f0));
    forall f | 0 <= f < |st'.frames| ensures FrameOk(st', f) { assert FrameOk(st, f); }
    forall o | 0 <= o < |st'.origins| ensures OriginOk(st', o) { assert OriginOk(st, o); }
    forall v | 0 <= v < |st'.vps| ensures VpOk(st', v) { assert VpOk(st, v); }
    forall s | 0 <= s < |st'.slots| ensures SlotOk(st', s) { assert SlotOk(st, s); }
  }

  lemma PublishActors(st: State, a: nat, s0: nat, o0: nat, f0: nat)
    requires Shape(st) && a < |st.actors| && o0 < |st.origins| && st.actors[a] == FAdopted(s0, o0, f0)
    ensures ActorsOk(SetActor(SetOrigin(st, o0, st.origins[o0].(phys := Some(f0), mutex := None)), a, Idle))
  {
    assert HoldsOk(st, a) && PlaceOk(st, a) && OriginOk(st, o0) && FrameOk(st, f0);
    var st' := SetActor(SetOrigin(st, o0, st.origins[o0].(phys := Some(f0), mutex := None)), a, Idle);
    forall x | 0 <= x < |st'.actors|
      ensures HoldsOk(st', x) && PlaceOk(st', x)
    {
      assert HoldsOk(st, x) && PlaceOk(st, x);
    }
  }

  /** The origin names its frame. */
  lemma PublishShape(st: State, a: nat, s0: nat, o0: nat, f0: nat)
    requires Shape(st) && a < |st.actors| && o0 < |st.origins| && st.actors[a] == FAdopted(s0, o0, f0)
    ensures Shape(SetActor(SetOrigin(st, o0, st.origins[o0].(phys := Some(f0), mutex := None)), a, Idle))
  {
    PublishActors(st, a, s0, o0, f0);
    assert HoldsOk(st, a) && PlaceOk(st, a) && OriginOk(st, o0) && FrameOk(st, f0);
    var st' := SetActor(SetOrigin(st, o0, st.origins[o0].(phys := Some(f0), mutex := None)), a, Idle);
    forall f | 0 <= f < |st'.frames| ensures FrameOk(st', f) { assert FrameOk(st, f); }
    forall o | 0 <= o < |st'.origins| ensures OriginOk(st', o) { assert OriginOk(st, o); }
    forall v | 0 <= v < |st'.vps| ensures VpOk(st', v) { assert VpOk(st, v); }
    forall s | 0 <= s < |st'.slots| ensures SlotOk(st', s) { assert SlotOk(st, s); }
  }

  /** The page and the frame name each other. */
  function Mapped(st: State, a: nat, s: nat, o: nat, f: nat, v: nat): State
    requires a < |st.actors| && f < |st.frames| && v < |st.vps|
  {
    SetFrame(SetVp(SetActor(st, a, FDone(s, o, f)), v, st.vps[v].(place := On(f))), f, st.frames[f].(user := Some(v)))
  }

  /** A frame whose origin is page v's own has no user but v. */
  lemma UserIs(st: State, f: nat, v: nat)
    requires Shape(st) && f < |st.frames| && v < |st.vps| && st.frames[f].origin == Some(st.vps[v].own)
    ensures st.frames[f].user.Some? ==> st.frames[f].user == Some(v)
  {
    assert FrameOk(st, f);
  }

  /** Until a frame is published its origin says nothing. */
  lemma AdoptingUnsaid(st: State, o: nat, f: nat)
    requires Shape(st) && o < |st.origins|
    ensures Adopting(st, o, f) ==> st.origins[o].phys == None
  {
    if Adopting(st, o, f) {
      assert HoldsOk(st, st.origins[o].mutex.id);
    }
  }

  /** At a commit that goes through, nobody else is the frame's user. */
  lemma CommitAlone(st: State, a: nat, s0: nat, o0: nat, f0: nat, v0: nat)
    requires Shape(st) && a < |st.actors| && f0 < |st.frames| && v0 < |st.vps| && st.actors[a] == FEntered(s0, o0, f0)
    requires st.frames[f0].origin == Some(o0) && st.vps[v0].place == Absent(o0)
    ensures st.frames[f0].user == None && o0 < |st.origins| && !st.vps[v0].fixed && st.frames[f0].taken
    ensures st.vps[v0].own == o0 && (st.origins[o0].phys == Some(f0) || Adopting(st, o0, f0))
  {
    assert HoldsOk(st, a) && FrameOk(st, f0) && VpOk(st, v0) && OriginOk(st, o0);
    UserIs(st, f0, v0);
  }

  lemma MapFrames(st: State, a: nat, s0: nat, o0: nat, f0: nat, v0: nat)
    requires Shape(st) && a < |st.actors| && f0 < |st.frames| && v0 < |st.vps| && o0 < |st.origins|
    requires st.actors[a] == FEntered(s0, o0, f0) && st.frames[f0].origin == Some(o0) && st.vps[v0].place == Absent(o0)
    ensures FramesOk(Mapped(st, a, s0, o0, f0, v0))
  {
    CommitAlone(st, a, s0, o0, f0, v0);
    AdoptingUnsaid(st, o0, f0);
    assert HoldsOk(st, a) && FrameOk(st, f0) && VpOk(st, v0) && OriginOk(st, o0);
    var st' := Mapped(st, a, s0, o0, f0, v0);
    forall f | 0 <= f < |st'.frames| ensures FrameOk(st', f) { assert FrameOk(st, f); }
  }

  lemma MapHolds(st: State, a: nat, s0: nat, o0: nat, f0: nat, v0: nat, x: nat)
    requires Shape(st) && a < |st.actors| && f0 < |st.frames| && v0 < |st.vps| && o0 < |st.origins|
    requires st.actors[a] == FEntered(s0, o0, f0) && st.frames[f0].origin == Some(o0) && st.vps[v0].place == Absent(o0)
    requires x < |st.actors|
    ensures HoldsOk(Mapped(st, a, s0, o0, f0, v0), x)
  {
    CommitAlone(st, a, s0, o0, f0, v0);
    AdoptingUnsaid(st, o0, f0);
    assert HoldsOk(st, a) && FrameOk(st, f0) && VpOk(st, v0) && OriginOk(st, o0);
    assert HoldsOk(st, x) && PlaceOk(st, x);
  }

  lemma MapPlaces(st: State, a: nat, s0: nat, o0: nat, f0: nat, v0: nat, x: nat)
    requires Shape(st) && a < |st.actors| && f0 < |st.frames| && v0 < |st.vps| && o0 < |st.origins|
    requires st.actors[a] == FEntered(s0, o0, f0) && st.frames[f0].origin == Some(o0) && st.vps[v0].place == Absent(o0)
    requires x < |st.actors|
    ensures PlaceOk(Mapped(st, a, s0, o0, f0, v0), x)
  {
    CommitAlone(st, a, s0, o0, f0, v0);
    AdoptingUnsaid(st, o0, f0);
    assert HoldsOk(st, a) && FrameOk(st, f0) && VpOk(st, v0) && OriginOk(st, o0);
    assert HoldsOk(st, x) && PlaceOk(st, x);
  }

  lemma MapActors(st: State, a: nat, s0: nat, o0: nat, f0: nat, v0: nat)
    requires Shape(st) && a < |st.actors| && f0 < |st.frames| && v0 < |st.vps| && o0 < |st.origins|
    requires st.actors[a] == FEntered(s0, o0, f0) && st.frames[f0].origin == Some(o0) && st.vps[v0].place == Absent(o0)
    ensures ActorsOk(Mapped(st, a, s0, o0, f0, v0))
  {
    hide HoldsOk, PlaceOk;
    forall x | 0 <= x < |st.actors|
      ensures HoldsOk(Mapped(st, a, s0, o0, f0, v0), x) && PlaceOk(Mapped(st, a, s0, o0, f0, v0), x)
    {
      MapHolds(st, a, s0, o0, f0, v0, x);
      MapPlaces(st, a, s0, o0, f0, v0, x);
    }
  }

  /** A commit to a frame that is its origin's, whether or not the origin says so yet. */
  lemma MapShape(st: State, a: nat, s0: nat, o0: nat, f0: nat, v0: nat)
    requires Shape(st) && a < |st.actors| && f0 < |st.frames| && v0 < |st.vps| && o0 < |st.origins|
    requires st.actors[a] == FEntered(s0, o0, f0) && st.frames[f0].origin == Some(o0) && st.vps[v0].place == Absent(o0)
    ensures Shape(Mapped(st, a, s0, o0, f0, v0))
  {
    MapFrames(st, a, s0, o0, f0, v0);
    MapActors(st, a, s0, o0, f0, v0);
    CommitAlone(st, a, s0, o0, f0, v0);
    AdoptingUnsaid(st, o0, f0);
    assert HoldsOk(st, a) && FrameOk(st, f0) && VpOk(st, v0) && OriginOk(st, o0);
    var st' := Mapped(st, a, s0, o0, f0, v0);
    forall o | 0 <= o < |st'.origins| ensures OriginOk(st', o) { assert OriginOk(st, o); }
    forall v | 0 <= v < |st'.vps| ensures VpOk(st', v) { assert VpOk(st, v); }
    forall s | 0 <= s < |st'.slots| ensures SlotOk(st', s) { assert SlotOk(st, s); }
  }

  function Unmapped(st: State, a: nat, f: nat, v: nat, o: nat): State
    requires a < |st.actors| && v < |st.vps|
  {
    SetVp(SetActor(st, a, DUnmapped(f)), v, st.vps[v].(place := Absent(o)))
  }

  lemma UnmapFrames(st: State, a: nat, f0: nat, v0: nat, o0: nat)
    requires Shape(st) && a < |st.actors| && f0 < |st.frames| && v0 < |st.vps| && st.actors[a] == DEntered(f0)
    requires st.frames[f0].user == Some(v0) && st.frames[f0].origin == Some(o0) && st.frames[f0].wired == 0
    requires o0 < |st.origins| && st.origins[o0].phys == Some(f0)
    ensures FramesOk(Unmapped(st, a, f0, v0, o0))
  {
    assert HoldsOk(st, a) && FrameOk(st, f0) && VpOk(st, v0) && OriginOk(st, o0);
    var st' := Unmapped(st, a, f0, v0, o0);
    forall f | 0 <= f < |st'.frames| ensures FrameOk(st', f) { assert FrameOk(st, f); }
  }

  lemma UnmapActors(st: State, a: nat, f0: nat, v0: nat, o0: nat)
    requires Shape(st) && a < |st.actors| && f0 < |st.frames| && v0 < |st.vps| && st.actors[a] == DEntered(f0)
    requires st.frames[f0].user == Some(v0) && st.frames[f0].origin == Some(o0) && st.frames[f0].wired == 0
    requires o0 < |st.origins| && st.origins[o0].phys == Some(f0)
    ensures ActorsOk(Unmapped(st, a, f0, v0, o0))
  {
    assert HoldsOk(st, a) && FrameOk(st, f0) && VpOk(st, v0) && OriginOk(st, o0);
    var st' := Unmapped(st, a, f0, v0, o0);
    forall x | 0 <= x < |st'.actors|
      ensures HoldsOk(st', x) && PlaceOk(st', x)
    {
      assert HoldsOk(st, x) && PlaceOk(st, x);
    }
  }

  /** DiscardVirt: the page waits for its origin again, which still names the frame. */
  lemma UnmapShape(st: State, a: nat, f0: nat, v0: nat, o0: nat)
    requires Shape(st) && a < |st.actors| && f0 < |st.frames| && v0 < |st.vps| && st.actors[a] == DEntered(f0)
    requires st.frames[f0].user == Some(v0) && st.frames[f0].origin == Some(o0) && st.frames[f0].wired == 0
    requires o0 < |st.origins| && st.origins[o0].phys == Some(f0)
    ensures Shape(Unmapped(st, a, f0, v0, o0))
  {
    UnmapFrames(st, a, f0, v0, o0);
    UnmapActors(st, a, f0, v0, o0);
    assert HoldsOk(st, a) && FrameOk(st, f0) && VpOk(st, v0) && OriginOk(st, o0);
    var st' := Unmapped(st, a, f0, v0, o0);
    forall o | 0 <= o < |st'.origins| ensures OriginOk(st', o) { assert OriginOk(st, o); }
    forall v | 0 <= v < |st'.vps| ensures VpOk(st', v) { assert VpOk(st, v); }
    forall s | 0 <= s < |st'.slots| ensures SlotOk(st', s) { assert SlotOk(st, s); }
  }

  lemma ClearFrames(st: State, a: nat, f0: nat, o0: nat)
    requires Shape(st) && a < |st.actors| && f0 < |st.frames| && o0 < |st.origins| && st.actors[a] == DUnmapped(f0)
    requires st.frames[f0].origin == Some(o0)
    ensures FramesOk(SetActor(SetOrigin(st, o0, st.origins[o0].(phys := None)), a, DCleared(f0)))
  {
    assert HoldsOk(st, a) && PlaceOk(st, a) && FrameOk(st, f0) && OriginOk(st, o0);
    var st' := SetActor(SetOrigin(st, o0, st.origins[o0].(phys := None)), a, DCleared(f0));
    forall f | 0 <= f < |st'.frames| ensures FrameOk(st', f) { assert FrameOk(st, f); }
  }

  lemma ClearActors(st: State, a: nat, f0: nat, o0: nat)
    requires Shape(st) && a < |st.actors| && f0 < |st.frames| && o0 < |st.origins| && st.actors[a] == DUnmapped(f0)
    requires st.frames[f0].origin == Some(o0)
    ensures ActorsOk(SetActor(SetOrigin(st, o0, st.origins[o0].(phys := None)), a, DCleared(f0)))
  {
    assert HoldsOk(st, a) && PlaceOk(st, a) && FrameOk(st, f0) && OriginOk(st, o0);
    var st' := SetActor(SetOrigin(st, o0, st.origins[o0].(phys := None)), a, DCleared(f0));
    forall x | 0 <= x < |st'.actors|
      ensures HoldsOk(st', x) && PlaceOk(st', x)
    {
      assert HoldsOk(st, x) && PlaceOk(st, x);
    }
  }

  /** The origin no longer names the frame. */
  lemma ClearShape(st: State, a: nat, f0: nat, o0: nat)
    requires Shape(st) && a < |st.actors| && f0 < |st.frames| && o0 < |st.origins| && st.actors[a] == DUnmapped(f0)
    requires st.frames[f0].origin == Some(o0)
    ensures Shape(SetActor(SetOrigin(st, o0, st.origins[o0].(phys := None)), a, DCleared(f0)))
  {
    ClearFrames(st, a, f0, o0);
    ClearActors(st, a, f0, o0);
    assert HoldsOk(st, a) && PlaceOk(st, a) && FrameOk(st, f0) && OriginOk(st, o0);
    var st' := SetActor(SetOrigin(st, o0, st.origins[o0].(phys := None)), a, DCleared(f0));
    forall o | 0 <= o < |st'.origins| ensures OriginOk(st', o) { assert OriginOk(st, o); }
    forall v | 0 <= v < |st'.vps| ensures VpOk(st', v) { assert VpOk(st, v); }
    forall s | 0 <= s < |st'.slots| ensures SlotOk(st', s) { assert SlotOk(st, s); }
  }

  lemma UncoverFrames(st: State, a: nat, f0: nat)
    requires Shape(st) && a < |st.actors| && f0 < |st.frames| && st.actors[a] == DCleared(f0)
    ensures FramesOk(SetActor(SetFrame(st, f0, st.frames[f0].(covered := false)), a, DLeft(f0)))
  {
    assert HoldsOk(st, a) && PlaceOk(st, a) && FrameOk(st, f0);
    var st' := SetActor(SetFrame(st, f0, st.frames[f0].(covered := false)), a, DLeft(f0));
    forall f | 0 <= f < |st'.frames| ensures FrameOk(st', f) { assert FrameOk(st, f); }
  }

  lemma UncoverActors(st: State, a: nat, f0: nat)
    requires Shape(st) && a < |st.actors| && f0 < |st.frames| && st.actors[a] == DCleared(f0)
    ensures ActorsOk(SetActor(SetFrame(st, f0, st.frames[f0].(covered := false)), a, DLeft(f0)))
  {
    assert HoldsOk(st, a) && PlaceOk(st, a) && FrameOk(st, f0);
    var st' := SetActor(SetFrame(st, f0, st.frames[f0].(covered := false)), a, DLeft(f0));
    forall x | 0 <= x < |st'.actors|
      ensures HoldsOk(st', x) && PlaceOk(st', x)
    {
      assert HoldsOk(st, x) && PlaceOk(st, x);
    }
  }

  /** The discarded page is no longer busy on account of this frame. */
  lemma UncoverShape(st: State, a: nat, f0: nat)
    requires Shape(st) && a < |st.actors| && f0 < |st.frames| && st.actors[a] == DCleared(f0)
    ensures Shape(SetActor(SetFrame(st, f0, st.frames[f0].(covered := false)), a, DLeft(f0)))
  {
    UncoverFrames(st, a, f0);
    UncoverActors(st, a, f0);
    assert HoldsOk(st, a) && PlaceOk(st, a) && FrameOk(st, f0);
    var st' := SetActor(SetFrame(st, f0, st.frames[f0].(covered := false)), a, DLeft(f0));
    forall o | 0 <= o < |st'.origins| ensures OriginOk(st', o) { assert OriginOk(st, o); }
    forall v | 0 <= v < |st'.vps| ensures VpOk(st', v) { assert VpOk(st, v); }
    forall s | 0 <= s < |st'.slots| ensures SlotOk(st', s) { assert SlotOk(st, s); }
  }

  lemma FreeDiscardedActors(st: State, a: nat, f0: nat)
    requires Shape(st) && a < |st.actors| && f0 < |st.frames| && st.actors[a] == DLeft(f0)
    ensures ActorsOk(SetActor(SetFrame(st, f0, Freed(st.frames[f0]).(lock := None)), a, Idle))
  {
    assert HoldsOk(st, a) && PlaceOk(st, a) && FrameOk(st, f0);
    assert !st.frames[f0].covered;
    var st' := SetActor(SetFrame(st, f0, Freed(st.frames[f0]).(lock := None)), a, Idle);
    forall x | 0 <= x < |st'.actors|
      ensures HoldsOk(st', x) && PlaceOk(st', x)
    {
      assert HoldsOk(st, x) && PlaceOk(st, x);
    }
  }

  /** The frame is free, and nothing names it. */
  lemma FreeDiscardedShape(st: State, a: nat, f0: nat)
    requires Shape(st) && a < |st.actors| && f0 < |st.frames| && st.actors[a] == DLeft(f0)
    ensures Shape(SetActor(SetFrame(st, f0, Freed(st.frames[f0]).(lock := None)), a, Idle))
  {
    FreeDiscardedActors(st, a, f0);
    assert HoldsOk(st, a) && PlaceOk(st, a) && FrameOk(st, f0);
    assert !st.frames[f0].covered;
    var st' := SetActor(SetFrame(st, f0, Freed(st.frames[f0]).(lock := None)), a, Idle);
    forall f | 0 <= f < |st'.frames| ensures FrameOk(st', f) { assert FrameOk(st, f); }
    forall o | 0 <= o < |st'.origins| ensures OriginOk(st', o) { assert OriginOk(st, o); assert FrameOk(st, f0); }
    forall v | 0 <= v < |st'.vps| ensures VpOk(st', v) { assert VpOk(st, v); }
    forall s | 0 <= s < |st'.slots| ensures SlotOk(st', s) { assert SlotOk(st, s); }
  }

  /** A slot is emptied. */
  lemma EmptySlotShape(st: State, s0: nat)
    requires Shape(st) && s0 < |st.slots|
    ensures Shape(st.(slots := st.slots[s0 := None]))
  {
    var st' := st.(slots := st.slots[s0 := None]);
    forall f | 0 <= f < |st'.frames| ensures FrameOk(st', f) { assert FrameOk(st, f); }
    forall o | 0 <= o < |st'.origins| ensures OriginOk(st', o) { assert OriginOk(st, o); }
    forall v | 0 <= v < |st'.vps| ensures VpOk(st', v) { assert VpOk(st, v); }
    forall s | 0 <= s < |st'.slots| ensures SlotOk(st', s) { assert SlotOk(st, s); }
    forall x | 0 <= x < |st'.actors|
      ensures HoldsOk(st', x) && PlaceOk(st', x)
    {
      assert HoldsOk(st, x) && PlaceOk(st, x);
    }
  }

  function Unlinked(st: State, a: nat, s: nat, v: nat, f: nat): State
    requires a < |st.actors| && f < |st.frames| && s < |st.slots|
  {
    SetFrame(SetActor(st, a, RUnlinked(s, v, f)).(slots := st.slots[s := None]), f,
        st.frames[f].(user := None, covered := false))
  }

  /** A page on a frame and in its slot is that frame's user; the origin they share names the frame, or is about to
      or about not to. */
  lemma OnItsFrame(st: State, s0: nat, v0: nat, f0: nat)
    requires Shape(st) && Names(st, s0, v0) && st.vps[v0].place == On(f0)
    ensures f0 < |st.frames| && st.frames[f0].user == Some(v0) && st.frames[f0].taken
    ensures st.frames[f0].origin == Some(st.vps[v0].own) && st.vps[v0].own < |st.origins|
    ensures st.origins[st.vps[v0].own].phys == Some(f0) || Cleared(st, f0) || Adopting(st, st.vps[v0].own, f0)
  {
    assert SlotOk(st, s0) && VpOk(st, v0) && FrameOk(st, f0);
  }

  lemma UnlinkFrames(st: State, a: nat, s0: nat, v0: nat, f0: nat)
    requires Shape(st) && a < |st.actors| && f0 < |st.frames| && st.actors[a] == REntered(s0, v0, f0)
    requires Names(st, s0, v0) && st.vps[v0].place == On(f0)
    requires st.vps[v0].own < |st.origins| && st.origins[st.vps[v0].own].phys == Some(f0)
    ensures FramesOk(Unlinked(st, a, s0, v0, f0))
  {
    OnItsFrame(st, s0, v0, f0);
    assert HoldsOk(st, a) && FrameOk(st, f0) && VpOk(st, v0) && SlotOk(st, s0);
    var st' := Unlinked(st, a, s0, v0, f0);
    forall f | 0 <= f < |st'.frames| ensures FrameOk(st', f) { assert FrameOk(st, f); }
  }

  lemma UnlinkHolds(st: State, a: nat, s0: nat, v0: nat, f0: nat, x: nat)
    requires Shape(st) && a < |st.actors| && f0 < |st.frames| && st.actors[a] == REntered(s0, v0, f0)
    requires Names(st, s0, v0) && st.vps[v0].place == On(f0)
    requires st.vps[v0].own < |st.origins| && st.origins[st.vps[v0].own].phys == Some(f0)
    requires x < |st.actors|
    ensures HoldsOk(Unlinked(st, a, s0, v0, f0), x)
  {
    OnItsFrame(st, s0, v0, f0);
    assert HoldsOk(st, a) && FrameOk(st, f0) && VpOk(st, v0) && SlotOk(st, s0);
    assert HoldsOk(st, x) && PlaceOk(st, x);
  }

  lemma UnlinkPlaces(st: State, a: nat, s0: nat, v0: nat, f0: nat, x: nat)
    requires Shape(st) && a < |st.actors| && f0 < |st.frames| && st.actors[a] == REntered(s0, v0, f0)
    requires Names(st, s0, v0) && st.vps[v0].place == On(f0)
    requires st.vps[v0].own < |st.origins| && st.origins[st.vps[v0].own].phys == Some(f0)
    requires x < |st.actors|
    ensures PlaceOk(Unlinked(st, a, s0, v0, f0), x)
  {
    OnItsFrame(st, s0, v0, f0);
    assert HoldsOk(st, a) && FrameOk(st, f0) && VpOk(st, v0) && SlotOk(st, s0);
    assert HoldsOk(st, x) && PlaceOk(st, x);
  }

  lemma UnlinkActors(st: State, a: nat, s0: nat, v0: nat, f0: nat)
    requires Shape(st) && a < |st.actors| && f0 < |st.frames| && st.actors[a] == REntered(s0, v0, f0)
    requires Names(st, s0, v0) && st.vps[v0].place == On(f0)
    requires st.vps[v0].own < |st.origins| && st.origins[st.vps[v0].own].phys == Some(f0)
    ensures ActorsOk(Unlinked(st, a, s0, v0, f0))
  {
    hide HoldsOk, PlaceOk;
    forall x | 0 <= x < |st.actors|
      ensures HoldsOk(Unlinked(st, a, s0, v0, f0), x) && PlaceOk(Unlinked(st, a, s0, v0, f0), x)
    {
      UnlinkHolds(st, a, s0, v0, f0, x);
      UnlinkPlaces(st, a, s0, v0, f0, x);
    }
  }

  /** The page leaves its slot and its frame. */
  lemma UnlinkShape(st: State, a: nat, s0: nat, v0: nat, f0: nat)
    requires Shape(st) && a < |st.actors| && f0 < |st.frames| && st.actors[a] == REntered(s0, v0, f0)
    requires Names(st, s0, v0) && st.vps[v0].place == On(f0)
    requires st.vps[v0].own < |st.origins| && st.origins[st.vps[v0].own].phys == Some(f0)
    ensures Shape(Unlinked(st, a, s0, v0, f0))
  {
    UnlinkFrames(st, a, s0, v0, f0);
    UnlinkActors(st, a, s0, v0, f0);
    OnItsFrame(st, s0, v0, f0);
    assert HoldsOk(st, a) && FrameOk(st, f0) && VpOk(st, v0) && SlotOk(st, s0);
    var st' := Unlinked(st, a, s0, v0, f0);
    forall o | 0 <= o < |st'.origins| ensures OriginOk(st', o) { assert OriginOk(st, o); }
    forall v | 0 <= v < |st'.vps| ensures VpOk(st', v) { assert VpOk(st, v); }
    forall s | 0 <= s < |st'.slots| ensures SlotOk(st', s) { assert SlotOk(st, s); }
  }

  lemma DetachFrames(st: State, a: nat, s0: nat, v0: nat, f0: nat, o0: nat)
    requires Shape(st) && a < |st.actors| && f0 < |st.frames| && o0 < |st.origins|
        && st.actors[a] == RUnlinked(s0, v0, f0)
    requires st.frames[f0].origin == Some(o0)
    ensures FramesOk(DetachStep(st, a, s0, v0, f0))
  {
    assert HoldsOk(st, a) && PlaceOk(st, a) && FrameOk(st, f0) && OriginOk(st, o0);
    var st' := DetachStep(st, a, s0, v0, f0);
    forall f | 0 <= f < |st'.frames| ensures FrameOk(st', f) { assert FrameOk(st, f); }
  }

  lemma DetachHolds(st: State, a: nat, s0: nat, v0: nat, f0: nat, o0: nat, x: nat)
    requires Shape(st) && a < |st.actors| && f0 < |st.frames| && o0 < |st.origins|
        && st.actors[a] == RUnlinked(s0, v0, f0)
    requires st.frames[f0].origin == Some(o0)
    requires x < |st.actors|
    ensures HoldsOk(DetachStep(st, a, s0, v0, f0), x)
  {
    assert HoldsOk(st, a) && PlaceOk(st, a) && FrameOk(st, f0) && OriginOk(st, o0);
    assert HoldsOk(st, x) && PlaceOk(st, x);
  }

  lemma DetachPlaces(st: State, a: nat, s0: nat, v0: nat, f0: nat, o0: nat, x: nat)
    requires Shape(st) && a < |st.actors| && f0 < |st.frames| && o0 < |st.origins|
        && st.actors[a] == RUnlinked(s0, v0, f0)
    requires st.frames[f0].origin == Some(o0)
    requires x < |st.actors|
    ensures PlaceOk(DetachStep(st, a, s0, v0, f0), x)
  {
    assert HoldsOk(st, a) && PlaceOk(st, a) && FrameOk(st, f0) && OriginOk(st, o0);
    assert HoldsOk(st, x) && PlaceOk(st, x);
  }

  lemma DetachActors(st: State, a: nat, s0: nat, v0: nat, f0: nat, o0: nat)
    requires Shape(st) && a < |st.actors| && f0 < |st.frames| && o0 < |st.origins|
        && st.actors[a] == RUnlinked(s0, v0, f0)
    requires st.frames[f0].origin == Some(o0)
    ensures ActorsOk(DetachStep(st, a, s0, v0, f0))
  {
    hide HoldsOk, PlaceOk;
    forall x | 0 <= x < |st.actors|
      ensures HoldsOk(DetachStep(st, a, s0, v0, f0), x) && PlaceOk(DetachStep(st, a, s0, v0, f0), x)
    {
      DetachHolds(st, a, s0, v0, f0, o0, x);
      DetachPlaces(st, a, s0, v0, f0, o0, x);
    }
  }

  /** The frame is taken from its origin; only this actor knows of it. */
  lemma DetachShape(st: State, a: nat, s0: nat, v0: nat, f0: nat, o0: nat)
    requires Shape(st) && a < |st.actors| && f0 < |st.frames| && o0 < |st.origins|
        && st.actors[a] == RUnlinked(s0, v0, f0)
    requires st.frames[f0].origin == Some(o0)
    ensures Shape(DetachStep(st, a, s0, v0, f0))
  {
    DetachFrames(st, a, s0, v0, f0, o0);
    DetachActors(st, a, s0, v0, f0, o0);
    assert HoldsOk(st, a) && PlaceOk(st, a) && FrameOk(st, f0) && OriginOk(st, o0);
    var st' := DetachStep(st, a, s0, v0, f0);
    forall o | 0 <= o < |st'.origins| ensures OriginOk(st', o) { assert OriginOk(st, o); }
    forall v | 0 <= v < |st'.vps| ensures VpOk(st', v) { assert VpOk(st, v); }
    forall s | 0 <= s < |st'.slots| ensures SlotOk(st', s) { assert SlotOk(st, s); }
  }

  lemma FreeReleasedHolds(st: State, a: nat, s0: nat, v0: nat, f0: nat, o0: nat, x: nat)
    requires Shape(st) && a < |st.actors| && f0 < |st.frames| && st.actors[a] == RDetached(s0, v0, f0, o0)
    requires x < |st.actors|
    ensures HoldsOk(ReleaseFreeStep(st, a, s0, v0, f0, o0), x)
  {
    assert HoldsOk(st, a) && FrameOk(st, f0) && HoldsOk(st, x);
  }

  lemma FreeReleasedPlaces(st: State, a: nat, s0: nat, v0: nat, f0: nat, o0: nat, x: nat)
    requires Shape(st) && a < |st.actors| && f0 < |st.frames| && st.actors[a] == RDetached(s0, v0, f0, o0)
    requires x < |st.actors|
    ensures PlaceOk(ReleaseFreeStep(st, a, s0, v0, f0, o0), x)
  {
    assert HoldsOk(st, a) && FrameOk(st, f0) && HoldsOk(st, x) && PlaceOk(st, x);
  }

  lemma FreeReleasedActors(st: State, a: nat, s0: nat, v0: nat, f0: nat, o0: nat)
    requires Shape(st) && a < |st.actors| && f0 < |st.frames| && st.actors[a] == RDetached(s0, v0, f0, o0)
    ensures ActorsOk(ReleaseFreeStep(st, a, s0, v0, f0, o0))
  {
    hide HoldsOk, PlaceOk;
    forall x | 0 <= x < |st.actors|
      ensures HoldsOk(ReleaseFreeStep(st, a, s0, v0, f0, o0), x)
          && PlaceOk(ReleaseFreeStep(st, a, s0, v0, f0, o0), x)
    {
      FreeReleasedHolds(st, a, s0, v0, f0, o0, x);
      FreeReleasedPlaces(st, a, s0, v0, f0, o0, x);
    }
  }

  /** The detached frame is free. */
  lemma FreeReleasedShape(st: State, a: nat, s0: nat, v0: nat, f0: nat, o0: nat)
    requires Shape(st) && a < |st.actors| && f0 < |st.frames| && st.actors[a] == RDetached(s0, v0, f0, o0)
    ensures Shape(ReleaseFreeStep(st, a, s0, v0, f0, o0))
  {
    FreeReleasedActors(st, a, s0, v0, f0, o0);
    assert HoldsOk(st, a) && FrameOk(st, f0);
    var st' := ReleaseFreeStep(st, a, s0, v0, f0, o0);
    forall f | 0 <= f < |st'.frames| ensures FrameOk(st', f) { assert FrameOk(st, f); }
    forall o | 0 <= o < |st'.origins| ensures OriginOk(st', o) { assert OriginOk(st, o); }
    forall v | 0 <= v < |st'.vps| ensures VpOk(st', v) { assert VpOk(st, v); }
    forall s | 0 <= s < |st'.slots| ensures SlotOk(st', s) { assert SlotOk(st, s); }
  }

  lemma WiredActors(st: State, f0: nat, wired: nat, dirty: bool)
    requires Shape(st) && f0 < |st.frames|
    requires wired == st.frames[f0].wired || wired == 0 || st.frames[f0].lock == None
    ensures ActorsOk(SetFrame(st, f0, st.frames[f0].(wired := wired, dirty := dirty)))
  {
    assert FrameOk(st, f0);
    var st' := SetFrame(st, f0, st.frames[f0].(wired := wired, dirty := dirty));
    forall x | 0 <= x < |st'.actors|
      ensures HoldsOk(st', x) && PlaceOk(st', x)
    {
      assert HoldsOk(st, x) && PlaceOk(st, x);
    }
  }

  /** A frame's wire count goes up or down while nobody holds its lock, and to zero at any time; so does its dirty
      bit. */
  lemma WiredShape(st: State, f0: nat, wired: nat, dirty: bool)
    requires Shape(st) && f0 < |st.frames|
    requires wired == st.frames[f0].wired || wired == 0 || st.frames[f0].lock == None
    ensures Shape(SetFrame(st, f0, st.frames[f0].(wired := wired, dirty := dirty)))
  {
    WiredActors(st, f0, wired, dirty);
    assert FrameOk(st, f0);
    var st' := SetFrame(st, f0, st.frames[f0].(wired := wired, dirty := dirty));
    forall f | 0 <= f < |st'.frames| ensures FrameOk(st', f) { assert FrameOk(st, f); }
    forall o | 0 <= o < |st'.origins| ensures OriginOk(st', o) { assert OriginOk(st, o); }
    forall v | 0 <= v < |st'.vps| ensures VpOk(st', v) { assert VpOk(st, v); }
    forall s | 0 <= s < |st'.slots| ensures SlotOk(st', s) { assert SlotOk(st, s); }
  }

  /** A page no slot and no frame names can be freed. */
  lemma GoneShape(st: State, v0: nat)
    requires Shape(st) && v0 < |st.vps|
    requires forall s :: 0 <= s < |st.slots| ==> st.slots[s] != Some(v0)
    requires forall f :: 0 <= f < |st.frames| ==> st.frames[f].user != Some(v0)
    ensures Shape(SetVp(st, v0, st.vps[v0].(place := Gone)))
  {
    assert VpOk(st, v0);
    var st' := SetVp(st, v0, st.vps[v0].(place := Gone));
    forall f | 0 <= f < |st'.frames| ensures FrameOk(st', f) { assert FrameOk(st, f); }
    forall o | 0 <= o < |st'.origins| ensures OriginOk(st', o) { assert OriginOk(st, o); }
    forall v | 0 <= v < |st'.vps| ensures VpOk(st', v) { assert VpOk(st, v); }
    forall s | 0 <= s < |st'.slots| ensures SlotOk(st', s) { assert SlotOk(st, s); }
    forall x | 0 <= x < |st'.actors|
      ensures HoldsOk(st', x) && PlaceOk(st', x)
    {
      assert HoldsOk(st, x) && PlaceOk(st, x);
    }
  }
}
