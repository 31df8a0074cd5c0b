/** What every step keeps: who names whom, and every count of it. */
module VmmKeeps {
  import opened VmmStates
  import opened VmmShape
  import opened VmmSteps
  import opened VmmRefs

  ghost predicate Inv(st: State) {
    Sized(st) && Shape(st) && Balanced(st)
  }

  lemma RefOriginShape(st: State, o: nat, n: int)
    requires Shape(st)
    ensures Shape(RefOrigin(st, o, n))
  {
    RefsShape(st, st.vpRefs, RefOrigin(st, o, n).originRefs);
    assert RefOrigin(st, o, n) == st.(vpRefs := st.vpRefs, originRefs := RefOrigin(st, o, n).originRefs);
  }

  lemma RefVpShape(st: State, v: nat, n: int)
    requires Shape(st)
    ensures Shape(RefVp(st, v, n))
  {
    RefsShape(st, RefVp(st, v, n).vpRefs, st.originRefs);
    assert RefVp(st, v, n) == st.(vpRefs := RefVp(st, v, n).vpRefs, originRefs := st.originRefs);
  }

  /** What no reference counts is named nowhere. */
  lemma Unnamed(st: State, v: nat)
    requires VpNames(st, v) == 0
    ensures forall s :: 0 <= s < |st.slots| ==> st.slots[s] != Some(v)
    ensures forall f :: 0 <= f < |st.frames| ==> st.frames[f].user != Some(v)
    ensures forall a :: 0 <= a < |st.actors| ==> VpHeld(st.actors[a]) != Some(v)
    ensures Covering(st, v) == 0
  {
    forall s | 0 <= s < |st.slots| ensures st.slots[s] != Some(v) { SumAtLeast(SlotW(st.slots, v), s); }
    forall f | 0 <= f < |st.frames| ensures st.frames[f].user != Some(v) { SumAtLeast(UserW(st.frames, v), f); }
    forall a | 0 <= a < |st.actors| ensures VpHeld(st.actors[a]) != Some(v) { SumAtLeast(InFlightW(st.actors, v), a); }
    SumZero(CoverW(st.frames, v));
  }

  /** Giving back what a page is owed: at zero nothing names it, nothing holds it busy, and it goes. */
  lemma DerefKeeps(st: State, v: nat, n: nat)
    requires Sized(st) && Shape(st) && v < |st.vps| && Owed(st, v, n)
    ensures Inv(DerefVp(st, v, n))
  {
    var st1 := RefVp(st, v, 0 - n);
    RefVpShape(st, v, 0 - n);
    if st1.vpRefs[v] == 0 {
      assert OwedAt(st, v, n, v);
      RefVpOff(st, v, 0 - n, v);
      Unnamed(st1, v);
      GoneShape(st1, v);
      if st1.vps[v].place.Absent? {
        assert VpOk(st1, v);
        RefOriginShape(SetVp(st1, v, st1.vps[v].(place := Gone)), st1.vps[v].place.origin, -1);
      }
    }
    forall x: nat ensures Even(DerefVp(st, v, n), x) { DerefEven(st, v, n, x); }
  }

  lemma DerefFreed(st: State, v: nat, n: nat, x: nat)
    requires Sized(st) && Shape(st) && v < |st.vps| && Owed(st, v, n)
    ensures FreedAt(DerefVp(st, v, n), x)
  {
    assert OwedAt(st, v, n, x) && OwedAt(st, v, n, v);
    hide Shape, Owed;
    var names := VpNames(st, v);
    assert st.vpRefs[v] == names + n;
    hide VpNames, OriginSlack, VpSlack, BusySlack;
  }

  lemma DerefEven(st: State, v: nat, n: nat, x: nat)
    requires Sized(st) && Shape(st) && v < |st.vps| && Owed(st, v, n)
    ensures Even(DerefVp(st, v, n), x)
  {
    assert OwedAt(st, v, n, x) && VpOk(st, v);
    DerefFreed(st, v, n, x);
    hide OriginSlack, VpSlack, BusySlack, Shape, Owed, FreedAt;
    var st1 := RefVp(st, v, 0 - n);
    RefVpOff(st, v, 0 - n, x);
    if st1.vpRefs[v] == 0 {
      var gone := st1.vps[v].(place := Gone);
      SetVpOff(st1, v, gone, x);
      if st1.vps[v].place.Absent? {
        RefOriginOff(SetVp(st1, v, gone), st1.vps[v].place.origin, -1, x);
      }
    }
  }

  lemma CreateKeeps(st: State, s: nat, fixed: bool, file: bool)
    requires Inv(st) && s < |st.slots| && st.slots[s] == None
    ensures Inv(CreateStep(st, s, fixed, file))
  {
    CreateShape(st, s, fixed, file);
    var st' := CreateStep(st, s, fixed, file);
    var v, o := |st.vps|, |st.origins|;
    forall x: nat
      ensures Even(st', x)
    {
      assert Even(st, x);
      SumUpdate(SlotW(st.slots, x), s, One(x == v));
      assert SlotW(st'.slots, x) == SlotW(st.slots, x)[s := One(x == v)];
      assert WaitW(st'.vps, x)[..|st.vps|] == WaitW(st.vps, x);
    }
  }

  /** The first look: an absent page's origin stays alive while the fault is handled. */
  lemma FaultKeeps(st: State, a: nat, s: nat)
    requires Inv(st) && a < |st.actors| && st.actors[a].Idle? && s < |st.slots|
    ensures Inv(FaultStep(st, a, s))
  {
    if st.slots[s].Some? && st.slots[s].id < |st.vps| && st.vps[st.slots[s].id].place.Absent? {
      var o := st.vps[st.slots[s].id].place.origin;
      assert VpOk(st, st.slots[s].id);
      MoveShape(st, a, FHas(s, o));
      var st1 := SetActor(st, a, FHas(s, o));
      RefOriginShape(st1, o, 1);
      forall x: nat
        ensures Even(FaultStep(st, a, s), x)
      {
        assert Even(st, x);
        hide OriginSlack, VpSlack, BusySlack, Shape, Balanced, HoldsOk, VpOk;
        SetActorOff(st, a, FHas(s, o), x);
        RefOriginOff(st1, o, 1, x);
      }
    }
  }

  lemma FixedEven(st: State, a: nat, s: nat, o: nat, x: nat)
    requires Even(st, x) && a < |st.actors| && st.actors[a] == FHas(s, o) && o < |st.originRefs|
    ensures Even(FixedStep(st, a, s, o), x)
  {
    var st1 := SetActor(st, a, Idle);
    assert PageWeight(Idle, x) == PageWeight(st.actors[a], x) && OriginHeld(st.actors[a]) == Some(o)
        && OriginHeld(Idle) == None;
    hide OriginSlack, VpSlack, BusySlack, PageWeight, OriginHeld;
    SetActorOff(st, a, Idle, x);
    if Waits(st, s, o) {
      var v := st.slots[s].id;
      var fixed := st1.vps[v].(place := OnFixed);
      SetVpOff(st1, v, fixed, x);
      RefOriginOff(SetVp(st1, v, fixed), o, -2, x);
    } else {
      RefOriginOff(st1, o, -1, x);
    }
  }

  lemma FixedKeeps(st: State, a: nat, s: nat, o: nat)
    requires Inv(st) && a < |st.actors| && st.actors[a] == FHas(s, o) && o < |st.origins| && st.origins[o].fixed
    ensures Inv(FixedStep(st, a, s, o))
  {
    assert HoldsOk(st, a);
    MoveShape(st, a, Idle);
    var st1 := SetActor(st, a, Idle);
    if Waits(st, s, o) {
      var v := st.slots[s].id;
      assert VpOk(st1, v);
      FixShape(st1, v);
      RefOriginShape(SetVp(st1, v, st1.vps[v].(place := OnFixed)), o, -2);
    } else {
      RefOriginShape(st1, o, -1);
    }
    forall x: nat ensures Even(FixedStep(st, a, s, o), x) { assert Even(st, x); FixedEven(st, a, s, o, x); }
  }

  lemma PeekKeeps(st: State, a: nat, s: nat, o: nat)
    requires Inv(st) && a < |st.actors| && st.actors[a] == FHas(s, o) && o < |st.origins| && !st.origins[o].fixed
    ensures Inv(PeekStep(st, a, s, o))
  {
    assert HoldsOk(st, a) && OriginOk(st, o);
    var p := if st.origins[o].phys == None then FLoad(s, o) else FMap(s, o, st.origins[o].phys.id);
    MoveShape(st, a, p);
    forall x: nat
      ensures Even(PeekStep(st, a, s, o), x)
    {
      assert Even(st, x);
      hide OriginSlack, VpSlack, BusySlack, Shape, Balanced, HoldsOk, PlaceOk, FrameOk;
      SetActorOff(st, a, p, x);
    }
  }

  lemma LockOriginEven(st: State, a: nat, s: nat, o: nat, x: nat)
    requires Even(st, x) && a < |st.actors| && st.actors[a] == FLoad(s, o) && o < |st.origins| && o < |st.originRefs|
    ensures Even(LockOriginStep(st, a, s, o), x)
  {
    var or := st.origins[o].(mutex := Some(a));
    assert PageWeight(Idle, x) == PageWeight(st.actors[a], x)
        && PageWeight(FLocked(s, o), x) == PageWeight(st.actors[a], x);
    assert OriginHeld(FLocked(s, o)) == OriginHeld(st.actors[a]) == Some(o) && OriginHeld(Idle) == None;
    hide OriginSlack, VpSlack, BusySlack, PageWeight, OriginHeld;
    if st.origins[o].phys == None {
      SetOriginOff(st, o, or, x);
      SetActorOff(SetOrigin(st, o, or), a, FLocked(s, o), x);
    } else {
      SetActorOff(st, a, Idle, x);
      RefOriginOff(SetActor(st, a, Idle), o, -1, x);
    }
  }

  lemma LockOriginKeeps(st: State, a: nat, s: nat, o: nat)
    requires Inv(st) && a < |st.actors| && st.actors[a] == FLoad(s, o) && o < |st.origins|
        && st.origins[o].mutex == None
    ensures Inv(LockOriginStep(st, a, s, o))
  {
    assert HoldsOk(st, a);
    if st.origins[o].phys == None {
      TakeMutexShape(st, a, s, o);
    } else {
      MoveShape(st, a, Idle);
      RefOriginShape(SetActor(st, a, Idle), o, -1);
    }
    forall x: nat ensures Even(LockOriginStep(st, a, s, o), x) { assert Even(st, x); LockOriginEven(st, a, s, o, x); }
  }

  lemma AllocKeeps(st: State, a: nat, s: nat, o: nat, f: nat)
    requires Inv(st) && a < |st.actors| && st.actors[a] == FLocked(s, o) && f < |st.frames| && !st.frames[f].taken
    ensures Inv(AllocStep(st, a, s, o, f))
  {
    AllocShape(st, a, s, o, f);
    var fr := st.frames[f].(taken := true, wired := 1, owner := Some(a));
    forall x: nat
      ensures Even(AllocStep(st, a, s, o, f), x)
    {
      assert Even(st, x);
      hide OriginSlack, VpSlack, BusySlack, Shape, Balanced, HoldsOk, PlaceOk, FrameOk;
      SetFrameOff(st, f, fr, x);
      SetActorOff(SetFrame(st, f, fr), a, FFrame(s, o, f), x);
    }
  }

  lemma AdoptEven(st: State, a: nat, s: nat, o: nat, f: nat, x: nat)
    requires Even(st, x) && a < |st.actors| && st.actors[a] == FFrame(s, o, f) && f < |st.frames| && o < |st.originRefs|
    requires st.frames[f].origin == None
    ensures Even(AdoptStep(st, a, s, o, f), x)
  {
    var fr := st.frames[f].(origin := Some(o), wired := 0, dirty := false, owner := None);
    var st1 := SetFrame(st, f, fr);
    var st2 := SetActor(st1, a, FAdopted(s, o, f));
    assert PageWeight(FAdopted(s, o, f), x) == PageWeight(st.actors[a], x);
    assert OriginHeld(FAdopted(s, o, f)) == OriginHeld(st.actors[a]);
    hide OriginSlack, VpSlack, BusySlack, PageWeight, OriginHeld;
    SetFrameOff(st, f, fr, x);
    SetActorOff(st1, a, FAdopted(s, o, f), x);
    RefOriginOff(st2, o, 1, x);
  }

  lemma AdoptKeeps(st: State, a: nat, s: nat, o: nat, f: nat)
    requires Inv(st) && a < |st.actors| && st.actors[a] == FFrame(s, o, f) && f < |st.frames|
        && st.frames[f].lock == None
    ensures Inv(AdoptStep(st, a, s, o, f))
  {
    assert HoldsOk(st, a) && FrameOk(st, f);
    AdoptShape(st, a, s, o, f);
    var fr := st.frames[f].(origin := Some(o), wired := 0, dirty := false, owner := None);
    RefOriginShape(SetActor(SetFrame(st, f, fr), a, FAdopted(s, o, f)), o, 1);
    forall x: nat ensures Even(AdoptStep(st, a, s, o, f), x) { assert Even(st, x); AdoptEven(st, a, s, o, f, x); }
  }

  lemma PublishKeeps(st: State, a: nat, s: nat, o: nat, f: nat)
    requires Inv(st) && a < |st.actors| && st.actors[a] == FAdopted(s, o, f)
    ensures o < |st.origins| && Inv(PublishStep(st, a, o, f))
  {
    assert HoldsOk(st, a);
    PublishShape(st, a, s, o, f);
    var or := st.origins[o].(phys := Some(f), mutex := None);
    var st1 := SetActor(SetOrigin(st, o, or), a, Idle);
    RefOriginShape(st1, o, -1);
    forall x: nat
      ensures Even(PublishStep(st, a, o, f), x)
    {
      assert Even(st, x);
      hide OriginSlack, VpSlack, BusySlack, Shape, Balanced, HoldsOk, PlaceOk, FrameOk;
      SetOriginOff(st, o, or, x);
      SetActorOff(SetOrigin(st, o, or), a, Idle, x);
      RefOriginOff(st1, o, -1, x);
    }
  }

  predicate CanEnter(st: State, a: nat, f: nat, p: Phase) {
    && a < |st.actors| && FrameFree(st, f)
    && (|| (st.actors[a].Idle? && p == DEntered(f))
        || (st.actors[a].FMap? && st.actors[a].f == f && p == FEntered(st.actors[a].s, st.actors[a].o, f))
        || (st.actors[a].RHas? && st.actors[a].f == f && p == REntered(st.actors[a].s, st.actors[a].v, f)))
  }

  lemma EnterShape(st: State, a: nat, f: nat, p: Phase)
    requires Shape(st) && CanEnter(st, a, f, p)
    ensures Shape(Enter(st, a, f, p))
  {
    assert HoldsOk(st, a) && FrameOk(st, f);
    var user := st.frames[f].user;
    if user.Some? {
      BusyShape(st, user.id, st.vps[user.id].busy + 1);
    }
    hide Shape, HoldsOk, FrameOk;
    var st1 := EnterUser(st, user);
    LockShape(st1, a, f, p);
  }

  lemma EnterUserOff(st: State, f: nat, x: nat)
    requires Inv(st) && f < |st.frames|
    ensures OriginSlack(EnterUser(st, st.frames[f].user), x) == 0 && VpSlack(EnterUser(st, st.frames[f].user), x) == 0
    ensures BusySlack(EnterUser(st, st.frames[f].user), x) == One(st.frames[f].user == Some(x))
    ensures FreedAt(EnterUser(st, st.frames[f].user), x)
  {
    assert FrameOk(st, f) && Even(st, x);
    var user := st.frames[f].user;
    if user.Some? {
      hide OriginSlack, VpSlack, BusySlack, Shape, Balanced, FrameOk;
      SetVpOff(st, user.id, st.vps[user.id].(busy := st.vps[user.id].busy + 1), x);
    }
  }

  /** Taking a frame's lock makes its user busy. */
  lemma EnterKeeps(st: State, a: nat, f: nat, p: Phase)
    requires Inv(st) && CanEnter(st, a, f, p)
    ensures Inv(Enter(st, a, f, p))
  {
    EnterShape(st, a, f, p);
    assert FrameOk(st, f) && HoldsOk(st, a);
    forall x: nat
      ensures Even(Enter(st, a, f, p), x)
    {
      EnterUserOff(st, f, x);
      assert OriginHeld(p) == OriginHeld(st.actors[a]) && PageWeight(p, x) == PageWeight(st.actors[a], x);
      hide OriginSlack, VpSlack, BusySlack, Shape, FrameOk, HoldsOk, Balanced, OriginHeld, PageWeight;
      var st1 := EnterUser(st, st.frames[f].user);
      var fr := st.frames[f].(lock := Some(a), covered := true);
      SetFrameOff(st1, f, fr, x);
      SetActorOff(SetFrame(st1, f, fr), a, p, x);
    }
  }

  /** A covered user is busy, so that the count never goes below zero. */
  lemma UserBusy(st: State, f: nat)
    requires Sized(st) && Balanced(st) && Shape(st) && f < |st.frames| && st.frames[f].covered
        && st.frames[f].user.Some?
    ensures st.frames[f].user.id < |st.vps| && st.vps[st.frames[f].user.id].busy > 0
  {
    assert FrameOk(st, f);
    var v := st.frames[f].user.id;
    assert Even(st, v);
    SumAtLeast(CoverW(st.frames, v), f);
  }

  predicate CanLeave(st: State, a: nat, f: nat) {
    && a < |st.actors| && f < |st.frames| && LockHeld(st.actors[a]) == Some(f)
    && (st.actors[a].FDone? || st.actors[a].DEntered? || st.actors[a].REntered?)
  }

  lemma LeaveShape(st: State, a: nat, f: nat)
    requires Inv(st) && CanLeave(st, a, f)
    ensures Sized(LeaveAndUnlock(st, a, f)) && Shape(LeaveAndUnlock(st, a, f))
  {
    assert HoldsOk(st, a) && FrameOk(st, f);
    var user := st.frames[f].user;
    if user.Some? {
      UserBusy(st, f);
      BusyShape(st, user.id, st.vps[user.id].busy - 1);
    }
    hide Shape, HoldsOk, FrameOk, Balanced;
    UnlockShape(LeaveUser(st, user), a, f);
  }

  lemma LeaveFreed(st: State, a: nat, f: nat, x: nat)
    requires Inv(st) && CanLeave(st, a, f)
    ensures FreedAt(LeaveAndUnlock(st, a, f), x)
  {
    assert Even(st, x);
    hide OriginSlack, VpSlack, BusySlack, Shape, Balanced;
  }

  lemma LeaveUserOff(st: State, f: nat, x: nat)
    requires Inv(st) && f < |st.frames| && st.frames[f].covered
    ensures OriginSlack(LeaveUser(st, st.frames[f].user), x) == 0 && VpSlack(LeaveUser(st, st.frames[f].user), x) == 0
    ensures BusySlack(LeaveUser(st, st.frames[f].user), x) == 0 - One(CoversUser(st.frames[f], x))
  {
    assert FrameOk(st, f) && Even(st, x);
    var user := st.frames[f].user;
    if user.Some? {
      UserBusy(st, f);
      hide OriginSlack, VpSlack, BusySlack, Shape, Balanced, FrameOk;
      SetVpOff(st, user.id, LessBusy(st.vps[user.id]), x);
    }
  }

  /** Letting the lock go: what the actor held besides is given back by its caller. */
  lemma LeaveOff(st: State, a: nat, f: nat, x: nat)
    requires Inv(st) && CanLeave(st, a, f)
    ensures OriginSlack(LeaveAndUnlock(st, a, f), x) == One(OriginHeld(st.actors[a]) == Some(x))
    ensures VpSlack(LeaveAndUnlock(st, a, f), x) == PageWeight(st.actors[a], x)
    ensures BusySlack(LeaveAndUnlock(st, a, f), x) == 0 && FreedAt(LeaveAndUnlock(st, a, f), x)
  {
    assert HoldsOk(st, a);
    LeaveUserOff(st, f, x);
    LeaveFreed(st, a, f, x);
    hide OriginSlack, VpSlack, BusySlack, Shape, Balanced, HoldsOk, FreedAt;
    var st1 := LeaveUser(st, st.frames[f].user);
    var fr := st.frames[f].(lock := None, covered := false);
    SetFrameOff(st1, f, fr, x);
    SetActorOff(SetFrame(st1, f, fr), a, Idle, x);
  }

  lemma LeaveMapKeeps(st: State, a: nat, s: nat, o: nat, f: nat)
    requires Inv(st) && a < |st.actors| && st.actors[a] == FDone(s, o, f) && f < |st.frames|
    ensures Inv(RefOrigin(LeaveAndUnlock(st, a, f), o, -1))
  {
    assert HoldsOk(st, a);
    LeaveShape(st, a, f);
    var st1 := LeaveAndUnlock(st, a, f);
    RefOriginShape(st1, o, -1);
    forall x: nat
      ensures Even(RefOrigin(st1, o, -1), x)
    {
      LeaveOff(st, a, f, x);
      hide OriginSlack, VpSlack, BusySlack;
      RefOriginOff(st1, o, -1, x);
    }
  }

  lemma GiveUpKeeps(st: State, a: nat, f: nat)
    requires Inv(st) && a < |st.actors| && st.actors[a] == DEntered(f) && f < |st.frames|
    ensures Inv(LeaveAndUnlock(st, a, f))
  {
    LeaveShape(st, a, f);
    forall x: nat ensures Even(LeaveAndUnlock(st, a, f), x) { LeaveOff(st, a, f, x); }
  }

  /** The commit finds the frame still its origin's, and the slot's page still waiting. */
  predicate GoesThrough(st: State, s: nat, o: nat, f: nat) {
    f < |st.frames| && st.frames[f].origin == Some(o) && Waits(st, s, o)
  }

  lemma CommitShape(st: State, a: nat, s: nat, o: nat, f: nat)
    requires Shape(st) && a < |st.actors| && st.actors[a] == FEntered(s, o, f) && GoesThrough(st, s, o, f)
    ensures Shape(CommitStep(st, a, s, o, f))
  {
    var v := st.slots[s].id;
    CommitAlone(st, a, s, o, f, v);
    MapShape(st, a, s, o, f, v);
    var mapped := Mapped(st, a, s, o, f, v);
    var busy := st.vps[v].busy + 1;
    BusyShape(mapped, v, busy);
    var st2 := SetVp(mapped, v, mapped.vps[v].(busy := busy));
    RefOriginShape(st2, o, -1);
    RefVpShape(RefOrigin(st2, o, -1), v, 1);
    hide Shape;
    assert st2.vps == st.vps[v := st.vps[v].(place := On(f), busy := busy)];
    assert CommitStep(st, a, s, o, f) == RefVp(RefOrigin(st2, o, -1), v, 1);
  }

  lemma CommitFreed(st: State, a: nat, s: nat, o: nat, f: nat, x: nat)
    requires Inv(st) && a < |st.actors| && st.actors[a] == FEntered(s, o, f) && GoesThrough(st, s, o, f)
    ensures FreedAt(CommitStep(st, a, s, o, f), x)
  {
    assert Even(st, x);
    hide OriginSlack, VpSlack, BusySlack, Shape, Balanced;
  }

  /** The commit before its references are counted. */
  function Registered(st: State, a: nat, s: nat, o: nat, f: nat, v: nat): State
    requires a < |st.actors| && f < |st.frames| && v < |st.vps|
  {
    var st1 := SetActor(st, a, FDone(s, o, f));
    SetFrame(SetVp(st1, v, st.vps[v].(place := On(f), busy := st.vps[v].busy + 1)), f, st.frames[f].(user := Some(v)))
  }

  lemma RegisteredOff(st: State, a: nat, s: nat, o: nat, f: nat, v: nat, x: nat)
    requires Even(st, x) && a < |st.actors| && st.actors[a] == FEntered(s, o, f) && GoesThrough(st, s, o, f)
    requires v == st.slots[s].id && st.frames[f].user == None && st.frames[f].covered
    ensures OriginSlack(Registered(st, a, s, o, f, v), x) == One(x == o)
    ensures VpSlack(Registered(st, a, s, o, f, v), x) == 0 - One(x == v)
        && BusySlack(Registered(st, a, s, o, f, v), x) == 0
  {
    var st1 := SetActor(st, a, FDone(s, o, f));
    var vp := st.vps[v].(place := On(f), busy := st.vps[v].busy + 1);
    assert OriginHeld(FDone(s, o, f)) == OriginHeld(st.actors[a])
        && PageWeight(FDone(s, o, f), x) == PageWeight(st.actors[a], x);
    hide OriginSlack, VpSlack, BusySlack, FreedAt, OriginHeld, PageWeight;
    SetActorOff(st, a, FDone(s, o, f), x);
    assert OriginSlack(st1, x) == 0 && VpSlack(st1, x) == 0 && BusySlack(st1, x) == 0;
    SetVpOff(st1, v, vp, x);
    SetFrameOff(SetVp(st1, v, vp), f, st.frames[f].(user := Some(v)), x);
  }

  lemma CommitEven(st: State, a: nat, s: nat, o: nat, f: nat, x: nat)
    requires Inv(st) && a < |st.actors| && st.actors[a] == FEntered(s, o, f) && GoesThrough(st, s, o, f)
    ensures Even(CommitStep(st, a, s, o, f), x)
  {
    assert HoldsOk(st, a);
    var v := st.slots[s].id;
    assert Even(st, x);
    CommitAlone(st, a, s, o, f, v);
    CommitFreed(st, a, s, o, f, x);
    RegisteredOff(st, a, s, o, f, v, x);
    hide OriginSlack, VpSlack, BusySlack, Shape, Balanced, HoldsOk, FreedAt;
    var st3 := Registered(st, a, s, o, f, v);
    assert CommitStep(st, a, s, o, f) == RefVp(RefOrigin(st3, o, -1), v, 1);
    RefOriginOff(st3, o, -1, x);
    RefVpOff(RefOrigin(st3, o, -1), v, 1, x);
  }

  /** Going through or not, a commit keeps the invariant. */
  lemma CommitKeeps(st: State, a: nat, s: nat, o: nat, f: nat)
    requires Inv(st) && a < |st.actors| && st.actors[a] == FEntered(s, o, f) && f < |st.frames|
    ensures Inv(CommitStep(st, a, s, o, f))
  {
    if GoesThrough(st, s, o, f) {
      CommitShape(st, a, s, o, f);
      forall x: nat ensures Even(CommitStep(st, a, s, o, f), x) { CommitEven(st, a, s, o, f, x); }
    } else {
      assert HoldsOk(st, a);
      MoveShape(st, a, FDone(s, o, f));
      forall x: nat
        ensures Even(CommitStep(st, a, s, o, f), x)
      {
        assert Even(st, x);
        hide OriginSlack, VpSlack, BusySlack, Shape, Balanced, HoldsOk, VpOk;
        SetActorOff(st, a, FDone(s, o, f), x);
      }
    }
  }

  lemma DiscardUnmapEven(st: State, a: nat, f: nat, x: nat)
    requires Even(st, x) && a < |st.actors| && st.actors[a] == DEntered(f) && Usable(st, f)
    requires st.frames[f].user.id < |st.vps| && st.vps[st.frames[f].user.id].place == On(f)
    requires st.frames[f].origin.id < |st.originRefs|
    ensures Even(UnmapStep(st, a, f), x)
  {
    var v, o := st.frames[f].user.id, st.frames[f].origin.id;
    var st1 := SetActor(st, a, DUnmapped(f));
    var vp := st1.vps[v].(place := Absent(o));
    assert PageWeight(DUnmapped(f), x) == PageWeight(st.actors[a], x)
        && OriginHeld(DUnmapped(f)) == OriginHeld(st.actors[a]);
    hide OriginSlack, VpSlack, BusySlack, PageWeight, OriginHeld;
    SetActorOff(st, a, DUnmapped(f), x);
    SetVpOff(st1, v, vp, x);
    RefOriginOff(SetVp(st1, v, vp), o, 1, x);
  }

  lemma DiscardUnmapKeeps(st: State, a: nat, f: nat)
    requires Inv(st) && a < |st.actors| && st.actors[a] == DEntered(f) && Usable(st, f)
    requires st.origins[st.frames[f].origin.id].phys == Some(f)
    ensures Inv(UnmapStep(st, a, f))
  {
    assert HoldsOk(st, a) && FrameOk(st, f);
    var v, o := st.frames[f].user.id, st.frames[f].origin.id;
    UnmapShape(st, a, f, v, o);
    RefOriginShape(Unmapped(st, a, f, v, o), o, 1);
    forall x: nat ensures Even(UnmapStep(st, a, f), x) { assert Even(st, x); DiscardUnmapEven(st, a, f, x); }
  }

  lemma DiscardClearKeeps(st: State, a: nat, f: nat)
    requires Inv(st) && a < |st.actors| && st.actors[a] == DUnmapped(f) && f < |st.frames|
    ensures Inv(ClearStep(st, a, f))
  {
    assert PlaceOk(st, a) && FrameOk(st, f);
    var o := st.frames[f].origin.id;
    ClearShape(st, a, f, o);
    var or := st.origins[o].(phys := None);
    forall x: nat
      ensures Even(ClearStep(st, a, f), x)
    {
      assert Even(st, x);
      hide OriginSlack, VpSlack, BusySlack, Shape, Balanced, HoldsOk, PlaceOk, FrameOk;
      SetOriginOff(st, o, or, x);
      SetActorOff(SetOrigin(st, o, or), a, DCleared(f), x);
    }
  }

  lemma DiscardLeaveEven(st: State, a: nat, f: nat, x: nat)
    requires Inv(st) && a < |st.actors| && st.actors[a] == DCleared(f) && f < |st.frames| && st.frames[f].covered
    ensures Even(LeaveStep(st, a, f), x)
  {
    DiscardLeaveFreed(st, a, f, x);
    assert PageWeight(DLeft(f), x) == PageWeight(st.actors[a], x) && OriginHeld(DLeft(f)) == OriginHeld(st.actors[a]);
    hide Inv, OriginSlack, VpSlack, BusySlack, Shape, Balanced, PageWeight, OriginHeld, FreedAt, LeaveUser;
    LeaveUserOff(st, f, x);
    var st1 := LeaveUser(st, st.frames[f].user);
    var fr := st.frames[f].(covered := false);
    SetFrameOff(st1, f, fr, x);
    SetActorOff(SetFrame(st1, f, fr), a, DLeft(f), x);
  }

  lemma DiscardLeaveFreed(st: State, a: nat, f: nat, x: nat)
    requires Inv(st) && a < |st.actors| && f < |st.frames|
    ensures FreedAt(LeaveStep(st, a, f), x)
  {
    assert Even(st, x);
    hide Inv, OriginSlack, VpSlack, BusySlack, Shape, Balanced;
  }

  lemma DiscardLeaveKeeps(st: State, a: nat, f: nat)
    requires Inv(st) && a < |st.actors| && st.actors[a] == DCleared(f) && f < |st.frames|
    ensures Inv(LeaveStep(st, a, f))
  {
    assert HoldsOk(st, a) && PlaceOk(st, a) && FrameOk(st, f);
    UserBusy(st, f);
    var v := st.frames[f].user.id;
    BusyShape(st, v, st.vps[v].busy - 1);
    UncoverShape(LeaveUser(st, st.frames[f].user), a, f);
    forall x: nat ensures Even(LeaveStep(st, a, f), x) { DiscardLeaveEven(st, a, f, x); }
  }

  lemma DiscardFreeKeeps(st: State, a: nat, f: nat)
    requires Inv(st) && a < |st.actors| && st.actors[a] == DLeft(f) && f < |st.frames|
    ensures Inv(DiscardFreeStep(st, a, f))
  {
    assert HoldsOk(st, a) && PlaceOk(st, a) && FrameOk(st, f);
    FreeDiscardedShape(st, a, f);
    var v, o := st.frames[f].user.id, st.frames[f].origin.id;
    var fr := Freed(st.frames[f]).(lock := None);
    var st1 := SetActor(SetFrame(st, f, fr), a, Idle);
    RefOriginShape(st1, o, -1);
    var st2 := RefOrigin(st1, o, -1);
    forall x: nat
      ensures OwedAt(st2, v, 1, x)
    {
      assert Even(st, x);
      hide OriginSlack, VpSlack, BusySlack, Shape, Balanced, HoldsOk, PlaceOk, FrameOk;
      SetFrameOff(st, f, fr, x);
      SetActorOff(SetFrame(st, f, fr), a, Idle, x);
      RefOriginOff(st1, o, -1, x);
    }
    DerefKeeps(st2, v, 1);
  }

  /** An idle actor takes one reference to a page that is named somewhere. */
  lemma TakeVpEven(st: State, a: nat, p: Phase, v: nat, x: nat)
    requires Even(st, x) && a < |st.actors| && st.actors[a].Idle? && v < |st.vpRefs| && v < |st.vps|
        && st.vps[v].place != Gone
    requires VpHeld(p) == Some(v) && VpHolds(p) == 1 && OriginHeld(p) == None
    ensures Even(RefVp(SetActor(st, a, p), v, 1), x)
  {
    assert PageWeight(p, x) == One(x == v) && PageWeight(st.actors[a], x) == 0;
    hide OriginSlack, VpSlack, BusySlack, PageWeight, VpHeld, VpHolds;
    SetActorOff(st, a, p, x);
    RefVpOff(SetActor(st, a, p), v, 1, x);
  }

  lemma ReleaseKeeps(st: State, a: nat, s: nat)
    requires Inv(st) && a < |st.actors| && st.actors[a].Idle? && s < |st.slots| && st.slots[s].Some?
        && st.slots[s].id < |st.vps|
    ensures Inv(ReleaseStep(st, a, s))
  {
    var v := st.slots[s].id;
    assert VpOk(st, v);
    if st.vps[v].place.On? {
      var p := RHas(s, v, st.vps[v].place.frame);
      MoveShape(st, a, p);
      RefVpShape(SetActor(st, a, p), v, 1);
      forall x: nat ensures Even(ReleaseStep(st, a, s), x) { assert Even(st, x); TakeVpEven(st, a, p, v, x); }
    } else {
      EmptySlotShape(st, s);
      var st1 := st.(slots := st.slots[s := None]);
      forall x: nat
        ensures OwedAt(st1, v, 1, x)
      {
        assert Even(st, x);
        hide OriginSlack, VpSlack, BusySlack, Shape, Balanced, HoldsOk, VpOk;
        EmptySlotOff(st, s, x);
      }
      DerefKeeps(st1, v, 1);
    }
  }

  lemma UnlinkGoesShape(st: State, a: nat, s: nat, v: nat, f: nat)
    requires Inv(st) && a < |st.actors| && st.actors[a] == REntered(s, v, f) && f < |st.frames|
    requires Names(st, s, v) && st.vps[v].place == On(f)
    requires st.vps[v].own < |st.origins| && st.origins[st.vps[v].own].phys == Some(f)
    ensures Shape(UnlinkStep(st, a, s, v, f))
  {
    assert HoldsOk(st, a);
    OnItsFrame(st, s, v, f);
    UserBusy(st, f);
    UnlinkShape(st, a, s, v, f);
    var st1 := Unlinked(st, a, s, v, f);
    BusyShape(st1, v, st.vps[v].busy - 1);
    assert UnlinkStep(st, a, s, v, f) == SetVp(st1, v, st1.vps[v].(busy := st.vps[v].busy - 1));
  }

  lemma UnlinkGoesEven(st: State, a: nat, s: nat, v: nat, f: nat, x: nat)
    requires Even(st, x) && a < |st.actors| && st.actors[a] == REntered(s, v, f) && f < |st.frames|
    requires Names(st, s, v) && st.vps[v].place == On(f) && st.vps[v].busy > 0
    requires st.frames[f].user == Some(v) && st.frames[f].covered
    ensures Even(UnlinkStep(st, a, s, v, f), x)
  {
    var p := RUnlinked(s, v, f);
    assert PageWeight(p, x) == PageWeight(st.actors[a], x) + 2 * One(x == v)
        && OriginHeld(p) == OriginHeld(st.actors[a]);
    hide OriginSlack, VpSlack, BusySlack, PageWeight, OriginHeld;
    var st1 := SetActor(st, a, p);
    var st2 := st1.(slots := st.slots[s := None]);
    var st3 := SetVp(st2, v, LessBusy(st2.vps[v]));
    SetActorOff(st, a, p, x);
    EmptySlotOff(st1, s, x);
    SetVpOff(st2, v, LessBusy(st2.vps[v]), x);
    SetFrameOff(st3, f, st.frames[f].(user := None, covered := false), x);
  }

  lemma UnlinkKeeps(st: State, a: nat, s: nat, v: nat, f: nat)
    requires Inv(st) && a < |st.actors| && st.actors[a] == REntered(s, v, f) && f < |st.frames|
    requires Names(st, s, v) && st.vps[v].place == On(f) ==>
        st.vps[v].own < |st.origins| && st.origins[st.vps[v].own].phys == Some(f)
    ensures Inv(UnlinkStep(st, a, s, v, f))
  {
    if Names(st, s, v) && st.vps[v].place == On(f) {
      UnlinkGoesShape(st, a, s, v, f);
      assert HoldsOk(st, a);
      OnItsFrame(st, s, v, f);
      UserBusy(st, f);
      forall x: nat
        ensures Even(UnlinkStep(st, a, s, v, f), x)
      {
        assert Even(st, x);
        UnlinkGoesEven(st, a, s, v, f, x);
      }
    } else {
      assert HoldsOk(st, a);
      LeaveShape(st, a, f);
      var st1 := LeaveAndUnlock(st, a, f);
      forall x: nat ensures OwedAt(st1, v, 1, x) { LeaveOff(st, a, f, x); }
      DerefKeeps(st1, v, 1);
    }
  }

  lemma DetachKeeps(st: State, a: nat, s: nat, v: nat, f: nat)
    requires Inv(st) && a < |st.actors| && st.actors[a] == RUnlinked(s, v, f) && f < |st.frames|
    ensures Inv(DetachStep(st, a, s, v, f))
  {
    assert HoldsOk(st, a) && PlaceOk(st, a);
    var o := st.frames[f].origin.id;
    DetachShape(st, a, s, v, f, o);
    var or := st.origins[o].(phys := None);
    var fr := st.frames[f].(origin := None, lock := None, owner := Some(a));
    var st1 := SetOrigin(st, o, or);
    forall x: nat
      ensures Even(DetachStep(st, a, s, v, f), x)
    {
      assert Even(st, x);
      assert PageWeight(RDetached(s, v, f, o), x) == PageWeight(st.actors[a], x);
      hide OriginSlack, VpSlack, BusySlack, Shape, Balanced, HoldsOk, PlaceOk, PageWeight;
      SetOriginOff(st, o, or, x);
      SetFrameOff(st1, f, fr, x);
      SetActorOff(SetFrame(st1, f, fr), a, RDetached(s, v, f, o), x);
    }
  }

  lemma ReleaseFreeKeeps(st: State, a: nat, s: nat, v: nat, f: nat, o: nat)
    requires Inv(st) && a < |st.actors| && st.actors[a] == RDetached(s, v, f, o) && f < |st.frames|
    ensures Inv(ReleaseFreeStep(st, a, s, v, f, o))
  {
    FreeReleasedShape(st, a, s, v, f, o);
    var fr := st.frames[f].(taken := false, owner := None);
    forall x: nat
      ensures Even(ReleaseFreeStep(st, a, s, v, f, o), x)
    {
      assert Even(st, x);
      assert PageWeight(RFreed(s, v, f, o), x) == PageWeight(st.actors[a], x);
      hide OriginSlack, VpSlack, BusySlack, Shape, Balanced, PageWeight;
      SetFrameOff(st, f, fr, x);
      SetActorOff(SetFrame(st, f, fr), a, RFreed(s, v, f, o), x);
    }
  }

  lemma ReleaseCleanKeeps(st: State, a: nat, s: nat, v: nat, f: nat, o: nat)
    requires Inv(st) && a < |st.actors| && st.actors[a] == RFreed(s, v, f, o) && f < |st.frames|
    ensures Inv(ReleaseCleanStep(st, a, s, v, f, o))
  {
    var st1 := SetFrame(st, f, st.frames[f].(wired := st.frames[f].wired, dirty := false));
    WiredKeeps(st, f, st.frames[f].wired, false);
    assert st1 == SetFrame(st, f, st.frames[f].(dirty := false));
    assert HoldsOk(st1, a);
    MoveShape(st1, a, RCleaned(s, v, f, o));
    forall x: nat
      ensures Even(ReleaseCleanStep(st, a, s, v, f, o), x)
    {
      assert Even(st1, x);
      assert PageWeight(RCleaned(s, v, f, o), x) == PageWeight(st1.actors[a], x);
      hide OriginSlack, VpSlack, BusySlack, Shape, Balanced, PageWeight;
      SetActorOff(st1, a, RCleaned(s, v, f, o), x);
    }
  }

  /** The release has let go of the frame, and given back the origin reference it had; the page's are yet to be. */
  function Unowned(st: State, a: nat, f: nat, o: nat): State
    requires a < |st.actors| && f < |st.frames|
  {
    RefOrigin(SetActor(SetFrame(st, f, st.frames[f].(wired := 0)), a, Idle), o, -1)
  }

  lemma ReleaseResetOwed(st: State, a: nat, s: nat, v: nat, f: nat, o: nat, x: nat)
    requires Even(st, x) && a < |st.actors| && st.actors[a] == RCleaned(s, v, f, o) && f < |st.frames|
        && o < |st.originRefs|
    ensures OwedAt(Unowned(st, a, f, o), v, 3, x)
  {
    var fr := st.frames[f].(wired := 0);
    var st1 := SetActor(SetFrame(st, f, fr), a, Idle);
    assert PageWeight(st.actors[a], x) == (if x == v then 3 else 0) && OriginHeld(st.actors[a]) == Some(o);
    assert PageWeight(Idle, x) == 0 && OriginHeld(Idle) == None;
    hide OriginSlack, VpSlack, BusySlack, PageWeight, OriginHeld;
    SetFrameOff(st, f, fr, x);
    SetActorOff(SetFrame(st, f, fr), a, Idle, x);
    RefOriginOff(st1, o, -1, x);
  }

  lemma ReleaseResetShape(st: State, a: nat, s: nat, v: nat, f: nat, o: nat)
    requires Shape(st) && a < |st.actors| && st.actors[a] == RCleaned(s, v, f, o) && f < |st.frames|
    ensures Shape(Unowned(st, a, f, o))
  {
    WiredShape(st, f, 0, st.frames[f].dirty);
    var st1 := SetFrame(st, f, st.frames[f].(wired := 0));
    assert st1 == SetFrame(st, f, st.frames[f].(wired := 0, dirty := st.frames[f].dirty));
    MoveShape(st1, a, Idle);
    RefOriginShape(SetActor(st1, a, Idle), o, -1);
  }

  lemma ReleaseResetKeeps(st: State, a: nat, s: nat, v: nat, f: nat, o: nat)
    requires Inv(st) && a < |st.actors| && st.actors[a] == RCleaned(s, v, f, o) && f < |st.frames|
    ensures Inv(ReleaseResetStep(st, a, v, f, o))
  {
    assert HoldsOk(st, a);
    ReleaseResetShape(st, a, s, v, f, o);
    var st2 := Unowned(st, a, f, o);
    forall x: nat ensures OwedAt(st2, v, 3, x) { assert Even(st, x); ReleaseResetOwed(st, a, s, v, f, o, x); }
    DerefKeeps(st2, v, 3);
  }

  lemma WireKeeps(st: State, a: nat, s: nat)
    requires Inv(st) && a < |st.actors| && st.actors[a].Idle? && s < |st.slots|
    ensures Inv(WireStep(st, a, s))
  {
    if st.slots[s].Some? && st.slots[s].id < |st.vps| && st.vps[st.slots[s].id].place.On? {
      var v := st.slots[s].id;
      var p := WHas(s, v, st.vps[v].place.frame);
      assert VpOk(st, v);
      MoveShape(st, a, p);
      RefVpShape(SetActor(st, a, p), v, 1);
      forall x: nat ensures Even(WireStep(st, a, s), x) { assert Even(st, x); TakeVpEven(st, a, p, v, x); }
    }
  }

  /** With both locks held: if the page is still on the frame, the frame is wired once more. */
  function Wired(st: State, a: nat, s: nat, v: nat, f: nat): State
    requires a < |st.actors| && f < |st.frames|
  {
    var st1 := SetActor(st, a, Idle);
    if Names(st, s, v) && st.vps[v].place == On(f)
    then SetFrame(st1, f, st1.frames[f].(wired := st1.frames[f].wired + 1)) else st1
  }

  lemma WireFrameShape(st: State, a: nat, s: nat, v: nat, f: nat)
    requires Shape(st) && a < |st.actors| && st.actors[a] == WHas(s, v, f) && FrameFree(st, f)
    ensures Shape(Wired(st, a, s, v, f))
  {
    MoveShape(st, a, Idle);
    var st1 := SetActor(st, a, Idle);
    if Names(st, s, v) && st.vps[v].place == On(f) {
      OnItsFrame(st1, s, v, f);
      WiredShape(st1, f, st1.frames[f].wired + 1, st1.frames[f].dirty);
    }
  }

  lemma WireFrameOwed(st: State, a: nat, s: nat, v: nat, f: nat, x: nat)
    requires Even(st, x) && a < |st.actors| && st.actors[a] == WHas(s, v, f) && FrameFree(st, f)
    ensures OwedAt(Wired(st, a, s, v, f), v, 1, x)
  {
    var st1 := SetActor(st, a, Idle);
    assert OwedAt(st1, v, 1, x) by {
      hide OriginSlack, VpSlack, BusySlack;
      SetActorOff(st, a, Idle, x);
    }
    if Names(st, s, v) && st.vps[v].place == On(f) {
      SameOwed(st1, f, st1.frames[f].(wired := st1.frames[f].wired + 1), v, 1, x);
    }
  }

  /** What a frame's other fields say plays no part in the counts. */
  lemma SameOwed(st: State, f: nat, fr: Frame, v: nat, n: int, x: nat)
    requires f < |st.frames| && OwedAt(st, v, n, x)
    requires fr.origin == st.frames[f].origin && fr.user == st.frames[f].user && fr.covered == st.frames[f].covered
    ensures OwedAt(SetFrame(st, f, fr), v, n, x)
  {
    hide OriginSlack, VpSlack, BusySlack;
    SetFrameOff(st, f, fr, x);
  }

  lemma WireFrameKeeps(st: State, a: nat, s: nat, v: nat, f: nat)
    requires Inv(st) && a < |st.actors| && st.actors[a] == WHas(s, v, f) && FrameFree(st, f)
    ensures Inv(WireFrameStep(st, a, s, v, f))
  {
    assert HoldsOk(st, a);
    WireFrameShape(st, a, s, v, f);
    forall x: nat
      ensures OwedAt(Wired(st, a, s, v, f), v, 1, x)
    {
      assert Even(st, x);
      WireFrameOwed(st, a, s, v, f, x);
    }
    DerefKeeps(Wired(st, a, s, v, f), v, 1);
  }

  lemma UnwireKeeps(st: State, a: nat, s: nat)
    requires Inv(st) && a < |st.actors| && st.actors[a].Idle? && s < |st.slots|
    ensures Inv(UnwireStep(st, a, s))
  {
    if st.slots[s].Some? && st.slots[s].id < |st.vps| && st.vps[st.slots[s].id].place.On? {
      var p := UHas(st.vps[st.slots[s].id].place.frame);
      assert VpOk(st, st.slots[s].id);
      MoveShape(st, a, p);
      forall x: nat
        ensures Even(UnwireStep(st, a, s), x)
      {
        assert Even(st, x);
        hide OriginSlack, VpSlack, BusySlack, Shape, Balanced, HoldsOk, VpOk;
        SetActorOff(st, a, p, x);
      }
    }
  }

  /** A frame's wire count and dirty bit play no part in the counts. */
  lemma WiredKeeps(st: State, f: nat, wired: nat, dirty: bool)
    requires Inv(st) && f < |st.frames|
    requires wired == st.frames[f].wired || wired == 0 || st.frames[f].lock == None
    ensures Inv(SetFrame(st, f, st.frames[f].(wired := wired, dirty := dirty)))
  {
    assert FrameOk(st, f);
    WiredShape(st, f, wired, dirty);
    forall x: nat
      ensures Even(SetFrame(st, f, st.frames[f].(wired := wired, dirty := dirty)), x)
    {
      assert Even(st, x);
      hide OriginSlack, VpSlack, BusySlack, Shape, Balanced, HoldsOk, PlaceOk, FrameOk;
      SetFrameOff(st, f, st.frames[f].(wired := wired, dirty := dirty), x);
    }
  }

  lemma UnwireFrameKeeps(st: State, a: nat, f: nat)
    requires Inv(st) && a < |st.actors| && st.actors[a] == UHas(f) && FrameFree(st, f)
    ensures Inv(UnwireFrameStep(st, a, f))
  {
    var wired := if st.frames[f].wired > 0 then st.frames[f].wired - 1 else 0;
    WiredKeeps(st, f, wired, st.frames[f].dirty);
    var st1 := SetFrame(st, f, st.frames[f].(wired := wired));
    assert st1 == SetFrame(st, f, st.frames[f].(wired := wired, dirty := st.frames[f].dirty));
    MoveShape(st1, a, Idle);
    forall x: nat
      ensures Even(UnwireFrameStep(st, a, f), x)
    {
      hide OriginSlack, VpSlack, BusySlack;
      assert Even(st1, x);
      SetActorOff(st1, a, Idle, x);
    }
  }
}
