/** What the paging invariant says in the code's own terms, and what ends a frame's being wired. */
module VmmFacts {
  import opened VmmStates
  import opened VmmShape
  import opened VmmSteps
  import opened VmmRefs
  import opened VmmKeeps
  import opened VmmRuns

  /** An origin that names a frame names an allocated one that belongs to it. */
  lemma OriginNamesItsFrame(st: State, o: nat)
    requires Inv(st) && o < |st.origins| && st.origins[o].phys.Some?
    ensures var f := st.origins[o].phys.id; f < |st.frames| && st.frames[f].taken && st.frames[f].origin == Some(o)
  {
    assert OriginOk(st, o);
  }

  /** A page that is in its slot and present on a frame is registered on exactly that frame, which is allocated and
      shared with no other slot's page. */
  lemma PresentIsRegistered(st: State, s: nat, v: nat, f: nat)
    requires Inv(st) && Names(st, s, v) && st.vps[v].place == On(f)
    ensures f < |st.frames| && st.frames[f].taken && st.frames[f].user == Some(v)
        && st.frames[f].origin == Some(st.vps[v].own)
    ensures forall t: nat, w: nat :: Names(st, t, w) && st.vps[w].place == On(f) ==> t == s && w == v
  {
    OnItsFrame(st, s, v, f);
    forall t: nat, w: nat | Names(st, t, w) && st.vps[w].place == On(f)
      ensures t == s && w == v
    {
      OnItsFrame(st, t, w, f);
      assert SlotOk(st, s) && SlotOk(st, t);
    }
  }

  /** A free frame is on nobody's books; VmmFrees says what of it a release may still have to reset. */
  lemma FreeFrameUnused(st: State, f: nat)
    requires Inv(st) && f < |st.frames| && !st.frames[f].taken
    ensures st.frames[f].user == None && st.frames[f].origin == None
    ensures forall o :: 0 <= o < |st.origins| ==> st.origins[o].phys != Some(f)
    ensures forall s: nat, v: nat :: Names(st, s, v) ==> st.vps[v].place != On(f)
  {
    assert FrameOk(st, f);
    forall o | 0 <= o < |st.origins| ensures st.origins[o].phys != Some(f) { assert OriginOk(st, o); }
    forall s: nat, v: nat | Names(st, s, v) ensures st.vps[v].place != On(f) {
      assert VpOk(st, v) && SlotOk(st, s);
    }
  }

  /** Each count is exactly the names counted. */
  lemma CountsExact(st: State)
    requires Inv(st)
    ensures forall o :: 0 <= o < |st.origins| ==> st.originRefs[o] == OriginNames(st, o)
    ensures forall v :: 0 <= v < |st.vps| ==> st.vpRefs[v] == VpNames(st, v) && st.vps[v].busy == Covering(st, v)
  {
    forall o | 0 <= o < |st.origins| ensures st.originRefs[o] == OriginNames(st, o) { assert Even(st, o); }
    forall v | 0 <= v < |st.vps|
      ensures st.vpRefs[v] == VpNames(st, v) && st.vps[v].busy == Covering(st, v)
    {
      assert Even(st, v);
    }
  }

  /** A freed page is in no slot, on no frame and in no thread's hands, and not busy. */
  lemma FreedPageUnnamed(st: State, v: nat)
    requires Inv(st) && v < |st.vps| && st.vps[v].place == Gone
    ensures forall s :: 0 <= s < |st.slots| ==> st.slots[s] != Some(v)
    ensures forall f :: 0 <= f < |st.frames| ==> st.frames[f].user != Some(v)
    ensures forall a :: 0 <= a < |st.actors| ==> VpHeld(st.actors[a]) != Some(v)
    ensures st.vps[v].busy == 0
  {
    assert Even(st, v);
    Unnamed(st, v);
  }

  /** An origin whose count is zero, and which is therefore freed, is named by no page, frame or thread. */
  lemma FreedOriginUnnamed(st: State, o: nat)
    requires Inv(st) && o < |st.origins| && st.originRefs[o] == 0
    ensures forall v :: 0 <= v < |st.vps| ==> st.vps[v].place != Absent(o)
    ensures forall f :: 0 <= f < |st.frames| ==> st.frames[f].origin != Some(o)
    ensures forall a :: 0 <= a < |st.actors| ==> OriginHeld(st.actors[a]) != Some(o)
    ensures st.origins[o].phys == None
  {
    assert Even(st, o) && OriginOk(st, o);
    forall v | 0 <= v < |st.vps| ensures st.vps[v].place != Absent(o) { SumAtLeast(WaitW(st.vps, o), v); }
    forall f | 0 <= f < |st.frames| ensures st.frames[f].origin != Some(o) { SumAtLeast(OwnedW(st.frames, o), f); }
    forall a | 0 <= a < |st.actors|
      ensures OriginHeld(st.actors[a]) != Some(o)
    {
      SumAtLeast(HolderW(st.actors, o), a);
    }
  }

  /** What the code asserts as it discards, detaches, adopts, unlinks and leaves holds. */
  lemma AssertsHold(st: State, a: nat)
    requires Inv(st) && a < |st.actors|
    ensures match st.actors[a]
            case DUnmapped(f) => f < |st.frames| && st.frames[f].origin.Some? && st.frames[f].origin.id < |st.origins|
                                 && st.origins[st.frames[f].origin.id].phys == Some(f)
            case RUnlinked(_, _, f) => f < |st.frames| && st.frames[f].origin.Some?
                && st.frames[f].origin.id < |st.origins|
                                       && st.origins[st.frames[f].origin.id].phys == Some(f)
            case FFrame(_, _, f) => f < |st.frames| && st.frames[f].origin == None && st.frames[f].user == None
            case REntered(s, v, f) => Names(st, s, v) && st.vps[v].place == On(f) ==>
                f < |st.frames| && st.frames[f].user == Some(v)
            case DCleared(f) => f < |st.frames| && st.frames[f].user.Some? && st.frames[f].user.id < |st.vps|
                                && st.vps[st.frames[f].user.id].busy > 0
            case FDone(_, _, f) => f < |st.frames| && (st.frames[f].user.Some? ==>
                                   st.frames[f].user.id < |st.vps| && st.vps[st.frames[f].user.id].busy > 0)
            case _ => true
  {
    assert HoldsOk(st, a) && PlaceOk(st, a);
    match st.actors[a]
    case DCleared(f) => UserBusy(st, f);
    case FDone(_, _, f) => if st.frames[f].user.Some? { UserBusy(st, f); }
    case FFrame(_, _, f) => assert FrameOk(st, f);
    case REntered(s, v, f) => if Names(st, s, v) && st.vps[v].place == On(f) { OnItsFrame(st, s, v, f); }
    case _ =>
  }

  /** A release that goes through finds its page busy once, as the code asserts, exactly when no other held frame
      still lists it; such a frame is in the middle of being discarded. */
  lemma ReleaseBusyOnce(st: State, a: nat, s: nat, v: nat, f: nat)
    requires Inv(st) && a < |st.actors| && st.actors[a] == REntered(s, v, f) && Names(st, s, v)
        && st.vps[v].place == On(f)
    ensures st.vps[v].busy == 1 <==> forall g :: 0 <= g < |st.frames| && g != f ==> !CoversUser(st.frames[g], v)
    ensures forall g {:trigger CoversUser(st.frames[g], v)} ::
              0 <= g < |st.frames| && g != f && CoversUser(st.frames[g], v) ==> Unmapping(st, g)
  {
    OnItsFrame(st, s, v, f);
    assert HoldsOk(st, a) && Even(st, v);
    var ws := CoverW(st.frames, v);
    var others := ws[f := 0];
    SumUpdate(ws, f, 0);
    if forall g :: 0 <= g < |st.frames| && g != f ==> !CoversUser(st.frames[g], v) {
      SumZero(others);
    } else {
      var g :| 0 <= g < |st.frames| && g != f && CoversUser(st.frames[g], v);
      SumAtLeast(others, g);
    }
    forall g | 0 <= g < |st.frames| && g != f && CoversUser(st.frames[g], v)
      ensures Unmapping(st, g)
    {
      assert FrameOk(st, g);
    }
  }

  // ---- Pages on their frames ----

  /** A page is on the frame. */
  predicate PageOn(st: State, f: nat) {
    f < |st.frames| && st.frames[f].user.Some? && st.frames[f].user.id < |st.vps|
    && st.vps[st.frames[f].user.id].place == On(f)
  }

  lemma UnmappingOff(st: State, f: nat)
    requires Inv(st) && f < |st.frames|
    ensures Unmapping(st, f) ==> Discarding(st, f)
  {
    if Unmapping(st, f) {
      assert PlaceOk(st, st.frames[f].lock.id);
    }
  }

  lemma OnNotUnmapping(st: State, f: nat)
    requires Inv(st) && PageOn(st, f)
    ensures !Unmapping(st, f) && st.frames[f].taken && st.frames[f].owner == None
  {
    assert FrameOk(st, f);
    UnmappingOff(st, f);
  }

  /** A wired frame's user is present on it. */
  lemma WiredPresent(st: State, f: nat)
    requires Inv(st) && f < |st.frames| && st.frames[f].wired > 0 && st.frames[f].user.Some?
    ensures PageOn(st, f)
  {
    assert FrameOk(st, f);
    UnmappingOff(st, f);
  }

  /** The step releases the frame's page. */
  predicate ReleasesPage(st: State, op: Op, f: nat)
    requires Allowed(st, op)
  {
    op.ReleaseUnlink? && ReleaseGoes(st, op.a) && st.actors[op.a].f == f
  }

  /** The second write of a release that made frame f free, and the last. */
  predicate CleansLate(st: State, op: Op, f: nat)
    requires Allowed(st, op)
  {
    op.ReleaseClean? && st.actors[op.a].f == f
  }

  predicate UnwiresLate(st: State, op: Op, f: nat)
    requires Allowed(st, op)
  {
    op.ReleaseReset? && st.actors[op.a].f == f
  }

  predicate UnwiresFrame(st: State, op: Op, f: nat)
    requires Allowed(st, op)
  {
    op.UnwireFrame? && st.actors[op.a] == UHas(f)
  }

  /** The frame keeps its user and its origin; it stays dirty but for a late write, and wired but for one or for being
      unwired. */
  predicate FrameKept(st: State, op: Op, f: nat)
    requires Allowed(st, op) && f < |st.frames|
  {
    && f < |Step(st, op).frames|
    && var fr, fr' := st.frames[f], Step(st, op).frames[f];
       && fr'.taken && fr'.user == fr.user && fr'.origin == fr.origin
       && (if CleansLate(st, op, f) then !fr'.dirty else fr.dirty ==> fr'.dirty)
       && (if UnwiresLate(st, op, f) then fr'.wired == 0
           else UnwiresFrame(st, op, f) || fr'.wired >= fr.wired)
  }

  lemma KeptThroughFault(st: State, op: Op, f: nat)
    requires Inv(st) && Allowed(st, op) && PageOn(st, f)
    requires op.Create? || op.Fault? || op.FixedFault? || op.PeekPhys? || op.LockOrigin? || op.AllocFrame? || op.Adopt?
        || op.Publish?
    ensures FrameKept(st, op, f)
  {
    OnNotUnmapping(st, f);
    if op.Adopt? {
      assert HoldsOk(st, op.a);
    }
    hide Inv;
  }

  lemma KeptThroughMap(st: State, op: Op, f: nat)
    requires Inv(st) && Allowed(st, op) && PageOn(st, f)
    requires op.EnterMap? || op.Commit? || op.LeaveMap?
    ensures FrameKept(st, op, f)
  {
    OnNotUnmapping(st, f);
    if op.Commit? && GoesThrough(st, st.actors[op.a].s, st.actors[op.a].o, st.actors[op.a].f) {
      var p := st.actors[op.a];
      CommitAlone(st, op.a, p.s, p.o, p.f, st.slots[p.s].id);
    }
    hide Inv, DerefVp;
  }

  lemma KeptThroughWire(st: State, op: Op, f: nat)
    requires Inv(st) && Allowed(st, op) && PageOn(st, f)
    requires op.Wire? || op.WireFrame? || op.Unwire? || op.UnwireFrame? || op.Touch?
    ensures FrameKept(st, op, f)
  {
    OnNotUnmapping(st, f);
    hide Inv, DerefVp;
  }

  lemma KeptThroughDiscard(st: State, op: Op, f: nat)
    requires Inv(st) && Allowed(st, op) && PageOn(st, f)
    requires op.DiscardEnter? || op.DiscardGiveUp? || op.DiscardUnmap?
    ensures FrameKept(st, op, f)
  {
    OnNotUnmapping(st, f);
    hide Inv;
  }

  lemma KeptThroughDrop(st: State, op: Op, f: nat)
    requires Inv(st) && Allowed(st, op) && PageOn(st, f)
    requires op.DiscardClear? || op.DiscardLeave? || op.DiscardFree?
    ensures FrameKept(st, op, f)
  {
    OnNotUnmapping(st, f);
    assert PlaceOk(st, op.a);
    hide DerefVp, Inv;
  }

  lemma KeptThroughUnlink(st: State, op: Op, f: nat)
    requires Inv(st) && Allowed(st, op) && PageOn(st, f) && !ReleasesPage(st, op, f)
    requires op.Release? || op.ReleaseEnter? || op.ReleaseUnlink?
    ensures FrameKept(st, op, f)
  {
    OnNotUnmapping(st, f);
    if op.ReleaseUnlink? {
      UnlinkOwn(st, op.a);
    }
    hide Inv, DerefVp;
  }

  lemma KeptThroughFree(st: State, op: Op, f: nat)
    requires Inv(st) && Allowed(st, op) && PageOn(st, f) && (op.ReleaseDetach? || op.ReleaseFree?)
    ensures FrameKept(st, op, f)
  {
    OnNotUnmapping(st, f);
    assert PlaceOk(st, op.a) && HoldsOk(st, op.a);
    hide DerefVp, Inv;
  }

  lemma KeptThroughReset(st: State, op: Op, f: nat)
    requires Inv(st) && Allowed(st, op) && PageOn(st, f) && (op.ReleaseClean? || op.ReleaseReset?)
    ensures FrameKept(st, op, f)
  {
    OnNotUnmapping(st, f);
    hide DerefVp, Inv;
  }

  lemma KeptThrough(st: State, op: Op, f: nat)
    requires Inv(st) && Allowed(st, op) && PageOn(st, f) && !ReleasesPage(st, op, f)
    ensures FrameKept(st, op, f)
  {
    hide Inv, Step, Allowed, FrameKept, PageOn, ReleasesPage;
    if op.DiscardEnter? || op.DiscardGiveUp? || op.DiscardUnmap? {
      KeptThroughDiscard(st, op, f);
    } else if op.DiscardClear? || op.DiscardLeave? || op.DiscardFree? {
      KeptThroughDrop(st, op, f);
    } else if op.Release? || op.ReleaseEnter? || op.ReleaseUnlink? {
      KeptThroughUnlink(st, op, f);
    } else if op.ReleaseDetach? || op.ReleaseFree? {
      KeptThroughFree(st, op, f);
    } else if op.ReleaseClean? || op.ReleaseReset? {
      KeptThroughReset(st, op, f);
    } else if op.EnterMap? || op.Commit? || op.LeaveMap? {
      KeptThroughMap(st, op, f);
    } else if op.Wire? || op.WireFrame? || op.Unwire? || op.UnwireFrame? || op.Touch? {
      KeptThroughWire(st, op, f);
    } else {
      KeptThroughFault(st, op, f);
    }
  }

  // ---- Wiring ----

  /** Only unwiring it ends a frame's being wired, and until then it keeps its user and its origin. */
  predicate StaysWired(st: State, op: Op, f: nat)
    requires Allowed(st, op) && f < |st.frames|
  {
    && f < |Step(st, op).frames|
    && Step(st, op).frames[f].taken && Step(st, op).frames[f].wired >= st.frames[f].wired
    && Step(st, op).frames[f].user == st.frames[f].user && Step(st, op).frames[f].origin == st.frames[f].origin
  }

  predicate InUse(st: State, f: nat) {
    f < |st.frames| && st.frames[f].wired > 0 && st.frames[f].user.Some?
  }

  /** The step gives a frame's wiring up: it unwires it, or releases its page, which the code asserts is not done to a
      wired one. */
  predicate GivesUp(st: State, op: Op, f: nat)
    requires Allowed(st, op)
  {
    UnwiresFrame(st, op, f) || ReleasesPage(st, op, f)
  }

  /** A wired frame is not discarded, and keeps its page and its origin, until its wiring is given up, if and only if
      the step is not the last write of a release that freed the frame earlier. */
  lemma WiredStaysIff(st: State, op: Op, f: nat)
    requires Inv(st) && Allowed(st, op) && InUse(st, f) && !GivesUp(st, op, f)
    ensures StaysWired(st, op, f) <==> !UnwiresLate(st, op, f)
  {
    WiredPresent(st, f);
    hide Inv, Step, Allowed, PageOn, ReleasesPage, UnwiresFrame, UnwiresLate, CleansLate;
    KeptThrough(st, op, f);
  }
}
