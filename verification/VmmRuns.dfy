/** What holds over every run of the paging steps, and the one window in which it can be lost. */
module VmmRuns {
  import opened VmmStates
  import opened VmmShape
  import opened VmmSteps
  import opened VmmRefs
  import opened VmmKeeps

  /** A step that takes a page off a frame finds the frame's origin naming it, as the code asserts next. */
  predicate Timely(st: State, op: Op)
    requires Allowed(st, op)
  {
    match op
    case DiscardUnmap(a) =>
      var f := st.actors[a].f; st.origins[st.frames[f].origin.id].phys == Some(f)
    case ReleaseUnlink(a) => ReleaseGoes(st, a) ==> st.origins[st.vps[st.actors[a].v].own].phys == Some(st.actors[a].f)
    case _ => true
  }

  /** A release finds its page still in its slot and on its frame. */
  predicate ReleaseGoes(st: State, a: nat)
    requires a < |st.actors| && st.actors[a].REntered?
  {
    var p := st.actors[a];
    Names(st, p.s, p.v) && st.vps[p.v].place == On(p.f) && st.vps[p.v].own < |st.origins|
  }

  lemma FaultStepKeeps(st: State, op: Op)
    requires Inv(st) && Allowed(st, op)
    requires op.Create? || op.Fault? || op.FixedFault? || op.PeekPhys? || op.LockOrigin? || op.AllocFrame? || op.Adopt?
        || op.Publish?
    ensures Inv(Step(st, op))
  {
    hide Inv;
    match op
    case Create(s, fixed, file) => CreateKeeps(st, s, fixed, file);
    case Fault(a, s) => FaultKeeps(st, a, s);
    case FixedFault(a) => FixedKeeps(st, a, st.actors[a].s, st.actors[a].o);
    case PeekPhys(a) => PeekKeeps(st, a, st.actors[a].s, st.actors[a].o);
    case LockOrigin(a) => LockOriginKeeps(st, a, st.actors[a].s, st.actors[a].o);
    case AllocFrame(a, f) => AllocKeeps(st, a, st.actors[a].s, st.actors[a].o, f);
    case Adopt(a) => AdoptKeeps(st, a, st.actors[a].s, st.actors[a].o, st.actors[a].f);
    case Publish(a) => PublishKeeps(st, a, st.actors[a].s, st.actors[a].o, st.actors[a].f);
  }

  lemma MapStepKeeps(st: State, op: Op)
    requires Inv(st) && Allowed(st, op)
    requires op.EnterMap? || op.Commit? || op.LeaveMap? || op.Wire? || op.WireFrame? || op.Unwire? || op.UnwireFrame?
        || op.Touch?
    ensures Inv(Step(st, op))
  {
    hide Inv;
    match op
    case EnterMap(a) => EnterKeeps(st, a, st.actors[a].f, FEntered(st.actors[a].s, st.actors[a].o, st.actors[a].f));
    case Commit(a) => CommitKeeps(st, a, st.actors[a].s, st.actors[a].o, st.actors[a].f);
    case LeaveMap(a) => LeaveMapKeeps(st, a, st.actors[a].s, st.actors[a].o, st.actors[a].f);
    case Wire(a, s) => WireKeeps(st, a, s);
    case WireFrame(a) => WireFrameKeeps(st, a, st.actors[a].s, st.actors[a].v, st.actors[a].f);
    case Unwire(a, s) => UnwireKeeps(st, a, s);
    case UnwireFrame(a) => UnwireFrameKeeps(st, a, st.actors[a].f);
    case Touch(f) => WiredKeeps(st, f, st.frames[f].wired, true);
  }

  lemma DiscardStepKeeps(st: State, op: Op)
    requires Inv(st) && Allowed(st, op) && Timely(st, op)
    requires op.DiscardEnter? || op.DiscardGiveUp? || op.DiscardUnmap? || op.DiscardClear? || op.DiscardLeave?
        || op.DiscardFree?
    ensures Inv(Step(st, op))
  {
    hide Inv;
    match op
    case DiscardEnter(a, f) => EnterKeeps(st, a, f, DEntered(f));
    case DiscardGiveUp(a) => GiveUpKeeps(st, a, st.actors[a].f);
    case DiscardUnmap(a) => DiscardUnmapKeeps(st, a, st.actors[a].f);
    case DiscardClear(a) => DiscardClearKeeps(st, a, st.actors[a].f);
    case DiscardLeave(a) => DiscardLeaveKeeps(st, a, st.actors[a].f);
    case DiscardFree(a) => DiscardFreeKeeps(st, a, st.actors[a].f);
  }

  lemma UnlinkOwn(st: State, a: nat)
    requires Inv(st) && a < |st.actors| && st.actors[a].REntered?
    ensures Names(st, st.actors[a].s, st.actors[a].v) ==> st.vps[st.actors[a].v].own < |st.origins|
  {
    if Names(st, st.actors[a].s, st.actors[a].v) {
      assert VpOk(st, st.actors[a].v);
    }
  }

  lemma ReleaseStepKeeps(st: State, op: Op)
    requires Inv(st) && Allowed(st, op) && Timely(st, op) && Releases(op)
    ensures Inv(Step(st, op))
  {
    hide Inv;
    match op
    case Release(a, s) => ReleaseKeeps(st, a, s);
    case ReleaseEnter(a) => EnterKeeps(st, a, st.actors[a].f, REntered(st.actors[a].s, st.actors[a].v, st.actors[a].f));
    case ReleaseUnlink(a) =>
      UnlinkOwn(st, a);
      UnlinkKeeps(st, a, st.actors[a].s, st.actors[a].v, st.actors[a].f);
    case ReleaseDetach(a) => DetachKeeps(st, a, st.actors[a].s, st.actors[a].v, st.actors[a].f);
    case ReleaseFree(a) => ReleaseFreeKeeps(st, a, st.actors[a].s, st.actors[a].v, st.actors[a].f, st.actors[a].o);
    case ReleaseClean(a) => ReleaseCleanKeeps(st, a, st.actors[a].s, st.actors[a].v, st.actors[a].f, st.actors[a].o);
    case ReleaseReset(a) => ReleaseResetKeeps(st, a, st.actors[a].s, st.actors[a].v, st.actors[a].f, st.actors[a].o);
  }

  /** Every step of every thread keeps the invariant, unless it takes a page off a frame its origin does not name. */
  lemma StepKeeps(st: State, op: Op)
    requires Inv(st) && Allowed(st, op) && Timely(st, op)
    ensures Inv(Step(st, op))
  {
    hide Inv, Step, Allowed, Timely;
    if op.DiscardEnter? || op.DiscardGiveUp? || op.DiscardUnmap? || op.DiscardClear? || op.DiscardLeave?
        || op.DiscardFree? {
      DiscardStepKeeps(st, op);
    } else if Releases(op) {
      ReleaseStepKeeps(st, op);
    } else if op.EnterMap? || op.Commit? || op.LeaveMap? || op.Wire? || op.WireFrame? || op.Unwire? || op.UnwireFrame?
        || op.Touch? {
      MapStepKeeps(st, op);
    } else {
      FaultStepKeeps(st, op);
    }
  }

  // ---- The window in publication ----

  /** The frame a step takes a page off. */
  function TakenOff(st: State, op: Op): Link
    requires Allowed(st, op)
  {
    match op
    case DiscardUnmap(a) => Some(st.actors[a].f)
    case ReleaseUnlink(a) => if ReleaseGoes(st, a) then Some(st.actors[a].f) else None
    case _ => None
  }

  /** Somebody has made frame f its origin's, and the origin does not name it yet. */
  predicate Unpublished(st: State, f: Link) {
    f.Some? && exists b :: 0 <= b < |st.actors| && st.actors[b].FAdopted? && st.actors[b].f == f.id
  }

  lemma OriginSays(st: State, f: nat, o: nat, a: nat)
    requires Inv(st) && f < |st.frames| && st.frames[f].origin == Some(o) && o < |st.origins|
    requires a < |st.actors| && LockHeld(st.actors[a]) == Some(f) && !Late(st.actors[a])
    ensures st.origins[o].phys == Some(f) <==> !Unpublished(st, Some(f))
  {
    assert FrameOk(st, f) && HoldsOk(st, a);
    if st.origins[o].phys != Some(f) {
      assert Adopting(st, o, f);
      assert st.actors[st.origins[o].mutex.id].FAdopted?;
    }
    if Unpublished(st, Some(f)) {
      var b :| 0 <= b < |st.actors| && st.actors[b].FAdopted? && st.actors[b].f == f;
      assert HoldsOk(st, b) && PlaceOk(st, b);
    }
  }

  /** The origin names the frame exactly when nobody is between the two writes that publish it. */
  lemma TimelyIff(st: State, op: Op)
    requires Inv(st) && Allowed(st, op)
    ensures Timely(st, op) <==> !Unpublished(st, TakenOff(st, op))
  {
    if op.DiscardUnmap? {
      var f := st.actors[op.a].f;
      OriginSays(st, f, st.frames[f].origin.id, op.a);
    } else if op.ReleaseUnlink? && ReleaseGoes(st, op.a) {
      var p := st.actors[op.a];
      OnItsFrame(st, p.s, p.v, p.f);
      OriginSays(st, p.f, st.vps[p.v].own, op.a);
    }
  }

  /** The assertion an actor comes to next: that the origin of the frame it has taken a page off names the frame. */
  predicate AssertsTruly(st: State, a: nat)
    requires a < |st.actors|
  {
    st.actors[a].DUnmapped? || st.actors[a].RUnlinked? ==>
      var f := st.actors[a].f;
      && f < |st.frames| && st.frames[f].origin.Some? && st.frames[f].origin.id < |st.origins|
      && st.origins[st.frames[f].origin.id].phys == Some(f)
  }

  /** A step in the window makes that assertion false at once. */
  lemma UntimelyAsserts(st: State, op: Op)
    requires Inv(st) && Allowed(st, op) && !Timely(st, op)
    ensures op.a < |Step(st, op).actors| && !AssertsTruly(Step(st, op), op.a)
  {
    if op.ReleaseUnlink? {
      var p := st.actors[op.a];
      OnItsFrame(st, p.s, p.v, p.f);
    } else {
      assert FrameOk(st, st.actors[op.a].f);
    }
  }

  lemma InvAsserts(st: State, a: nat)
    requires Inv(st) && a < |st.actors|
    ensures AssertsTruly(st, a)
  {
    assert PlaceOk(st, a);
  }

  /** Every step keeps the invariant exactly when it does not take a page off a frame between the two writes that
      publish it. */
  lemma StepKeepsIff(st: State, op: Op)
    requires Inv(st) && Allowed(st, op)
    ensures Inv(Step(st, op)) <==> !Unpublished(st, TakenOff(st, op))
  {
    TimelyIff(st, op);
    hide Inv, Step, Allowed, Timely, Unpublished, TakenOff, AssertsTruly;
    if Timely(st, op) {
      StepKeeps(st, op);
    } else {
      UntimelyAsserts(st, op);
      if Inv(Step(st, op)) {
        InvAsserts(Step(st, op), op.a);
      }
    }
  }

  // ---- Runs ----

  predicate CanRun(st: State, ops: seq<Op>)
    decreases |ops|
  {
    ops == [] || (Allowed(st, ops[0]) && CanRun(Step(st, ops[0]), ops[1..]))
  }

  function After(st: State, ops: seq<Op>): State
    requires CanRun(st, ops)
    decreases |ops|
  {
    if ops == [] then st else After(Step(st, ops[0]), ops[1..])
  }

  /** No step of the run takes a page off a frame that is being published. */
  predicate NoneOvertaken(st: State, ops: seq<Op>)
    requires CanRun(st, ops)
    decreases |ops|
  {
    ops == [] || (!Unpublished(st, TakenOff(st, ops[0])) && NoneOvertaken(Step(st, ops[0]), ops[1..]))
  }

  /** The invariant holds before, between and after the steps of the run. */
  ghost predicate Throughout(st: State, ops: seq<Op>)
    requires CanRun(st, ops)
    decreases |ops|
  {
    Inv(st) && (ops == [] || Throughout(Step(st, ops[0]), ops[1..]))
  }

  /** Over every interleaving of any number of threads the invariant holds throughout, if and only if no step takes a
      page off a frame between the two writes that publish it. */
  lemma {:induction false} RunKeeps(st: State, ops: seq<Op>)
    requires Inv(st) && CanRun(st, ops)
    ensures Throughout(st, ops) <==> NoneOvertaken(st, ops)
    ensures NoneOvertaken(st, ops) ==> Inv(After(st, ops))
    decreases |ops|
  {
    hide Inv, Step, Allowed, Unpublished, TakenOff;
    if ops != [] {
      StepKeepsIff(st, ops[0]);
      if !Unpublished(st, TakenOff(st, ops[0])) {
        RunKeeps(Step(st, ops[0]), ops[1..]);
      } else {
        NotThroughout(Step(st, ops[0]), ops[1..]);
      }
    }
  }

  lemma NotThroughout(st: State, ops: seq<Op>)
    requires CanRun(st, ops) && !Inv(st)
    ensures !Throughout(st, ops)
  {
  }

  /** A machine with nothing mapped: any number of slots, frames and threads. */
  function Fresh(slots: nat, frames: nat, actors: nat): State {
    State(seq(slots, i => None), [], [], seq(frames, i => Frame(false, None, None, 0, false, None, None, false)),
        seq(actors, i => Idle), [], [])
  }

  lemma FreshEven(slots: nat, frames: nat, actors: nat, x: nat)
    ensures Even(Fresh(slots, frames, actors), x)
  {
    var st := Fresh(slots, frames, actors);
    SumZero(OwnedW(st.frames, x));
    SumZero(UserW(st.frames, x));
    SumZero(CoverW(st.frames, x));
    SumZero(SlotW(st.slots, x));
    SumZero(HolderW(st.actors, x));
    SumZero(InFlightW(st.actors, x));
    SumZero(WaitW(st.vps, x));
  }

  lemma FreshShape(slots: nat, frames: nat, actors: nat)
    ensures Sized(Fresh(slots, frames, actors)) && Shape(Fresh(slots, frames, actors))
  {
  }

  lemma FreshInv(slots: nat, frames: nat, actors: nat)
    ensures Inv(Fresh(slots, frames, actors))
  {
    hide Sized, Shape, Even, Fresh;
    FreshShape(slots, frames, actors);
    forall x: nat ensures Even(Fresh(slots, frames, actors), x) { FreshEven(slots, frames, actors, x); }
  }
}
