/** A release gives its frame back in three writes with no lock held: what they leave of a free frame, and of one that
    somebody takes in between. */
module VmmFrees {
  import opened VmmStates
  import opened VmmShape
  import opened VmmSteps
  import opened VmmKeeps
  import opened VmmRuns
  import opened VmmFacts

  /** The actor has made frame f free and has still to unwire it. */
  predicate Resets(p: Phase, f: nat) {
    (p.RFreed? || p.RCleaned?) && p.f == f
  }

  predicate Uncleaned(st: State, f: nat) {
    exists b :: 0 <= b < |st.actors| && st.actors[b].RFreed? && st.actors[b].f == f
  }

  predicate Unreset(st: State, f: nat) {
    exists b :: 0 <= b < |st.actors| && Resets(st.actors[b], f)
  }

  // ---- Free frames ----

  /** A free frame is clean and not wired, except for what a release has still to reset. */
  predicate TidyAt(st: State, f: nat)
    requires f < |st.frames|
  {
    !st.frames[f].taken ==>
      (st.frames[f].dirty ==> Uncleaned(st, f)) && (st.frames[f].wired > 0 ==> Unreset(st, f))
  }

  ghost predicate Tidy(st: State) {
    forall f {:trigger TidyAt(st, f)} :: 0 <= f < |st.frames| ==> TidyAt(st, f)
  }

  predicate HasActor(op: Op) {
    !op.Create? && !op.Touch?
  }

  predicate Faults(op: Op) {
    op.Fault? || op.FixedFault? || op.PeekPhys? || op.LockOrigin? || op.AllocFrame? || op.Adopt? || op.Publish?
    || op.EnterMap? || op.Commit? || op.LeaveMap?
  }

  /** Only the actor of a step moves, and it passes by what it has still to reset only by resetting it. */
  predicate OthersStay(st: State, op: Op, b: nat)
    requires Allowed(st, op) && b < |st.actors|
  {
    && |Step(st, op).actors| == |st.actors|
    && (!HasActor(op) || b != op.a ==> Step(st, op).actors[b] == st.actors[b])
    && (HasActor(op) && b == op.a && st.actors[b].RFreed? ==> op.ReleaseClean?)
    && (HasActor(op) && b == op.a && st.actors[b].RCleaned? ==> op.ReleaseReset?)
  }

  lemma OthersStayReleasing(st: State, op: Op, b: nat)
    requires Allowed(st, op) && b < |st.actors| && Releases(op)
    ensures OthersStay(st, op, b)
  {
    hide DerefVp;
  }

  lemma OthersStayFaulting(st: State, op: Op, b: nat)
    requires Allowed(st, op) && b < |st.actors| && Faults(op)
    ensures OthersStay(st, op, b)
  {
    hide DerefVp;
  }

  lemma OthersStayElse(st: State, op: Op, b: nat)
    requires Allowed(st, op) && b < |st.actors| && !Releases(op) && !Faults(op)
    ensures OthersStay(st, op, b)
  {
    hide DerefVp;
  }

  lemma OthersWait(st: State, op: Op, b: nat)
    requires Allowed(st, op) && b < |st.actors|
    ensures OthersStay(st, op, b)
  {
    hide Allowed, OthersStay;
    if Releases(op) {
      OthersStayReleasing(st, op, b);
    } else if Faults(op) {
      OthersStayFaulting(st, op, b);
    } else {
      OthersStayElse(st, op, b);
    }
  }

  /** What a step does to a frame that is free after it: it was free, and is no dirtier and wired no more than it was,
      or has been freed by the step. */
  predicate FreesRight(st: State, op: Op, f: nat)
    requires Allowed(st, op) && f < |st.frames|
  {
    && |Step(st, op).frames| == |st.frames|
    && var fr, fr' := st.frames[f], Step(st, op).frames[f];
       !fr'.taken ==>
         if fr.taken
         then (!fr'.dirty && fr'.wired == 0) || (op.ReleaseFree? && st.actors[op.a].f == f)
         else (fr'.dirty ==> fr.dirty && !(op.ReleaseClean? && st.actors[op.a].f == f))
              && (fr'.wired > 0 ==> fr.wired > 0 && !(op.ReleaseReset? && st.actors[op.a].f == f))
  }

  lemma FreesReleasing(st: State, op: Op, f: nat)
    requires Inv(st) && Allowed(st, op) && f < |st.frames| && Releases(op)
    ensures FreesRight(st, op, f)
  {
    hide DerefVp, Inv;
  }

  lemma FreesFaulting(st: State, op: Op, f: nat)
    requires Inv(st) && Allowed(st, op) && f < |st.frames| && Faults(op)
    ensures FreesRight(st, op, f)
  {
    hide DerefVp, Inv;
  }

  lemma FreesElse(st: State, op: Op, f: nat)
    requires Inv(st) && Allowed(st, op) && f < |st.frames| && !Releases(op) && !Faults(op)
    ensures FreesRight(st, op, f)
  {
    assert FrameOk(st, f);
    if op.WireFrame? && Names(st, st.actors[op.a].s, st.actors[op.a].v)
        && st.vps[st.actors[op.a].v].place == On(st.actors[op.a].f) {
      OnItsFrame(st, st.actors[op.a].s, st.actors[op.a].v, st.actors[op.a].f);
    }
    hide DerefVp, Inv;
  }

  lemma Frees(st: State, op: Op, f: nat)
    requires Inv(st) && Allowed(st, op) && f < |st.frames|
    ensures FreesRight(st, op, f)
  {
    hide Allowed, Inv, FreesRight;
    if Releases(op) {
      FreesReleasing(st, op, f);
    } else if Faults(op) {
      FreesFaulting(st, op, f);
    } else {
      FreesElse(st, op, f);
    }
  }

  lemma FreeIsFreed(st: State, op: Op)
    requires Allowed(st, op) && op.ReleaseFree?
    ensures op.a < |Step(st, op).actors| && Step(st, op).actors[op.a].RFreed?
        && Step(st, op).actors[op.a].f == st.actors[op.a].f
  {
  }

  lemma CleanIsCleaned(st: State, op: Op)
    requires Allowed(st, op) && op.ReleaseClean?
    ensures op.a < |Step(st, op).actors| && Step(st, op).actors[op.a].RCleaned?
        && Step(st, op).actors[op.a].f == st.actors[op.a].f
  {
  }

  lemma UncleanedWaits(st: State, op: Op, f: nat)
    requires Allowed(st, op) && Uncleaned(st, f) && !(op.ReleaseClean? && st.actors[op.a].f == f)
    ensures Uncleaned(Step(st, op), f)
  {
    hide Allowed, Step;
    var b :| 0 <= b < |st.actors| && st.actors[b].RFreed? && st.actors[b].f == f;
    OthersWait(st, op, b);
  }

  lemma UnresetWaits(st: State, op: Op, f: nat)
    requires Allowed(st, op) && Unreset(st, f) && !(op.ReleaseReset? && st.actors[op.a].f == f)
    ensures Unreset(Step(st, op), f)
  {
    hide Allowed, Step;
    var b :| 0 <= b < |st.actors| && Resets(st.actors[b], f);
    OthersWait(st, op, b);
    if op.ReleaseClean? {
      CleanIsCleaned(st, op);
    }
    assert Resets(Step(st, op).actors[b], f);
  }

  lemma TidyStepAt(st: State, op: Op, f: nat)
    requires Inv(st) && Allowed(st, op) && f < |st.frames| && TidyAt(st, f)
    ensures f < |Step(st, op).frames| && TidyAt(Step(st, op), f)
  {
    hide Inv, Step, Uncleaned, Unreset;
    Frees(st, op, f);
    if st.frames[f].taken {
      if op.ReleaseFree? && st.actors[op.a].f == f {
        FreeIsFreed(st, op);
        NowFreed(Step(st, op), op.a);
      }
    } else if !Step(st, op).frames[f].taken {
      if Step(st, op).frames[f].dirty {
        UncleanedWaits(st, op, f);
      }
      if Step(st, op).frames[f].wired > 0 {
        UnresetWaits(st, op, f);
      }
    }
  }

  lemma NowFreed(st: State, a: nat)
    requires a < |st.actors| && st.actors[a].RFreed?
    ensures Uncleaned(st, st.actors[a].f) && Unreset(st, st.actors[a].f)
  {
    assert Resets(st.actors[a], st.actors[a].f);
  }

  lemma SameFrames(st: State, op: Op)
    requires Allowed(st, op)
    ensures |Step(st, op).frames| == |st.frames|
  {
    hide Allowed;
    if Releases(op) {
      SameFramesReleasing(st, op);
    } else if Faults(op) {
      SameFramesFaulting(st, op);
    } else {
      SameFramesElse(st, op);
    }
  }

  lemma SameFramesReleasing(st: State, op: Op)
    requires Allowed(st, op) && Releases(op)
    ensures |Step(st, op).frames| == |st.frames|
  {
    hide DerefVp;
  }

  lemma SameFramesFaulting(st: State, op: Op)
    requires Allowed(st, op) && Faults(op)
    ensures |Step(st, op).frames| == |st.frames|
  {
    hide DerefVp;
  }

  lemma SameFramesElse(st: State, op: Op)
    requires Allowed(st, op) && !Releases(op) && !Faults(op)
    ensures |Step(st, op).frames| == |st.frames|
  {
    hide DerefVp;
  }

  /** Every step keeps free frames tidy. */
  lemma TidyStep(st: State, op: Op)
    requires Inv(st) && Tidy(st) && Allowed(st, op)
    ensures Tidy(Step(st, op))
  {
    hide Inv, Step, TidyAt, Allowed;
    SameFrames(st, op);
    forall f | 0 <= f < |Step(st, op).frames| ensures TidyAt(Step(st, op), f) { TidyStepAt(st, op, f); }
  }

  lemma FreshTidy(slots: nat, frames: nat, actors: nat)
    ensures Tidy(Fresh(slots, frames, actors))
  {
  }

  lemma UncleanedUnreset(st: State, f: nat)
    ensures Uncleaned(st, f) ==> Unreset(st, f)
  {
    if Uncleaned(st, f) {
      var b :| 0 <= b < |st.actors| && st.actors[b].RFreed? && st.actors[b].f == f;
      assert Resets(st.actors[b], f);
    }
  }

  /** A free frame is clean and unwired, but for a release that has still to make it so. */
  lemma FreeFrameReset(st: State, f: nat)
    requires Tidy(st) && f < |st.frames| && !st.frames[f].taken && !Unreset(st, f)
    ensures !st.frames[f].dirty && st.frames[f].wired == 0
  {
    assert TidyAt(st, f);
    UncleanedUnreset(st, f);
  }

  // ---- Frames taken in between ----

  /** What a release has still to reset, nobody else has. */
  predicate SettledAt(st: State, f: nat)
    requires f < |st.frames|
  {
    st.frames[f].taken ==> !Unreset(st, f)
  }

  ghost predicate Settled(st: State) {
    forall f {:trigger SettledAt(st, f)} :: 0 <= f < |st.frames| ==> SettledAt(st, f)
  }

  /** The step gives a frame to somebody before the release that freed it is done with it. */
  predicate Retakes(st: State, op: Op) {
    op.AllocFrame? && Unreset(st, op.f)
  }

  /** Only taking a frame makes it taken, and only freeing it gives an actor something to reset. */
  predicate TakesRight(st: State, op: Op, f: nat)
    requires Allowed(st, op) && f < |st.frames|
  {
    && f < |Step(st, op).frames|
    && (Step(st, op).frames[f].taken ==> st.frames[f].taken || (op.AllocFrame? && op.f == f))
    && (op.AllocFrame? && op.f == f ==> Step(st, op).frames[f].taken)
    && (op.ReleaseFree? && st.actors[op.a].f == f ==> !Step(st, op).frames[f].taken)
  }

  lemma TakesReleasing(st: State, op: Op, f: nat)
    requires Allowed(st, op) && f < |st.frames| && Releases(op)
    ensures TakesRight(st, op, f)
  {
    hide DerefVp;
  }

  lemma TakesFaulting(st: State, op: Op, f: nat)
    requires Allowed(st, op) && f < |st.frames| && Faults(op)
    ensures TakesRight(st, op, f)
  {
    hide DerefVp;
  }

  lemma TakesElse(st: State, op: Op, f: nat)
    requires Allowed(st, op) && f < |st.frames| && !Releases(op) && !Faults(op)
    ensures TakesRight(st, op, f)
  {
    hide DerefVp;
  }

  lemma Takes(st: State, op: Op, f: nat)
    requires Allowed(st, op) && f < |st.frames|
    ensures TakesRight(st, op, f)
  {
    hide Allowed, TakesRight;
    if Releases(op) {
      TakesReleasing(st, op, f);
    } else if Faults(op) {
      TakesFaulting(st, op, f);
    } else {
      TakesElse(st, op, f);
    }
  }

  /** An actor that has a frame to reset after a step had it before, or has just freed it. */
  predicate ComesFrom(st: State, op: Op, b: nat, f: nat)
    requires Allowed(st, op) && b < |st.actors|
  {
    && |Step(st, op).actors| == |st.actors|
    && (Resets(Step(st, op).actors[b], f) ==> Resets(st.actors[b], f) || (op.ReleaseFree? && st.actors[op.a].f == f))
  }

  lemma ComesReleasing(st: State, op: Op, b: nat, f: nat)
    requires Allowed(st, op) && b < |st.actors| && Releases(op)
    ensures ComesFrom(st, op, b, f)
  {
    hide DerefVp;
  }

  lemma ComesFaulting(st: State, op: Op, b: nat, f: nat)
    requires Allowed(st, op) && b < |st.actors| && Faults(op)
    ensures ComesFrom(st, op, b, f)
  {
    hide DerefVp;
  }

  lemma ComesElse(st: State, op: Op, b: nat, f: nat)
    requires Allowed(st, op) && b < |st.actors| && !Releases(op) && !Faults(op)
    ensures ComesFrom(st, op, b, f)
  {
    hide DerefVp;
  }

  lemma Comes(st: State, op: Op, b: nat, f: nat)
    requires Allowed(st, op) && b < |st.actors|
    ensures ComesFrom(st, op, b, f)
  {
    hide Allowed, ComesFrom;
    if Releases(op) {
      ComesReleasing(st, op, b, f);
    } else if Faults(op) {
      ComesFaulting(st, op, b, f);
    } else {
      ComesElse(st, op, b, f);
    }
  }

  lemma SameActors(st: State, op: Op)
    requires Allowed(st, op)
    ensures |Step(st, op).actors| == |st.actors|
  {
    hide Step, Allowed;
    if 0 < |st.actors| {
      OthersWait(st, op, 0);
    } else {
      NoActors(st, op);
    }
  }

  lemma NoActors(st: State, op: Op)
    requires Allowed(st, op) && st.actors == []
    ensures Step(st, op).actors == []
  {
    assert !HasActor(op);
  }

  lemma UnresetComes(st: State, op: Op, f: nat)
    requires Allowed(st, op) && Unreset(Step(st, op), f)
    ensures Unreset(st, f) || (op.ReleaseFree? && st.actors[op.a].f == f)
  {
    SameActors(st, op);
    var b :| 0 <= b < |Step(st, op).actors| && Resets(Step(st, op).actors[b], f);
    hide Step;
    Comes(st, op, b, f);
  }

  lemma SettledStepAt(st: State, op: Op, f: nat)
    requires Allowed(st, op) && f < |st.frames| && SettledAt(st, f)
    ensures f < |Step(st, op).frames|
    ensures SettledAt(Step(st, op), f) <==> !(Retakes(st, op) && op.f == f)
  {
    Takes(st, op, f);
    hide Step, Unreset;
    if Retakes(st, op) && op.f == f {
      UnresetWaits(st, op, f);
    } else if Step(st, op).frames[f].taken && Unreset(Step(st, op), f) {
      UnresetComes(st, op, f);
    }
  }

  /** A step leaves nobody with a frame that is still to be reset, exactly when it does not give one out. */
  lemma SettledStepIff(st: State, op: Op)
    requires Settled(st) && Allowed(st, op)
    ensures Settled(Step(st, op)) <==> !Retakes(st, op)
  {
    SameFrames(st, op);
    hide Step, SettledAt, Unreset;
    forall f | 0 <= f < |Step(st, op).frames|
      ensures SettledAt(Step(st, op), f) <==> !(Retakes(st, op) && op.f == f)
    {
      SettledStepAt(st, op, f);
    }
    if Retakes(st, op) {
      assert !SettledAt(Step(st, op), op.f);
    }
  }

  lemma FreshSettled(slots: nat, frames: nat, actors: nat)
    ensures Settled(Fresh(slots, frames, actors))
  {
  }

  // ---- Wired frames ----

  /** Where no release has a frame to reset that somebody else has, a wired frame stays wired until its wiring is given
      up. */
  lemma WiredStays(st: State, op: Op, f: nat)
    requires Inv(st) && Settled(st) && Allowed(st, op) && InUse(st, f) && !GivesUp(st, op, f)
    ensures StaysWired(st, op, f)
  {
    WiredStaysIff(st, op, f);
    assert FrameOk(st, f) && SettledAt(st, f);
    assert op.ReleaseReset? ==> Resets(st.actors[op.a], st.actors[op.a].f);
    hide Inv, Step, StaysWired, Settled;
  }

  /** The step is the last write of a release, on a frame that is wired again by now. */
  predicate Unwires(st: State, op: Op)
    requires Allowed(st, op)
  {
    op.ReleaseReset? && InUse(st, st.actors[op.a].f)
  }

  ghost predicate WiresStay(st: State, op: Op)
    requires Allowed(st, op)
  {
    forall f {:trigger InUse(st, f)} :: 0 <= f < |st.frames| && InUse(st, f) && !GivesUp(st, op, f) ==>
        StaysWired(st, op, f)
  }

  /** Every wired frame stays wired through a step, exactly if the step does not do that. */
  lemma WiresStayIff(st: State, op: Op)
    requires Inv(st) && Allowed(st, op)
    ensures WiresStay(st, op) <==> !Unwires(st, op)
    ensures Settled(st) ==> WiresStay(st, op)
  {
    hide Inv, Step, StaysWired, Settled;
    forall f | 0 <= f < |st.frames| && InUse(st, f) && !GivesUp(st, op, f)
      ensures StaysWired(st, op, f) <==> !UnwiresLate(st, op, f)
      ensures Settled(st) ==> StaysWired(st, op, f)
    {
      WiredStaysIff(st, op, f);
      if Settled(st) {
        WiredStays(st, op, f);
      }
    }
    assert op.ReleaseReset? ==> !GivesUp(st, op, st.actors[op.a].f) && UnwiresLate(st, op, st.actors[op.a].f);
  }

  // ---- Runs ----

  /** No step of the run gives a frame out before the release that freed it is done with it. */
  predicate NoneRetaken(st: State, ops: seq<Op>)
    requires CanRun(st, ops)
    decreases |ops|
  {
    ops == [] || (!Retakes(st, ops[0]) && NoneRetaken(Step(st, ops[0]), ops[1..]))
  }

  ghost predicate SettledThroughout(st: State, ops: seq<Op>)
    requires CanRun(st, ops)
    decreases |ops|
  {
    Settled(st) && (ops == [] || SettledThroughout(Step(st, ops[0]), ops[1..]))
  }

  /** Over every run, nobody has a frame that a release has still to reset, if and only if no frame is given out too
      early. */
  lemma {:induction false} RunSettled(st: State, ops: seq<Op>)
    requires Settled(st) && CanRun(st, ops)
    ensures SettledThroughout(st, ops) <==> NoneRetaken(st, ops)
    decreases |ops|
  {
    hide Settled, Step, Allowed, Retakes;
    if ops != [] {
      SettledStepIff(st, ops[0]);
      if !Retakes(st, ops[0]) {
        RunSettled(Step(st, ops[0]), ops[1..]);
      } else {
        NotSettled(Step(st, ops[0]), ops[1..]);
      }
    }
  }

  lemma NotSettled(st: State, ops: seq<Op>)
    requires CanRun(st, ops) && !Settled(st)
    ensures !SettledThroughout(st, ops)
  {
  }

  /** No step of the run is the last write of a release on a frame that is wired again. */
  predicate NoneUnwired(st: State, ops: seq<Op>)
    requires CanRun(st, ops)
    decreases |ops|
  {
    ops == [] || (!Unwires(st, ops[0]) && NoneUnwired(Step(st, ops[0]), ops[1..]))
  }

  /** Through every step of the run each wired frame stays wired, until its wiring is given up. */
  ghost predicate WiresKept(st: State, ops: seq<Op>)
    requires CanRun(st, ops)
    decreases |ops|
  {
    ops == [] || (WiresStay(st, ops[0]) && WiresKept(Step(st, ops[0]), ops[1..]))
  }

  /** Over every run wired frames stay wired, if and only if no release's last write falls on one; and none does if no
      frame is given out before the release that freed it is done with it. */
  lemma {:induction false} RunWires(st: State, ops: seq<Op>)
    requires Inv(st) && CanRun(st, ops) && NoneOvertaken(st, ops)
    ensures WiresKept(st, ops) <==> NoneUnwired(st, ops)
    ensures Settled(st) && NoneRetaken(st, ops) ==> WiresKept(st, ops)
    decreases |ops|
  {
    hide Inv, Settled, Step, Allowed, Retakes, Unwires, WiresStay, Unpublished, TakenOff;
    if ops != [] {
      StepKeepsIff(st, ops[0]);
      WiresStayIff(st, ops[0]);
      RunWires(Step(st, ops[0]), ops[1..]);
      if Settled(st) {
        SettledStepIff(st, ops[0]);
      }
    }
  }

  /** And free frames stay tidy. */
  lemma {:induction false} RunTidy(st: State, ops: seq<Op>)
    requires Inv(st) && Tidy(st) && CanRun(st, ops) && NoneOvertaken(st, ops)
    ensures Tidy(After(st, ops))
    decreases |ops|
  {
    hide Inv, Tidy, Step, Allowed, Unpublished, TakenOff;
    if ops != [] {
      StepKeepsIff(st, ops[0]);
      TidyStep(st, ops[0]);
      RunTidy(Step(st, ops[0]), ops[1..]);
    }
  }

  // ---- The pin of a frame that is being loaded ----

  /** The steps with which releases finish: they need no lock. */
  predicate Finishing(ops: seq<Op>) {
    forall i :: 0 <= i < |ops| ==> ops[i].ReleaseClean? || ops[i].ReleaseReset?
  }

  predicate UnpinnedBy(st: State, f: nat, ops: seq<Op>) {
    Finishing(ops) && CanRun(st, ops) && f < |After(st, ops).frames| && After(st, ops).frames[f].wired == 0
  }

  lemma FinishOther(st: State, op: Op, f: nat)
    requires Allowed(st, op) && (op.ReleaseClean? || op.ReleaseReset?) && !Unreset(st, f) && f < |st.frames|
    ensures f < |Step(st, op).frames| && Step(st, op).frames[f].wired == st.frames[f].wired
    ensures !Unreset(Step(st, op), f)
  {
    assert Resets(st.actors[op.a], st.actors[op.a].f);
    hide DerefVp;
    if Unreset(Step(st, op), f) {
      UnresetComes(st, op, f);
    }
  }

  lemma {:induction false} FinishOthers(st: State, ops: seq<Op>, f: nat)
    requires CanRun(st, ops) && Finishing(ops) && !Unreset(st, f) && f < |st.frames|
    ensures f < |After(st, ops).frames| && After(st, ops).frames[f].wired == st.frames[f].wired
    decreases |ops|
  {
    hide Unreset, Step, Allowed;
    if ops != [] {
      FinishOther(st, ops[0], f);
      FinishOthers(Step(st, ops[0]), ops[1..], f);
    }
  }

  lemma ResetUnpins(st: State, b: nat, f: nat)
    requires b < |st.actors| && st.actors[b].RCleaned? && st.actors[b].f == f < |st.frames|
    ensures UnpinnedBy(st, f, [ReleaseReset(b)])
  {
    hide DerefVp;
    var st1 := Step(st, ReleaseReset(b));
    assert st1.frames[f].wired == 0;
    assert CanRun(st1, []) && After(st1, []) == st1 && [ReleaseReset(b)][1..] == [];
  }

  lemma CleanUnpins(st: State, b: nat, f: nat)
    requires b < |st.actors| && st.actors[b].RFreed? && st.actors[b].f == f < |st.frames|
    ensures UnpinnedBy(st, f, [ReleaseClean(b), ReleaseReset(b)])
  {
    var st1 := Step(st, ReleaseClean(b));
    ResetUnpins(st1, b, f);
    hide Step;
    assert [ReleaseClean(b), ReleaseReset(b)][1..] == [ReleaseReset(b)];
  }

  /** A frame is given out pinned, to be loaded. The pin can go before the frame is loaded, by no more than releases
      finishing, if and only if one that freed the frame has yet to finish. */
  lemma PinLostIff(st: State, a: nat, f: nat)
    requires Allowed(st, AllocFrame(a, f))
    ensures (exists ops :: UnpinnedBy(Step(st, AllocFrame(a, f)), f, ops)) <==> Unreset(st, f)
  {
    var op := AllocFrame(a, f);
    var st1 := Step(st, op);
    assert f < |st1.frames| && st1.frames[f].wired == 1;
    if Unreset(st, f) {
      var b :| 0 <= b < |st.actors| && Resets(st.actors[b], f);
      assert st1.actors[b] == st.actors[b];
      hide Step, UnpinnedBy;
      if st1.actors[b].RFreed? {
        CleanUnpins(st1, b, f);
      } else {
        ResetUnpins(st1, b, f);
      }
    } else {
      forall ops | Finishing(ops) && CanRun(st1, ops)
        ensures f < |After(st1, ops).frames| && After(st1, ops).frames[f].wired == 1
      {
        NotUnreset(st, a, f);
        hide Step, Unreset;
        FinishOthers(st1, ops, f);
      }
    }
  }

  lemma NotUnreset(st: State, a: nat, f: nat)
    requires Allowed(st, AllocFrame(a, f)) && !Unreset(st, f)
    ensures !Unreset(Step(st, AllocFrame(a, f)), f)
  {
    if Unreset(Step(st, AllocFrame(a, f)), f) {
      UnresetComes(st, AllocFrame(a, f), f);
    }
  }
}
