/** What is written to a page survives: which steps take a page off its frame, and which make a dirty frame clean. */
module VmmPages {
  import opened VmmStates
  import opened VmmShape
  import opened VmmSteps
  import opened VmmRefs
  import opened VmmKeeps
  import opened VmmRuns
  import opened VmmFacts
  import opened VmmFrees

  // ---- Where a page is ----

  /** A page on a frame stays there, is freed, or is taken off by a discard of a frame that lists it. */
  predicate PlaceMoves(st: State, op: Op, v: nat)
    requires Allowed(st, op) && v < |st.vps|
  {
    && v < |Step(st, op).vps|
    && (|| Step(st, op).vps[v].place == st.vps[v].place || Step(st, op).vps[v].place == Gone
        || (op.DiscardUnmap? && st.frames[st.actors[op.a].f].user == Some(v)))
  }

  lemma MovesReleasing(st: State, op: Op, v: nat)
    requires Allowed(st, op) && v < |st.vps| && st.vps[v].place.On?
    requires op.Release? || op.ReleaseEnter? || op.ReleaseUnlink?
    ensures PlaceMoves(st, op, v)
  {
  }

  lemma MovesFreeing(st: State, op: Op, v: nat)
    requires Allowed(st, op) && v < |st.vps| && st.vps[v].place.On?
    requires op.ReleaseDetach? || op.ReleaseFree? || op.ReleaseClean? || op.ReleaseReset?
    ensures PlaceMoves(st, op, v)
  {
  }

  lemma MovesFaulting(st: State, op: Op, v: nat)
    requires Allowed(st, op) && v < |st.vps| && st.vps[v].place.On? && Faults(op)
    ensures PlaceMoves(st, op, v)
  {
  }

  lemma MovesElse(st: State, op: Op, v: nat)
    requires Allowed(st, op) && v < |st.vps| && st.vps[v].place.On? && !Releases(op) && !Faults(op)
    ensures PlaceMoves(st, op, v)
  {
  }

  lemma Moves(st: State, op: Op, v: nat)
    requires Allowed(st, op) && v < |st.vps| && st.vps[v].place.On?
    ensures PlaceMoves(st, op, v)
  {
    hide Allowed, PlaceMoves;
    if op.Release? || op.ReleaseEnter? || op.ReleaseUnlink? {
      MovesReleasing(st, op, v);
    } else if Releases(op) {
      MovesFreeing(st, op, v);
    } else if Faults(op) {
      MovesFaulting(st, op, v);
    } else {
      MovesElse(st, op, v);
    }
  }

  /** A page some frame lists is not freed. */
  lemma ListedNotGone(st: State, f: nat)
    requires Inv(st) && f < |st.frames| && st.frames[f].user.Some? && st.frames[f].user.id < |st.vps|
    ensures st.vps[st.frames[f].user.id].place != Gone
  {
    var v := st.frames[f].user.id;
    if st.vps[v].place == Gone {
      FreedPageUnnamed(st, v);
    }
  }

  /** A discard that takes a page off a frame takes it off the frame it is on. */
  lemma UnmapsItsOwn(st: State, op: Op, f: nat)
    requires Inv(st) && Allowed(st, op) && PageOn(st, f) && op.DiscardUnmap?
        && st.frames[st.actors[op.a].f].user == st.frames[f].user
    ensures st.actors[op.a].f == f
  {
    var g := st.actors[op.a].f;
    assert HoldsOk(st, op.a) && FrameOk(st, g);
  }

  /** The page stays on the frame, and the frame keeps its origin. */
  predicate PageKept(st: State, op: Op, f: nat)
    requires Allowed(st, op) && f < |st.frames|
  {
    PageOn(Step(st, op), f) && Step(st, op).frames[f].user == st.frames[f].user
    && Step(st, op).frames[f].origin == st.frames[f].origin
  }

  lemma TakenOffGoes(st: State, op: Op, f: nat)
    requires Inv(st) && Allowed(st, op) && PageOn(st, f) && TakenOff(st, op) == Some(f)
    ensures !PageOn(Step(st, op), f)
  {
    assert FrameOk(st, f);
    if op.ReleaseUnlink? {
      UnlinkOwn(st, op.a);
    }
    hide Inv;
  }

  /** A discard or a release that goes through does not free its page at once. */
  lemma TakingFreesNothing(st: State, op: Op, v: nat)
    requires Allowed(st, op) && TakenOff(st, op).Some? && v < |st.vps| && st.vps[v].place.On?
    ensures v < |Step(st, op).vps| && Step(st, op).vps[v].place != Gone
  {
    hide DerefVp;
  }

  /** A step takes a page off its frame exactly if it is the discard of the frame, or the release of the page. */
  lemma PageStaysIff(st: State, op: Op, f: nat)
    requires Inv(st) && Allowed(st, op) && PageOn(st, f)
    ensures PageKept(st, op, f) <==> TakenOff(st, op) != Some(f)
  {
    if TakenOff(st, op) == Some(f) {
      TakenOffGoes(st, op, f);
    } else {
      PageStays(st, op, f);
    }
  }

  lemma PageStays(st: State, op: Op, f: nat)
    requires Inv(st) && Allowed(st, op) && PageOn(st, f) && TakenOff(st, op) != Some(f)
    ensures PageKept(st, op, f)
  {
    var v := st.frames[f].user.id;
    Moves(st, op, v);
    NoRelease(st, op, f);
    KeptThrough(st, op, f);
    if TakenOff(st, op).Some? {
      TakingFreesNothing(st, op, v);
    } else {
      NoTaking(st, op);
      StepKeeps(st, op);
      hide Inv, Step, Allowed, Timely, TakenOff;
      ListedNotGone(Step(st, op), f);
    }
    hide Inv, Step;
    if op.DiscardUnmap? && st.frames[st.actors[op.a].f].user == Some(v) {
      UnmapsItsOwn(st, op, f);
    }
  }

  lemma NoRelease(st: State, op: Op, f: nat)
    requires Allowed(st, op) && TakenOff(st, op) != Some(f)
    ensures !ReleasesPage(st, op, f)
  {
  }

  lemma NoTaking(st: State, op: Op)
    requires Allowed(st, op) && TakenOff(st, op) == None
    ensures Timely(st, op)
  {
  }

  // ---- Dirty frames, and those no file can fill again ----

  /** The frame's origin is a file, from which what is on it can be read again. */
  predicate OfFile(st: State, f: nat)
    requires f < |st.frames|
  {
    st.frames[f].origin.Some? && st.frames[f].origin.id < |st.origins| && st.origins[st.frames[f].origin.id].file
  }

  lemma NotDiscarded(st: State, op: Op, f: nat)
    requires Inv(st) && Allowed(st, op) && PageOn(st, f)
    requires st.frames[f].dirty || st.frames[f].wired > 0 || !OfFile(st, f)
    ensures TakenOff(st, op) == Some(f) <==> ReleasesPage(st, op, f)
  {
    hide Inv;
  }

  /** A page leaves a frame that is dirty, or wired, or not of a file, only by being released. */
  lemma ProtectedStaysIff(st: State, op: Op, f: nat)
    requires Inv(st) && Allowed(st, op) && PageOn(st, f)
    requires st.frames[f].dirty || st.frames[f].wired > 0 || !OfFile(st, f)
    ensures PageKept(st, op, f) <==> !ReleasesPage(st, op, f)
  {
    PageStaysIff(st, op, f);
    NotDiscarded(st, op, f);
  }

  predicate DirtyKept(st: State, op: Op, f: nat)
    requires Allowed(st, op) && f < |st.frames|
  {
    PageKept(st, op, f) && Step(st, op).frames[f].dirty
  }

  /** A dirty frame keeps its page and its origin and stays dirty until its page is released, if and only if the step is
      not a late write of a release that freed the frame earlier. */
  lemma DirtyStaysIff(st: State, op: Op, f: nat)
    requires Inv(st) && Allowed(st, op) && PageOn(st, f) && st.frames[f].dirty && !ReleasesPage(st, op, f)
    ensures DirtyKept(st, op, f) <==> !CleansLate(st, op, f)
  {
    ProtectedStaysIff(st, op, f);
    hide Inv, Step, Allowed, PageOn, ReleasesPage, UnwiresFrame, UnwiresLate, CleansLate;
    KeptThrough(st, op, f);
  }

  lemma FilesStay(st: State, op: Op, o: nat)
    requires Allowed(st, op) && o < |st.origins|
    ensures o < |Step(st, op).origins| && Step(st, op).origins[o].file == st.origins[o].file
  {
    hide Allowed;
    if Releases(op) {
      FilesStayReleasing(st, op, o);
    } else if Faults(op) {
      FilesStayFaulting(st, op, o);
    } else {
      FilesStayElse(st, op, o);
    }
  }

  lemma FilesStayReleasing(st: State, op: Op, o: nat)
    requires Allowed(st, op) && o < |st.origins| && Releases(op)
    ensures o < |Step(st, op).origins| && Step(st, op).origins[o].file == st.origins[o].file
  {
    hide DerefVp;
  }

  lemma FilesStayFaulting(st: State, op: Op, o: nat)
    requires Allowed(st, op) && o < |st.origins| && Faults(op)
    ensures o < |Step(st, op).origins| && Step(st, op).origins[o].file == st.origins[o].file
  {
    hide DerefVp;
  }

  lemma FilesStayElse(st: State, op: Op, o: nat)
    requires Allowed(st, op) && o < |st.origins| && !Releases(op) && !Faults(op)
    ensures o < |Step(st, op).origins| && Step(st, op).origins[o].file == st.origins[o].file
  {
    hide DerefVp;
  }

  /** A page that is not of a file stays where it is until it is released. */
  lemma UnfiledStays(st: State, op: Op, f: nat)
    requires Inv(st) && Allowed(st, op) && PageOn(st, f) && !OfFile(st, f) && !ReleasesPage(st, op, f)
    ensures f < |Step(st, op).frames| && PageOn(Step(st, op), f) && !OfFile(Step(st, op), f)
    ensures Step(st, op).frames[f].user == st.frames[f].user
  {
    ProtectedStaysIff(st, op, f);
    assert FrameOk(st, f);
    FilesStay(st, op, st.frames[f].origin.id);
    hide Inv, Step, Allowed, ReleasesPage;
  }

  // ---- All frames ----

  /** The step is a late write of a release, on a frame that has a page and is dirty again by now. */
  predicate Cleans(st: State, op: Op)
    requires Allowed(st, op)
  {
    op.ReleaseClean? && PageOn(st, st.actors[op.a].f) && st.frames[st.actors[op.a].f].dirty
  }

  predicate Written(st: State, f: nat) {
    PageOn(st, f) && st.frames[f].dirty
  }

  ghost predicate WritesStay(st: State, op: Op)
    requires Allowed(st, op)
  {
    forall f {:trigger Written(st, f)} :: 0 <= f < |st.frames| && Written(st, f) && !ReleasesPage(st, op, f) ==>
        DirtyKept(st, op, f)
  }

  lemma SettledCleans(st: State, op: Op, f: nat)
    requires Inv(st) && Settled(st) && Allowed(st, op) && PageOn(st, f)
    ensures !CleansLate(st, op, f)
  {
    OnNotUnmapping(st, f);
    assert SettledAt(st, f);
    assert op.ReleaseClean? ==> Resets(st.actors[op.a], st.actors[op.a].f);
    hide Inv, Settled;
  }

  /** What was written to the pages that stay is kept through a step, exactly if the step does not do that. */
  lemma WritesStayIff(st: State, op: Op)
    requires Inv(st) && Allowed(st, op)
    ensures WritesStay(st, op) <==> !Cleans(st, op)
    ensures Settled(st) ==> WritesStay(st, op)
  {
    hide Inv, Step, PageOn, Settled, DirtyKept;
    forall f | 0 <= f < |st.frames| && Written(st, f) && !ReleasesPage(st, op, f)
      ensures DirtyKept(st, op, f) <==> !CleansLate(st, op, f)
      ensures Settled(st) ==> DirtyKept(st, op, f)
    {
      DirtyStaysIff(st, op, f);
      if Settled(st) {
        SettledCleans(st, op, f);
      }
    }
    assert op.ReleaseClean? ==> !ReleasesPage(st, op, st.actors[op.a].f) && CleansLate(st, op, st.actors[op.a].f);
    assert Cleans(st, op) ==> Written(st, st.actors[op.a].f);
  }

  predicate NoneCleaned(st: State, ops: seq<Op>)
    requires CanRun(st, ops)
    decreases |ops|
  {
    ops == [] || (!Cleans(st, ops[0]) && NoneCleaned(Step(st, ops[0]), ops[1..]))
  }

  ghost predicate WritesKept(st: State, ops: seq<Op>)
    requires CanRun(st, ops)
    decreases |ops|
  {
    ops == [] || (WritesStay(st, ops[0]) && WritesKept(Step(st, ops[0]), ops[1..]))
  }

  /** Over every run what was written is kept until its page is released, if and only if no late write of a release
      falls on a frame that is dirty again; and none does if no frame is given out before the release that freed it
      is done with it. */
  lemma {:induction false} RunWrites(st: State, ops: seq<Op>)
    requires Inv(st) && CanRun(st, ops) && NoneOvertaken(st, ops)
    ensures WritesKept(st, ops) <==> NoneCleaned(st, ops)
    ensures Settled(st) && NoneRetaken(st, ops) ==> WritesKept(st, ops)
    decreases |ops|
  {
    hide Inv, Settled, Step, Allowed, Retakes, Cleans, WritesStay, Unpublished, TakenOff;
    if ops != [] {
      StepKeepsIff(st, ops[0]);
      WritesStayIff(st, ops[0]);
      RunWrites(Step(st, ops[0]), ops[1..]);
      if Settled(st) {
        SettledStepIff(st, ops[0]);
      }
    }
  }

  // ---- One page ----

  predicate NeverReleased(st: State, ops: seq<Op>, f: nat)
    requires CanRun(st, ops)
    decreases |ops|
  {
    ops == [] || (!ReleasesPage(st, ops[0], f) && NeverReleased(Step(st, ops[0]), ops[1..], f))
  }

  predicate NeverCleaned(st: State, ops: seq<Op>, f: nat)
    requires CanRun(st, ops)
    decreases |ops|
  {
    ops == [] || (!CleansLate(st, ops[0], f) && NeverCleaned(Step(st, ops[0]), ops[1..], f))
  }

  lemma {:induction false} RunDirty(st: State, ops: seq<Op>, f: nat)
    requires Inv(st) && CanRun(st, ops) && NoneOvertaken(st, ops) && Written(st, f)
    requires NeverReleased(st, ops, f) && NeverCleaned(st, ops, f)
    ensures Written(After(st, ops), f) && After(st, ops).frames[f].user == st.frames[f].user
    decreases |ops|
  {
    hide Inv, Step, Allowed, Unpublished, TakenOff, ReleasesPage, CleansLate, PageOn;
    if ops != [] {
      StepKeepsIff(st, ops[0]);
      DirtyStaysIff(st, ops[0], f);
      RunDirty(Step(st, ops[0]), ops[1..], f);
    }
  }

  /** A page written to is still dirty after any run that does not release it, or clean its frame late. */
  lemma TouchedSurvives(st: State, ops: seq<Op>, f: nat)
    requires Inv(st) && PageOn(st, f) && Allowed(st, Touch(f)) && CanRun(Step(st, Touch(f)), ops)
    requires NoneOvertaken(Step(st, Touch(f)), ops)
    requires NeverReleased(Step(st, Touch(f)), ops, f) && NeverCleaned(Step(st, Touch(f)), ops, f)
    ensures var last := After(Step(st, Touch(f)), ops);
            PageOn(last, f) && last.frames[f].dirty && last.frames[f].user == st.frames[f].user
  {
    var st1 := Step(st, Touch(f));
    StepKeeps(st, Touch(f));
    assert Written(st1, f) && st1.frames[f].user == st.frames[f].user;
    hide Step, Inv;
    RunDirty(st1, ops, f);
  }

  /** A page that is not of a file is still there after any run that does not release it. */
  lemma {:induction false} RunUnfiled(st: State, ops: seq<Op>, f: nat)
    requires Inv(st) && CanRun(st, ops) && NoneOvertaken(st, ops) && PageOn(st, f) && !OfFile(st, f)
    requires NeverReleased(st, ops, f)
    ensures PageOn(After(st, ops), f) && After(st, ops).frames[f].user == st.frames[f].user
    decreases |ops|
  {
    hide Inv, Step, Allowed, Unpublished, TakenOff, ReleasesPage, PageOn, OfFile;
    if ops != [] {
      StepKeepsIff(st, ops[0]);
      UnfiledStays(st, ops[0], f);
      RunUnfiled(Step(st, ops[0]), ops[1..], f);
    }
  }
}
