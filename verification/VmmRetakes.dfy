/** A run of the paging steps in which a wired page is discarded: its frame was given out before the release that freed
    it had finished. */
module VmmRetakes {
  import opened VmmStates
  import opened VmmRuns
  import opened VmmFacts
  import opened VmmRaces

  // Two slots with a file page each, one frame, two threads.

  function PageOf(place: Where, own: nat, busy: nat): Vp {
    Vp(place, false, own, own, busy)
  }

  function FrameOf(own: nat, user: Link, wired: nat): Frame {
    Frame(true, Some(own), user, wired, false, None, None, false)
  }

  function HeldBy(holder: nat, own: nat, user: Link): Frame {
    Frame(true, Some(own), user, 0, false, Some(holder), None, true)
  }

  function Pair(slot: Link, vps: seq<Vp>, origins: seq<Origin>, frame: Frame, actors: seq<Phase>, vpRefs: seq<int>,
      originRefs: seq<int>): State {
    State([slot, Some(1)], vps, origins, [frame], actors, vpRefs, originRefs)
  }

  const BOTH_FREE := [File(None, None), File(None, None)]
  const NAMED_FIRST := [File(Some(0), None), File(None, None)]
  const NAMED_SECOND := [File(None, None), File(Some(0), None)]

  function Start(): State {
    Pair(Some(0), [PageOf(Absent(0), 0, 0), PageOf(Absent(1), 1, 0)], BOTH_FREE, FREE, [Idle, Idle], [1, 1], [1, 1])
  }

  lemma Begin()
    ensures Leads(Fresh(2, 1, 2), [Create(0, false, true), Create(1, false, true)], Start())
  {
    var s1 := Step(Fresh(2, 1, 2), Create(0, false, true));
    assert s1 == State([Some(0), None], [PageOf(Absent(0), 0, 0)], [File(None, None)], [FREE], [Idle, Idle], [1], [1]);
    var s2 := Step(s1, Create(1, false, true));
    assert s2 == Start();
  }

  function Loaded(): State {
    Pair(Some(0), [PageOf(Absent(0), 0, 0), PageOf(Absent(1), 1, 0)], NAMED_FIRST, FrameOf(0, None, 0), [Idle, Idle],
        [1, 1], [2, 1])
  }

  function Loading(): State {
    Pair(Some(0), [PageOf(Absent(0), 0, 0), PageOf(Absent(1), 1, 0)], [File(None, Some(0)), File(None, None)], FREE,
        [FLocked(0, 0), Idle], [1, 1], [2, 1])
  }

  lemma LoadFirst()
    ensures Leads(Start(), [Fault(0, 0), PeekPhys(0), LockOrigin(0)], Loading())
  {
    var vps := [PageOf(Absent(0), 0, 0), PageOf(Absent(1), 1, 0)];
    var s1 := Step(Start(), Fault(0, 0));
    assert s1 == Pair(Some(0), vps, BOTH_FREE, FREE, [FHas(0, 0), Idle], [1, 1], [2, 1]);
    var s2 := Step(s1, PeekPhys(0));
    assert s2 == Pair(Some(0), vps, BOTH_FREE, FREE, [FLoad(0, 0), Idle], [1, 1], [2, 1]);
    var s3 := Step(s2, LockOrigin(0));
    assert s3 == Loading();
  }

  lemma LoadRest()
    ensures Leads(Loading(), [AllocFrame(0, 0), Adopt(0), Publish(0)], Loaded())
  {
    var s1 := Step(Loading(), AllocFrame(0, 0));
    var s2 := Step(s1, Adopt(0));
    assert s2 == Pair(Some(0), [PageOf(Absent(0), 0, 0), PageOf(Absent(1), 1, 0)],
        [File(None, Some(0)), File(None, None)], FrameOf(0, None, 0), [FAdopted(0, 0, 0), Idle], [1, 1], [3, 1]);
    var s3 := Step(s2, Publish(0));
    assert s3 == Loaded();
  }

  function Mapped(): State {
    Pair(Some(0), [PageOf(On(0), 0, 0), PageOf(Absent(1), 1, 0)], NAMED_FIRST, FrameOf(0, Some(0), 0), [Idle, Idle],
        [2, 1], [1, 1])
  }

  function Mapping(): State {
    Pair(Some(0), [PageOf(Absent(0), 0, 0), PageOf(Absent(1), 1, 0)], NAMED_FIRST, HeldBy(0, 0, None),
        [FEntered(0, 0, 0), Idle], [1, 1], [3, 1])
  }

  lemma MapFirst()
    ensures Leads(Loaded(), [Fault(0, 0), PeekPhys(0), EnterMap(0)], Mapping())
  {
    var s1 := Step(Loaded(), Fault(0, 0));
    var s2 := Step(s1, PeekPhys(0));
    assert s2 == Pair(Some(0), [PageOf(Absent(0), 0, 0), PageOf(Absent(1), 1, 0)], NAMED_FIRST, FrameOf(0, None, 0),
        [FMap(0, 0, 0), Idle], [1, 1], [3, 1]);
    var s3 := Step(s2, EnterMap(0));
    assert s3 == Mapping();
  }

  lemma MapRest()
    ensures Leads(Mapping(), [Commit(0), LeaveMap(0)], Mapped())
  {
    var s1 := Step(Mapping(), Commit(0));
    assert s1 == Pair(Some(0), [PageOf(On(0), 0, 1), PageOf(Absent(1), 1, 0)], NAMED_FIRST, HeldBy(0, 0, Some(0)),
        [FDone(0, 0, 0), Idle], [2, 1], [2, 1]);
    var s2 := Step(s1, LeaveMap(0));
    assert s2 == Mapped();
  }

  /** The first thread has made the frame free, and is yet to clean and unwire it. */
  function HalfFreed(): State {
    Pair(None, [PageOf(On(0), 0, 0), PageOf(Absent(1), 1, 0)], BOTH_FREE, FREE, [RFreed(0, 0, 0, 0), Idle], [3, 1],
        [1, 1])
  }

  function Releasing(): State {
    Pair(Some(0), [PageOf(On(0), 0, 1), PageOf(Absent(1), 1, 0)], NAMED_FIRST, HeldBy(0, 0, Some(0)),
        [REntered(0, 0, 0), Idle], [3, 1], [1, 1])
  }

  lemma ReleaseFirst()
    ensures Leads(Mapped(), [Release(0, 0), ReleaseEnter(0)], Releasing())
  {
    var s1 := Step(Mapped(), Release(0, 0));
    assert s1 == Pair(Some(0), [PageOf(On(0), 0, 0), PageOf(Absent(1), 1, 0)], NAMED_FIRST, FrameOf(0, Some(0), 0),
        [RHas(0, 0, 0), Idle], [3, 1], [1, 1]);
    var s2 := Step(s1, ReleaseEnter(0));
    assert s2 == Releasing();
  }

  function Detached(): State {
    Pair(None, [PageOf(On(0), 0, 0), PageOf(Absent(1), 1, 0)], BOTH_FREE,
        Frame(true, None, None, 0, false, None, Some(0), false), [RDetached(0, 0, 0, 0), Idle], [3, 1], [1, 1])
  }

  lemma ReleaseRest()
    ensures Leads(Releasing(), [ReleaseUnlink(0), ReleaseDetach(0)], Detached())
  {
    var s1 := Step(Releasing(), ReleaseUnlink(0));
    assert s1 == Pair(None, [PageOf(On(0), 0, 0), PageOf(Absent(1), 1, 0)], NAMED_FIRST,
        Frame(true, Some(0), None, 0, false, Some(0), None, false), [RUnlinked(0, 0, 0), Idle], [3, 1], [1, 1]);
    var s2 := Step(s1, ReleaseDetach(0));
    assert s2 == Detached();
  }

  lemma HalfFree()
    ensures Leads(Detached(), [ReleaseFree(0)], HalfFreed())
  {
    assert Step(Detached(), ReleaseFree(0)) == HalfFreed();
  }

  function Reloaded(): State {
    Pair(None, [PageOf(On(0), 0, 0), PageOf(Absent(1), 1, 0)], NAMED_SECOND, FrameOf(1, None, 0),
        [RFreed(0, 0, 0, 0), Idle], [3, 1], [1, 2])
  }

  function ReloadStarted(): State {
    Pair(None, [PageOf(On(0), 0, 0), PageOf(Absent(1), 1, 0)], [File(None, None), File(None, Some(1))], FREE,
        [RFreed(0, 0, 0, 0), FLocked(1, 1)], [3, 1], [1, 2])
  }

  lemma ReloadFirst()
    ensures Leads(HalfFreed(), [Fault(1, 1), PeekPhys(1), LockOrigin(1)], ReloadStarted())
  {
    var vps := [PageOf(On(0), 0, 0), PageOf(Absent(1), 1, 0)];
    var s1 := Step(HalfFreed(), Fault(1, 1));
    var s2 := Step(s1, PeekPhys(1));
    assert s2 == Pair(None, vps, BOTH_FREE, FREE, [RFreed(0, 0, 0, 0), FLoad(1, 1)], [3, 1], [1, 2]);
    var s3 := Step(s2, LockOrigin(1));
    assert s3 == ReloadStarted();
  }

  /** The frame is given out again, though the first thread has yet to reset it. */
  lemma ReloadRest()
    ensures Leads(ReloadStarted(), [AllocFrame(1, 0), Adopt(1), Publish(1)], Reloaded())
  {
    var s1 := Step(ReloadStarted(), AllocFrame(1, 0));
    var s2 := Step(s1, Adopt(1));
    assert s2 == Pair(None, [PageOf(On(0), 0, 0), PageOf(Absent(1), 1, 0)], [File(None, None), File(None, Some(1))],
        FrameOf(1, None, 0), [RFreed(0, 0, 0, 0), FAdopted(1, 1, 0)], [3, 1], [1, 3]);
    var s3 := Step(s2, Publish(1));
    assert s3 == Reloaded();
  }

  function Remapped(): State {
    Pair(None, [PageOf(On(0), 0, 0), PageOf(On(0), 1, 0)], NAMED_SECOND, FrameOf(1, Some(1), 0),
        [RFreed(0, 0, 0, 0), Idle], [3, 2], [1, 1])
  }

  function Remapping(): State {
    Pair(None, [PageOf(On(0), 0, 0), PageOf(Absent(1), 1, 0)], NAMED_SECOND, HeldBy(1, 1, None),
        [RFreed(0, 0, 0, 0), FEntered(1, 1, 0)], [3, 1], [1, 3])
  }

  lemma RemapFirst()
    ensures Leads(Reloaded(), [Fault(1, 1), PeekPhys(1), EnterMap(1)], Remapping())
  {
    var s1 := Step(Reloaded(), Fault(1, 1));
    var s2 := Step(s1, PeekPhys(1));
    assert s2 == Pair(None, [PageOf(On(0), 0, 0), PageOf(Absent(1), 1, 0)], NAMED_SECOND, FrameOf(1, None, 0),
        [RFreed(0, 0, 0, 0), FMap(1, 1, 0)], [3, 1], [1, 3]);
    var s3 := Step(s2, EnterMap(1));
    assert s3 == Remapping();
  }

  lemma RemapRest()
    ensures Leads(Remapping(), [Commit(1), LeaveMap(1)], Remapped())
  {
    var s1 := Step(Remapping(), Commit(1));
    assert s1 == Pair(None, [PageOf(On(0), 0, 0), PageOf(On(0), 1, 1)], NAMED_SECOND, HeldBy(1, 1, Some(1)),
        [RFreed(0, 0, 0, 0), FDone(1, 1, 0)], [3, 2], [1, 2]);
    var s2 := Step(s1, LeaveMap(1));
    assert s2 == Remapped();
  }

  /** The second thread has wired its page. */
  function Rewired(): State {
    Pair(None, [PageOf(On(0), 0, 0), PageOf(On(0), 1, 0)], NAMED_SECOND, FrameOf(1, Some(1), 1),
        [RFreed(0, 0, 0, 0), Idle], [3, 2], [1, 1])
  }

  lemma WireOther()
    ensures Leads(Remapped(), [Wire(1, 1), WireFrame(1)], Rewired())
  {
    var s1 := Step(Remapped(), Wire(1, 1));
    var s2 := Step(s1, WireFrame(1));
    assert s2 == Rewired();
  }

  function Finished(): State {
    Pair(None, [PageOf(Gone, 0, 0), PageOf(On(0), 1, 0)], NAMED_SECOND, FrameOf(1, Some(1), 0), [Idle, Idle], [0, 2],
        [0, 1])
  }

  lemma Finish()
    ensures Leads(Rewired(), [ReleaseClean(0), ReleaseReset(0)], Finished())
  {
    var s1 := Step(Rewired(), ReleaseClean(0));
    var s2 := Step(s1, ReleaseReset(0));
    assert s2 == Finished();
  }

  const DISCARDING :=
    [DiscardEnter(1, 0), DiscardUnmap(1)] + [DiscardClear(1), DiscardLeave(1)] + [DiscardFree(1)]

  function Discarded(): State {
    Pair(None, [PageOf(Gone, 0, 0), PageOf(Absent(1), 1, 0)], BOTH_FREE, FREE, [Idle, Idle], [0, 1], [0, 1])
  }

  function Unmapped(): State {
    Pair(None, [PageOf(Gone, 0, 0), PageOf(Absent(1), 1, 1)], NAMED_SECOND, HeldBy(1, 1, Some(1)),
        [Idle, DUnmapped(0)], [0, 2], [0, 2])
  }

  lemma DiscardFirst()
    ensures Leads(Finished(), [DiscardEnter(1, 0), DiscardUnmap(1)], Unmapped())
  {
    var s1 := Step(Finished(), DiscardEnter(1, 0));
    assert s1 == Pair(None, [PageOf(Gone, 0, 0), PageOf(On(0), 1, 1)], NAMED_SECOND, HeldBy(1, 1, Some(1)),
        [Idle, DEntered(0)], [0, 2], [0, 1]);
    var s2 := Step(s1, DiscardUnmap(1));
    assert s2 == Unmapped();
  }

  function Left(): State {
    Pair(None, [PageOf(Gone, 0, 0), PageOf(Absent(1), 1, 0)], BOTH_FREE,
        Frame(true, Some(1), Some(1), 0, false, Some(1), None, false), [Idle, DLeft(0)], [0, 2], [0, 2])
  }

  lemma DiscardMore()
    ensures Leads(Unmapped(), [DiscardClear(1), DiscardLeave(1)], Left())
  {
    var s1 := Step(Unmapped(), DiscardClear(1));
    assert s1 == Pair(None, [PageOf(Gone, 0, 0), PageOf(Absent(1), 1, 1)], BOTH_FREE, HeldBy(1, 1, Some(1)),
        [Idle, DCleared(0)], [0, 2], [0, 2]);
    var s2 := Step(s1, DiscardLeave(1));
    assert s2 == Left();
  }

  lemma DiscardRest()
    ensures Leads(Left(), [DiscardFree(1)], Discarded())
  {
    assert Step(Left(), DiscardFree(1)) == Discarded();
  }

  lemma Discard()
    ensures Leads(Finished(), DISCARDING, Discarded())
  {
    hide Leads, Finished, Unmapped, Left, Discarded;
    DiscardFirst();
    DiscardMore();
    LeadsOn(Finished(), [DiscardEnter(1, 0), DiscardUnmap(1)], Unmapped(), [DiscardClear(1), DiscardLeave(1)], Left());
    DiscardRest();
    LeadsOn(Finished(), [DiscardEnter(1, 0), DiscardUnmap(1)] + [DiscardClear(1), DiscardLeave(1)], Left(),
        [DiscardFree(1)], Discarded());
  }

  lemma ToMapped() returns (ops: seq<Op>)
    ensures Leads(Fresh(2, 1, 2), ops, Mapped())
  {
    hide *;
    var st0 := Fresh(2, 1, 2);
    ops := [Create(0, false, true), Create(1, false, true)];
    Begin();
    LoadFirst();
    LeadsOn(st0, ops, Start(), [Fault(0, 0), PeekPhys(0), LockOrigin(0)], Loading());
    ops := ops + [Fault(0, 0), PeekPhys(0), LockOrigin(0)];
    LoadRest();
    LeadsOn(st0, ops, Loading(), [AllocFrame(0, 0), Adopt(0), Publish(0)], Loaded());
    ops := ops + [AllocFrame(0, 0), Adopt(0), Publish(0)];
    MapFirst();
    LeadsOn(st0, ops, Loaded(), [Fault(0, 0), PeekPhys(0), EnterMap(0)], Mapping());
    ops := ops + [Fault(0, 0), PeekPhys(0), EnterMap(0)];
    MapRest();
    LeadsOn(st0, ops, Mapping(), [Commit(0), LeaveMap(0)], Mapped());
    ops := ops + [Commit(0), LeaveMap(0)];
  }

  lemma ToRemapped() returns (ops: seq<Op>)
    ensures Leads(Fresh(2, 1, 2), ops, Remapped())
  {
    hide *;
    var st0 := Fresh(2, 1, 2);
    ops := ToMapped();
    ReleaseFirst();
    LeadsOn(st0, ops, Mapped(), [Release(0, 0), ReleaseEnter(0)], Releasing());
    ops := ops + [Release(0, 0), ReleaseEnter(0)];
    ReleaseRest();
    LeadsOn(st0, ops, Releasing(), [ReleaseUnlink(0), ReleaseDetach(0)], Detached());
    ops := ops + [ReleaseUnlink(0), ReleaseDetach(0)];
    HalfFree();
    LeadsOn(st0, ops, Detached(), [ReleaseFree(0)], HalfFreed());
    ops := ops + [ReleaseFree(0)];
    ReloadFirst();
    LeadsOn(st0, ops, HalfFreed(), [Fault(1, 1), PeekPhys(1), LockOrigin(1)], ReloadStarted());
    ops := ops + [Fault(1, 1), PeekPhys(1), LockOrigin(1)];
    ReloadRest();
    LeadsOn(st0, ops, ReloadStarted(), [AllocFrame(1, 0), Adopt(1), Publish(1)], Reloaded());
    ops := ops + [AllocFrame(1, 0), Adopt(1), Publish(1)];
    RemapFirst();
    LeadsOn(st0, ops, Reloaded(), [Fault(1, 1), PeekPhys(1), EnterMap(1)], Remapping());
    ops := ops + [Fault(1, 1), PeekPhys(1), EnterMap(1)];
    RemapRest();
    LeadsOn(st0, ops, Remapping(), [Commit(1), LeaveMap(1)], Remapped());
    ops := ops + [Commit(1), LeaveMap(1)];
  }

  lemma ToRewired() returns (ops: seq<Op>)
    ensures Leads(Fresh(2, 1, 2), ops, Rewired())
  {
    hide *;
    ops := ToRemapped();
    WireOther();
    LeadsOn(Fresh(2, 1, 2), ops, Remapped(), [Wire(1, 1), WireFrame(1)], Rewired());
    ops := ops + [Wire(1, 1), WireFrame(1)];
  }

  /** No step of the run unwires a frame or releases a page. */
  predicate NoneGivesUp(ops: seq<Op>) {
    forall i :: 0 <= i < |ops| ==> !ops[i].UnwireFrame? && !ops[i].ReleaseUnlink?
  }

  lemma Ends()
    ensures InUse(Rewired(), 0) && Discarded().frames == [FREE]
  {
  }

  lemma NoneDoes()
    ensures NoneGivesUp([ReleaseClean(0), ReleaseReset(0)] + DISCARDING)
  {
  }

  /** The run ends with the only frame free again, though it was wired and its wiring never given up. */
  predicate LosesWired(st: State, ops: seq<Op>, st': State) {
    InUse(st, 0) && NoneGivesUp(ops) && Leads(st, ops, st') && st'.frames == [FREE]
  }

  /** A wired page is discarded: between the writes with which a release frees its frame, the frame is loaded for it,
      mapped and wired, and the last of those writes unwires it. */
  lemma WiredDiscarded()
    ensures exists ops, st: State :: Leads(Fresh(2, 1, 2), ops, st) && exists more, st' :: LosesWired(st, more, st')
  {
    hide *;
    var ops := ToRewired();
    Finish();
    Discard();
    LeadsOn(Rewired(), [ReleaseClean(0), ReleaseReset(0)], Finished(), DISCARDING, Discarded());
    Losing([ReleaseClean(0), ReleaseReset(0)] + DISCARDING);
    assert Leads(Fresh(2, 1, 2), ops, Rewired());
  }

  lemma Losing(ops: seq<Op>)
    requires Leads(Rewired(), ops, Discarded())
    requires ops == [ReleaseClean(0), ReleaseReset(0)] + DISCARDING
    ensures LosesWired(Rewired(), ops, Discarded())
  {
    hide Leads, InUse, Rewired, Discarded, NoneGivesUp;
    Ends();
    NoneDoes();
  }

  // ---- Writes that go the same way ----

  /** The second thread has written to its page. */
  function Rewritten(): State {
    Pair(None, [PageOf(On(0), 0, 0), PageOf(On(0), 1, 0)], NAMED_SECOND,
        Frame(true, Some(1), Some(1), 0, true, None, None, false), [RFreed(0, 0, 0, 0), Idle], [3, 2], [1, 1])
  }

  lemma Rewrite()
    ensures Leads(Remapped(), [Touch(0)], Rewritten())
  {
    assert Step(Remapped(), Touch(0)) == Rewritten();
  }

  lemma FinishWritten()
    ensures Leads(Rewritten(), [ReleaseClean(0), ReleaseReset(0)], Finished())
  {
    var s1 := Step(Rewritten(), ReleaseClean(0));
    var s2 := Step(s1, ReleaseReset(0));
    assert s2 == Finished();
  }

  /** The run ends with the only frame free again, though its page was written to and never released. */
  predicate LosesWritten(st: State, ops: seq<Op>, st': State) {
    PageOn(st, 0) && st.frames[0].dirty && NoneGivesUp(ops) && Leads(st, ops, st') && st'.frames == [FREE]
  }

  lemma LosingWritten(ops: seq<Op>)
    requires Leads(Rewritten(), ops, Discarded())
    requires ops == [ReleaseClean(0), ReleaseReset(0)] + DISCARDING
    ensures LosesWritten(Rewritten(), ops, Discarded())
  {
    assert PageOn(Rewritten(), 0) && Rewritten().frames[0].dirty;
    hide Leads, PageOn, Rewritten, Discarded, NoneGivesUp;
    Ends();
    NoneDoes();
  }

  /** A page that was written to is discarded: between the writes with which a release frees its frame, the frame is
      loaded for it, mapped and written to, and the second of those writes marks it clean. */
  lemma WrittenDiscarded()
    ensures exists ops, st: State :: Leads(Fresh(2, 1, 2), ops, st) && exists more, st' :: LosesWritten(st, more, st')
  {
    hide *;
    var ops := ToRemapped();
    Rewrite();
    LeadsOn(Fresh(2, 1, 2), ops, Remapped(), [Touch(0)], Rewritten());
    FinishWritten();
    Discard();
    LeadsOn(Rewritten(), [ReleaseClean(0), ReleaseReset(0)], Finished(), DISCARDING, Discarded());
    LosingWritten([ReleaseClean(0), ReleaseReset(0)] + DISCARDING);
    assert Leads(Fresh(2, 1, 2), ops + [Touch(0)], Rewritten());
  }
}
