/** Two runs of the paging steps that reach what the code asserts cannot be. */
module VmmRaces {
  import opened VmmStates
  import opened VmmRuns

  /** ops leads from st to st'. */
  predicate Leads(st: State, ops: seq<Op>, st': State) {
    CanRun(st, ops) && After(st, ops) == st'
  }

  lemma {:induction false} LeadsOn(st: State, ops: seq<Op>, mid: State, more: seq<Op>, st': State)
    requires Leads(st, ops, mid) && Leads(mid, more, st')
    ensures Leads(st, ops + more, st')
    decreases |ops|
  {
    hide Allowed, Step;
    if ops == [] {
      assert ops + more == more;
    } else {
      LeadsOn(Step(st, ops[0]), ops[1..], mid, more, st');
      assert (ops + more)[0] == ops[0] && (ops + more)[1..] == ops[1..] + more;
    }
  }

  // One slot, one file page, two frames, three threads.

  function Page(place: Where, busy: nat): Vp {
    Vp(place, false, 0, 0, busy)
  }

  function File(phys: Link, mutex: Link): Origin {
    Origin(phys, false, true, mutex)
  }

  const FREE := Frame(false, None, None, 0, false, None, None, false)

  function Owned(user: Link): Frame {
    Frame(true, Some(0), user, 0, false, None, None, false)
  }

  function Held(user: Link, holder: nat): Frame {
    Frame(true, Some(0), user, 0, false, Some(holder), None, true)
  }

  /** Still locked and listing its user, which is no longer busy on its account. */
  function Listed(user: nat, holder: nat): Frame {
    Frame(true, Some(0), Some(user), 0, false, Some(holder), None, false)
  }

  function World(page: Vp, origin: Origin, frames: seq<Frame>, actors: seq<Phase>, vpRefs: int,
      originRefs: int): State {
    State([Some(0)], [page], [origin], frames, actors, [vpRefs], [originRefs])
  }

  /** A discard has unmapped frame f's page while its origin does not name the frame. */
  predicate OriginLost(st: State, a: nat) {
    a < |st.actors| && st.actors[a].DUnmapped? && st.actors[a].f < |st.frames|
        && st.frames[st.actors[a].f].origin.Some? &&
    var o := st.frames[st.actors[a].f].origin.id;
    o < |st.origins| && st.origins[o].phys != Some(st.actors[a].f)
  }

  /** An origin names a frame that is free. */
  predicate Dangling(st: State, o: nat) {
    o < |st.origins| && st.origins[o].phys.Some? && st.origins[o].phys.id < |st.frames|
        && !st.frames[st.origins[o].phys.id].taken
  }

  /** A release that is about to unlink a page finds it busy more than once. */
  predicate BusyTwice(st: State, a: nat) {
    a < |st.actors| && st.actors[a].REntered? && Names(st, st.actors[a].s, st.actors[a].v)
    && st.vps[st.actors[a].v].place == On(st.actors[a].f) && st.vps[st.actors[a].v].busy == 2
  }

  /** The page is created, and its first fault has its origin's mutex. */
  lemma LoadFirst(st: State)
    requires st == Fresh(1, 2, 3)
    ensures Leads(st, [Create(0, false, true), Fault(0, 0), PeekPhys(0), LockOrigin(0)],
                  World(Page(Absent(0), 0), File(None, Some(0)), [FREE, FREE], [FLocked(0, 0), Idle, Idle], 1, 2))
  {
    var s1 := Step(st, Create(0, false, true));
    assert s1 == World(Page(Absent(0), 0), File(None, None), [FREE, FREE], [Idle, Idle, Idle], 1, 1);
    var s2 := Step(s1, Fault(0, 0));
    assert s2 == World(Page(Absent(0), 0), File(None, None), [FREE, FREE], [FHas(0, 0), Idle, Idle], 1, 2);
    var s3 := Step(s2, PeekPhys(0));
    assert s3 == World(Page(Absent(0), 0), File(None, None), [FREE, FREE], [FLoad(0, 0), Idle, Idle], 1, 2);
    var s4 := Step(s3, LockOrigin(0));
    assert s4 == World(Page(Absent(0), 0), File(None, Some(0)), [FREE, FREE], [FLocked(0, 0), Idle, Idle], 1, 2);
  }

  /** A frame is loaded and published. */
  lemma LoadRest(st: State)
    requires st == World(Page(Absent(0), 0), File(None, Some(0)), [FREE, FREE], [FLocked(0, 0), Idle, Idle], 1, 2)
    ensures Leads(st, [AllocFrame(0, 0), Adopt(0), Publish(0)],
                  World(Page(Absent(0), 0), File(Some(0), None), [Owned(None), FREE], [Idle, Idle, Idle], 1, 2))
  {
    var s1 := Step(st, AllocFrame(0, 0));
    var s2 := Step(s1, Adopt(0));
    assert s2 == World(Page(Absent(0), 0), File(None, Some(0)), [Owned(None), FREE], [FAdopted(0, 0, 0), Idle, Idle],
        1, 3);
    var s3 := Step(s2, Publish(0));
    assert s3 == World(Page(Absent(0), 0), File(Some(0), None), [Owned(None), FREE], [Idle, Idle, Idle], 1, 2);
  }

  /** A second thread faults too, and sees where the frame is. */
  lemma PeekEarly(st: State)
    requires st == World(Page(Absent(0), 0), File(Some(0), None), [Owned(None), FREE], [Idle, Idle, Idle], 1, 2)
    ensures Leads(st, [Fault(1, 0), PeekPhys(1)],
                  World(Page(Absent(0), 0), File(Some(0), None), [Owned(None), FREE], [Idle, FMap(0, 0, 0), Idle], 1,
                      3))
  {
    var s1 := Step(st, Fault(1, 0));
    var s2 := Step(s1, PeekPhys(1));
    assert s2 == World(Page(Absent(0), 0), File(Some(0), None), [Owned(None), FREE], [Idle, FMap(0, 0, 0), Idle], 1, 3);
  }

  /** The first thread has the frame's lock, */
  lemma MapFirst(st: State)
    requires st == World(Page(Absent(0), 0), File(Some(0), None), [Owned(None), FREE], [Idle, FMap(0, 0, 0), Idle], 1,
        3)
    ensures Leads(st, [Fault(0, 0), PeekPhys(0), EnterMap(0)],
                  World(Page(Absent(0), 0), File(Some(0), None), [Held(None, 0), FREE],
                      [FEntered(0, 0, 0), FMap(0, 0, 0), Idle], 1, 4))
  {
    var s1 := Step(st, Fault(0, 0));
    var s2 := Step(s1, PeekPhys(0));
    assert s2 == World(Page(Absent(0), 0), File(Some(0), None), [Owned(None), FREE],
        [FMap(0, 0, 0), FMap(0, 0, 0), Idle], 1, 4);
    var s3 := Step(s2, EnterMap(0));
    assert s3 == World(Page(Absent(0), 0), File(Some(0), None), [Held(None, 0), FREE],
        [FEntered(0, 0, 0), FMap(0, 0, 0), Idle], 1, 4);
  }

  /** and maps the page. */
  lemma MapRest(st: State)
    requires st == World(Page(Absent(0), 0), File(Some(0), None), [Held(None, 0), FREE],
        [FEntered(0, 0, 0), FMap(0, 0, 0), Idle], 1, 4)
    ensures Leads(st, [Commit(0), LeaveMap(0)],
                  World(Page(On(0), 0), File(Some(0), None), [Owned(Some(0)), FREE], [Idle, FMap(0, 0, 0), Idle], 2, 2))
  {
    var s1 := Step(st, Commit(0));
    assert s1 == World(Page(On(0), 1), File(Some(0), None), [Held(Some(0), 0), FREE],
        [FDone(0, 0, 0), FMap(0, 0, 0), Idle], 2, 3);
    var s2 := Step(s1, LeaveMap(0));
    assert s2 == World(Page(On(0), 0), File(Some(0), None), [Owned(Some(0)), FREE], [Idle, FMap(0, 0, 0), Idle], 2, 2);
  }

  /** A third unmaps it, */
  lemma DiscardFirst(st: State)
    requires st == World(Page(On(0), 0), File(Some(0), None), [Owned(Some(0)), FREE], [Idle, FMap(0, 0, 0), Idle], 2, 2)
    ensures Leads(st, [DiscardEnter(2, 0), DiscardUnmap(2)],
                  World(Page(Absent(0), 1), File(Some(0), None), [Held(Some(0), 2), FREE],
                      [Idle, FMap(0, 0, 0), DUnmapped(0)], 2, 3))
  {
    var s1 := Step(st, DiscardEnter(2, 0));
    assert s1 == World(Page(On(0), 1), File(Some(0), None), [Held(Some(0), 2), FREE],
        [Idle, FMap(0, 0, 0), DEntered(0)], 2, 2);
    var s2 := Step(s1, DiscardUnmap(2));
    assert s2 == World(Page(Absent(0), 1), File(Some(0), None), [Held(Some(0), 2), FREE],
        [Idle, FMap(0, 0, 0), DUnmapped(0)], 2, 3);
  }

  /** clears its origin's way to the frame, */
  lemma DiscardNext(st: State)
    requires st == World(Page(Absent(0), 1), File(Some(0), None), [Held(Some(0), 2), FREE],
        [Idle, FMap(0, 0, 0), DUnmapped(0)], 2, 3)
    ensures Leads(st, [DiscardClear(2)],
                  World(Page(Absent(0), 1), File(None, None), [Held(Some(0), 2), FREE],
                      [Idle, FMap(0, 0, 0), DCleared(0)], 2, 3))
  {
    assert Step(st, DiscardClear(2)) == World(Page(Absent(0), 1), File(None, None), [Held(Some(0), 2), FREE],
        [Idle, FMap(0, 0, 0), DCleared(0)], 2, 3);
  }

  /** and frees the frame. */
  lemma DiscardRest(st: State)
    requires st == World(Page(Absent(0), 1), File(None, None), [Held(Some(0), 2), FREE],
        [Idle, FMap(0, 0, 0), DCleared(0)], 2, 3)
    ensures Leads(st, [DiscardLeave(2), DiscardFree(2)],
                  World(Page(Absent(0), 0), File(None, None), [FREE, FREE], [Idle, FMap(0, 0, 0), Idle], 1, 2))
  {
    var s1 := Step(st, DiscardLeave(2));
    assert s1 == World(Page(Absent(0), 0), File(None, None), [Listed(0, 2), FREE], [Idle, FMap(0, 0, 0), DLeft(0)], 2,
        3);
    var s2 := Step(s1, DiscardFree(2));
    assert s2 == World(Page(Absent(0), 0), File(None, None), [FREE, FREE], [Idle, FMap(0, 0, 0), Idle], 1, 2);
  }

  /** The first locks the origin again, */
  lemma Reload(st: State)
    requires st == World(Page(Absent(0), 0), File(None, None), [FREE, FREE], [Idle, FMap(0, 0, 0), Idle], 1, 2)
    ensures Leads(st, [Fault(0, 0), PeekPhys(0), LockOrigin(0)],
                  World(Page(Absent(0), 0), File(None, Some(0)), [FREE, FREE], [FLocked(0, 0), FMap(0, 0, 0), Idle],
                      1, 3))
  {
    var s1 := Step(st, Fault(0, 0));
    var s2 := Step(s1, PeekPhys(0));
    assert s2 == World(Page(Absent(0), 0), File(None, None), [FREE, FREE], [FLoad(0, 0), FMap(0, 0, 0), Idle], 1, 3);
    var s3 := Step(s2, LockOrigin(0));
    assert s3 == World(Page(Absent(0), 0), File(None, Some(0)), [FREE, FREE], [FLocked(0, 0), FMap(0, 0, 0), Idle], 1,
        3);
  }

  /** loads the page into the same frame, and has yet to publish it. */
  lemma ReloadRest(st: State)
    requires st == World(Page(Absent(0), 0), File(None, Some(0)), [FREE, FREE], [FLocked(0, 0), FMap(0, 0, 0), Idle],
        1, 3)
    ensures Leads(st, [AllocFrame(0, 0), Adopt(0)],
                  World(Page(Absent(0), 0), File(None, Some(0)), [Owned(None), FREE],
                      [FAdopted(0, 0, 0), FMap(0, 0, 0), Idle], 1, 4))
  {
    var s1 := Step(st, AllocFrame(0, 0));
    var s2 := Step(s1, Adopt(0));
    assert s2 == World(Page(Absent(0), 0), File(None, Some(0)), [Owned(None), FREE],
        [FAdopted(0, 0, 0), FMap(0, 0, 0), Idle], 1, 4);
  }

  /** What the second saw is stale, but the frame is the origin's again: its commit goes through, */
  lemma CommitStale(st: State)
    requires st == World(Page(Absent(0), 0), File(None, Some(0)), [Owned(None), FREE],
        [FAdopted(0, 0, 0), FMap(0, 0, 0), Idle], 1, 4)
    ensures Leads(st, [EnterMap(1), Commit(1)],
                  World(Page(On(0), 1), File(None, Some(0)), [Held(Some(0), 1), FREE],
                      [FAdopted(0, 0, 0), FDone(0, 0, 0), Idle], 2, 3))
  {
    var s1 := Step(st, EnterMap(1));
    assert s1 == World(Page(Absent(0), 0), File(None, Some(0)), [Held(None, 1), FREE],
        [FAdopted(0, 0, 0), FEntered(0, 0, 0), Idle], 1, 4);
    var s2 := Step(s1, Commit(1));
    assert s2 == World(Page(On(0), 1), File(None, Some(0)), [Held(Some(0), 1), FREE],
        [FAdopted(0, 0, 0), FDone(0, 0, 0), Idle], 2, 3);
  }

  /** and it lets go. */
  lemma LeaveStale(st: State)
    requires st == World(Page(On(0), 1), File(None, Some(0)), [Held(Some(0), 1), FREE],
        [FAdopted(0, 0, 0), FDone(0, 0, 0), Idle], 2, 3)
    ensures Leads(st, [LeaveMap(1)],
                  World(Page(On(0), 0), File(None, Some(0)), [Owned(Some(0)), FREE], [FAdopted(0, 0, 0), Idle, Idle],
                      2, 2))
  {
    assert Step(st, LeaveMap(1)) == World(Page(On(0), 0), File(None, Some(0)), [Owned(Some(0)), FREE],
        [FAdopted(0, 0, 0), Idle, Idle], 2, 2);
  }

  /** The third discards again: it unmaps the page, and is about to assert that the origin names the frame. */
  lemma DiscardAgain(st: State)
    requires st == World(Page(On(0), 0), File(None, Some(0)), [Owned(Some(0)), FREE], [FAdopted(0, 0, 0), Idle, Idle],
        2, 2)
    ensures Leads(st, [DiscardEnter(2, 0), DiscardUnmap(2)],
                  World(Page(Absent(0), 1), File(None, Some(0)), [Held(Some(0), 2), FREE],
                      [FAdopted(0, 0, 0), Idle, DUnmapped(0)], 2, 3))
    ensures OriginLost(World(Page(Absent(0), 1), File(None, Some(0)), [Held(Some(0), 2), FREE],
        [FAdopted(0, 0, 0), Idle, DUnmapped(0)], 2, 3), 2)
  {
    var s1 := Step(st, DiscardEnter(2, 0));
    var s2 := Step(s1, DiscardUnmap(2));
    assert s2 == World(Page(Absent(0), 1), File(None, Some(0)), [Held(Some(0), 2), FREE],
        [FAdopted(0, 0, 0), Idle, DUnmapped(0)], 2, 3);
  }

  /** It carries on, */
  lemma DiscardLost(st: State)
    requires st == World(Page(Absent(0), 1), File(None, Some(0)), [Held(Some(0), 2), FREE],
        [FAdopted(0, 0, 0), Idle, DUnmapped(0)], 2, 3)
    ensures Leads(st, [DiscardClear(2), DiscardLeave(2)],
                  World(Page(Absent(0), 0), File(None, Some(0)), [Listed(0, 2), FREE],
                      [FAdopted(0, 0, 0), Idle, DLeft(0)], 2, 3))
  {
    var s1 := Step(st, DiscardClear(2));
    assert s1 == World(Page(Absent(0), 1), File(None, Some(0)), [Held(Some(0), 2), FREE],
        [FAdopted(0, 0, 0), Idle, DCleared(0)], 2, 3);
    var s2 := Step(s1, DiscardLeave(2));
    assert s2 == World(Page(Absent(0), 0), File(None, Some(0)), [Listed(0, 2), FREE],
        [FAdopted(0, 0, 0), Idle, DLeft(0)], 2, 3);
  }

  /** frees the frame, and only then does the first publish it. */
  lemma PublishLate(st: State)
    requires st == World(Page(Absent(0), 0), File(None, Some(0)), [Listed(0, 2), FREE],
        [FAdopted(0, 0, 0), Idle, DLeft(0)], 2, 3)
    ensures Leads(st, [DiscardFree(2), Publish(0)],
                  World(Page(Absent(0), 0), File(Some(0), None), [FREE, FREE], [Idle, Idle, Idle], 1, 1))
    ensures Dangling(World(Page(Absent(0), 0), File(Some(0), None), [FREE, FREE], [Idle, Idle, Idle], 1, 1), 0)
  {
    var s1 := Step(st, DiscardFree(2));
    assert s1 == World(Page(Absent(0), 0), File(None, Some(0)), [FREE, FREE], [FAdopted(0, 0, 0), Idle, Idle], 1, 2);
    var s2 := Step(s1, Publish(0));
    assert s2 == World(Page(Absent(0), 0), File(Some(0), None), [FREE, FREE], [Idle, Idle, Idle], 1, 1);
  }

  /** While the third still holds the old frame, the first locks the origin to load the page into another, */
  lemma ReloadBeside(st: State)
    requires st == World(Page(Absent(0), 1), File(None, None), [Held(Some(0), 2), FREE],
        [Idle, FMap(0, 0, 0), DCleared(0)], 2, 3)
    ensures Leads(st, [Fault(0, 0), PeekPhys(0), LockOrigin(0)],
                  World(Page(Absent(0), 1), File(None, Some(0)), [Held(Some(0), 2), FREE],
                      [FLocked(0, 0), FMap(0, 0, 0), DCleared(0)], 2, 4))
  {
    var s1 := Step(st, Fault(0, 0));
    var s2 := Step(s1, PeekPhys(0));
    assert s2 == World(Page(Absent(0), 1), File(None, None), [Held(Some(0), 2), FREE],
        [FLoad(0, 0), FMap(0, 0, 0), DCleared(0)], 2, 4);
    var s3 := Step(s2, LockOrigin(0));
    assert s3 == World(Page(Absent(0), 1), File(None, Some(0)), [Held(Some(0), 2), FREE],
        [FLocked(0, 0), FMap(0, 0, 0), DCleared(0)], 2, 4);
  }

  /** publishes that, */
  lemma PublishBeside(st: State)
    requires st == World(Page(Absent(0), 1), File(None, Some(0)), [Held(Some(0), 2), FREE],
        [FLocked(0, 0), FMap(0, 0, 0), DCleared(0)], 2, 4)
    ensures Leads(st, [AllocFrame(0, 1), Adopt(0), Publish(0)],
                  World(Page(Absent(0), 1), File(Some(1), None), [Held(Some(0), 2), Owned(None)],
                      [Idle, FMap(0, 0, 0), DCleared(0)], 2, 4))
  {
    var s1 := Step(st, AllocFrame(0, 1));
    var s2 := Step(s1, Adopt(0));
    assert s2 == World(Page(Absent(0), 1), File(None, Some(0)), [Held(Some(0), 2), Owned(None)],
        [FAdopted(0, 0, 1), FMap(0, 0, 0), DCleared(0)], 2, 5);
    var s3 := Step(s2, Publish(0));
    assert s3 == World(Page(Absent(0), 1), File(Some(1), None), [Held(Some(0), 2), Owned(None)],
        [Idle, FMap(0, 0, 0), DCleared(0)], 2, 4);
  }

  /** has its lock, */
  lemma MapBesideFirst(st: State)
    requires st == World(Page(Absent(0), 1), File(Some(1), None), [Held(Some(0), 2), Owned(None)],
        [Idle, FMap(0, 0, 0), DCleared(0)], 2, 4)
    ensures Leads(st, [Fault(0, 0), PeekPhys(0), EnterMap(0)],
                  World(Page(Absent(0), 1), File(Some(1), None), [Held(Some(0), 2), Held(None, 0)],
                      [FEntered(0, 0, 1), FMap(0, 0, 0), DCleared(0)], 2, 5))
  {
    var s1 := Step(st, Fault(0, 0));
    var s2 := Step(s1, PeekPhys(0));
    assert s2 == World(Page(Absent(0), 1), File(Some(1), None), [Held(Some(0), 2), Owned(None)],
        [FMap(0, 0, 1), FMap(0, 0, 0), DCleared(0)], 2, 5);
    var s3 := Step(s2, EnterMap(0));
    assert s3 == World(Page(Absent(0), 1), File(Some(1), None), [Held(Some(0), 2), Held(None, 0)],
        [FEntered(0, 0, 1), FMap(0, 0, 0), DCleared(0)], 2, 5);
  }

  /** and maps the page there. */
  lemma MapBesideRest(st: State)
    requires st == World(Page(Absent(0), 1), File(Some(1), None), [Held(Some(0), 2), Held(None, 0)],
        [FEntered(0, 0, 1), FMap(0, 0, 0), DCleared(0)], 2, 5)
    ensures Leads(st, [Commit(0), LeaveMap(0)],
                  World(Page(On(1), 1), File(Some(1), None), [Held(Some(0), 2), Owned(Some(0))],
                      [Idle, FMap(0, 0, 0), DCleared(0)], 3, 3))
  {
    var s1 := Step(st, Commit(0));
    assert s1 == World(Page(On(1), 2), File(Some(1), None), [Held(Some(0), 2), Held(Some(0), 0)],
        [FDone(0, 0, 1), FMap(0, 0, 0), DCleared(0)], 3, 4);
    var s2 := Step(s1, LeaveMap(0));
    assert s2 == World(Page(On(1), 1), File(Some(1), None), [Held(Some(0), 2), Owned(Some(0))],
        [Idle, FMap(0, 0, 0), DCleared(0)], 3, 3);
  }

  /** It releases the page, and is about to assert that it is busy once. */
  lemma ReleaseBeside(st: State)
    requires st == World(Page(On(1), 1), File(Some(1), None), [Held(Some(0), 2), Owned(Some(0))],
        [Idle, FMap(0, 0, 0), DCleared(0)], 3, 3)
    ensures Leads(st, [Release(0, 0), ReleaseEnter(0)],
                  World(Page(On(1), 2), File(Some(1), None), [Held(Some(0), 2), Held(Some(0), 0)],
                      [REntered(0, 0, 1), FMap(0, 0, 0), DCleared(0)], 4, 3))
    ensures BusyTwice(World(Page(On(1), 2), File(Some(1), None), [Held(Some(0), 2), Held(Some(0), 0)],
        [REntered(0, 0, 1), FMap(0, 0, 0), DCleared(0)], 4, 3), 0)
  {
    var s1 := Step(st, Release(0, 0));
    assert s1 == World(Page(On(1), 1), File(Some(1), None), [Held(Some(0), 2), Owned(Some(0))],
        [RHas(0, 0, 1), FMap(0, 0, 0), DCleared(0)], 4, 3);
    var s2 := Step(s1, ReleaseEnter(0));
    assert s2 == World(Page(On(1), 2), File(Some(1), None), [Held(Some(0), 2), Held(Some(0), 0)],
        [REntered(0, 0, 1), FMap(0, 0, 0), DCleared(0)], 4, 3);
  }

  /** The page has been mapped on its frame, and a discard has got as far as clearing the origin's way to it. */
  lemma DiscardUnderWay() returns (ops: seq<Op>)
    ensures Leads(Fresh(1, 2, 3), ops,
        World(Page(Absent(0), 1), File(None, None), [Held(Some(0), 2), FREE], [Idle, FMap(0, 0, 0), DCleared(0)], 2, 3))
  {
    hide *;
    var st0 := Fresh(1, 2, 3);
    LoadFirst(st0);
    var w1 := World(Page(Absent(0), 0), File(None, Some(0)), [FREE, FREE], [FLocked(0, 0), Idle, Idle], 1, 2);
    var ops1 := [Create(0, false, true), Fault(0, 0), PeekPhys(0), LockOrigin(0)];
    LoadRest(w1);
    var w2 := World(Page(Absent(0), 0), File(Some(0), None), [Owned(None), FREE], [Idle, Idle, Idle], 1, 2);
    LeadsOn(st0, ops1, w1, [AllocFrame(0, 0), Adopt(0), Publish(0)], w2);
    var ops2 := ops1 + [AllocFrame(0, 0), Adopt(0), Publish(0)];
    PeekEarly(w2);
    var w3 := World(Page(Absent(0), 0), File(Some(0), None), [Owned(None), FREE], [Idle, FMap(0, 0, 0), Idle], 1, 3);
    LeadsOn(st0, ops2, w2, [Fault(1, 0), PeekPhys(1)], w3);
    var ops3 := ops2 + [Fault(1, 0), PeekPhys(1)];
    MapFirst(w3);
    var w4 := World(Page(Absent(0), 0), File(Some(0), None), [Held(None, 0), FREE],
        [FEntered(0, 0, 0), FMap(0, 0, 0), Idle], 1, 4);
    LeadsOn(st0, ops3, w3, [Fault(0, 0), PeekPhys(0), EnterMap(0)], w4);
    var ops4 := ops3 + [Fault(0, 0), PeekPhys(0), EnterMap(0)];
    MapRest(w4);
    var w5 := World(Page(On(0), 0), File(Some(0), None), [Owned(Some(0)), FREE], [Idle, FMap(0, 0, 0), Idle], 2, 2);
    LeadsOn(st0, ops4, w4, [Commit(0), LeaveMap(0)], w5);
    var ops5 := ops4 + [Commit(0), LeaveMap(0)];
    DiscardFirst(w5);
    var w6 := World(Page(Absent(0), 1), File(Some(0), None), [Held(Some(0), 2), FREE],
        [Idle, FMap(0, 0, 0), DUnmapped(0)], 2, 3);
    LeadsOn(st0, ops5, w5, [DiscardEnter(2, 0), DiscardUnmap(2)], w6);
    var ops6 := ops5 + [DiscardEnter(2, 0), DiscardUnmap(2)];
    DiscardNext(w6);
    LeadsOn(st0, ops6, w6, [DiscardClear(2)],
        World(Page(Absent(0), 1), File(None, None), [Held(Some(0), 2), FREE], [Idle, FMap(0, 0, 0), DCleared(0)], 2,
            3));
    ops := ops6 + [DiscardClear(2)];
  }

  /** The second's commit goes through before the first has published the frame it loaded again. */
  lemma CommittedStale(w1: State, ops1: seq<Op>) returns (w3: State, ops3: seq<Op>)
    requires w1 == World(Page(Absent(0), 0), File(None, None), [FREE, FREE], [Idle, FMap(0, 0, 0), Idle], 1, 2)
    requires Leads(Fresh(1, 2, 3), ops1, w1)
    ensures w3 == World(Page(On(0), 0), File(None, Some(0)), [Owned(Some(0)), FREE], [FAdopted(0, 0, 0), Idle, Idle],
        2, 2)
    ensures Leads(Fresh(1, 2, 3), ops3, w3)
  {
    hide *;
    var st0 := Fresh(1, 2, 3);
    Reload(w1);
    var locked := World(Page(Absent(0), 0), File(None, Some(0)), [FREE, FREE], [FLocked(0, 0), FMap(0, 0, 0), Idle], 1,
        3);
    LeadsOn(st0, ops1, w1, [Fault(0, 0), PeekPhys(0), LockOrigin(0)], locked);
    ops3 := ops1 + [Fault(0, 0), PeekPhys(0), LockOrigin(0)];
    ReloadRest(locked);
    var w2 := World(Page(Absent(0), 0), File(None, Some(0)), [Owned(None), FREE],
        [FAdopted(0, 0, 0), FMap(0, 0, 0), Idle], 1, 4);
    LeadsOn(st0, ops3, locked, [AllocFrame(0, 0), Adopt(0)], w2);
    ops3 := ops3 + [AllocFrame(0, 0), Adopt(0)];
    CommitStale(w2);
    var done := World(Page(On(0), 1), File(None, Some(0)), [Held(Some(0), 1), FREE],
        [FAdopted(0, 0, 0), FDone(0, 0, 0), Idle], 2, 3);
    LeadsOn(st0, ops3, w2, [EnterMap(1), Commit(1)], done);
    ops3 := ops3 + [EnterMap(1), Commit(1)];
    LeaveStale(done);
    w3 := World(Page(On(0), 0), File(None, Some(0)), [Owned(Some(0)), FREE], [FAdopted(0, 0, 0), Idle, Idle], 2, 2);
    LeadsOn(st0, ops3, done, [LeaveMap(1)], w3);
    ops3 := ops3 + [LeaveMap(1)];
  }

  /** Between its two writes publication can be overtaken: a look from before the frame was last discarded lets a
      commit through, the next discard's assertion fails, and without it the origin is left naming a free frame. */
  lemma PublicationOvertaken()
    ensures exists ops, st: State :: Leads(Fresh(1, 2, 3), ops, st) && OriginLost(st, 2)
    ensures exists ops, st: State :: Leads(Fresh(1, 2, 3), ops, st) && Dangling(st, 0)
  {
    hide *;
    var st0 := Fresh(1, 2, 3);
    var ops0 := DiscardUnderWay();
    var w0 := World(Page(Absent(0), 1), File(None, None), [Held(Some(0), 2), FREE], [Idle, FMap(0, 0, 0), DCleared(0)],
        2, 3);
    DiscardRest(w0);
    var w1 := World(Page(Absent(0), 0), File(None, None), [FREE, FREE], [Idle, FMap(0, 0, 0), Idle], 1, 2);
    LeadsOn(st0, ops0, w0, [DiscardLeave(2), DiscardFree(2)], w1);
    var ops1 := ops0 + [DiscardLeave(2), DiscardFree(2)];
    var w3, ops3 := CommittedStale(w1, ops1);
    DiscardAgain(w3);
    var w4 := World(Page(Absent(0), 1), File(None, Some(0)), [Held(Some(0), 2), FREE],
        [FAdopted(0, 0, 0), Idle, DUnmapped(0)], 2, 3);
    LeadsOn(st0, ops3, w3, [DiscardEnter(2, 0), DiscardUnmap(2)], w4);
    var ops4 := ops3 + [DiscardEnter(2, 0), DiscardUnmap(2)];
    assert Leads(Fresh(1, 2, 3), ops4, w4) && OriginLost(w4, 2);
    DiscardLost(w4);
    var lost := World(Page(Absent(0), 0), File(None, Some(0)), [Listed(0, 2), FREE],
        [FAdopted(0, 0, 0), Idle, DLeft(0)], 2, 3);
    LeadsOn(st0, ops4, w4, [DiscardClear(2), DiscardLeave(2)], lost);
    PublishLate(lost);
    var last := World(Page(Absent(0), 0), File(Some(0), None), [FREE, FREE], [Idle, Idle, Idle], 1, 1);
    LeadsOn(st0, ops4 + [DiscardClear(2), DiscardLeave(2)], lost, [DiscardFree(2), Publish(0)], last);
    assert Leads(Fresh(1, 2, 3), ops4 + [DiscardClear(2), DiscardLeave(2)] + [DiscardFree(2), Publish(0)], last)
        && Dangling(last, 0);
  }

  /** A page refaulted onto a new frame while its old one is still held is busy twice when it is released. */
  lemma ReleaseFindsBusy()
    ensures exists ops, st: State :: Leads(Fresh(1, 2, 3), ops, st) && BusyTwice(st, 0)
  {
    hide *;
    var st0 := Fresh(1, 2, 3);
    var ops0 := DiscardUnderWay();
    var w0 := World(Page(Absent(0), 1), File(None, None), [Held(Some(0), 2), FREE], [Idle, FMap(0, 0, 0), DCleared(0)],
        2, 3);
    ReloadBeside(w0);
    var w1 := World(Page(Absent(0), 1), File(None, Some(0)), [Held(Some(0), 2), FREE],
        [FLocked(0, 0), FMap(0, 0, 0), DCleared(0)], 2, 4);
    LeadsOn(st0, ops0, w0, [Fault(0, 0), PeekPhys(0), LockOrigin(0)], w1);
    var ops1 := ops0 + [Fault(0, 0), PeekPhys(0), LockOrigin(0)];
    PublishBeside(w1);
    var w2 := World(Page(Absent(0), 1), File(Some(1), None), [Held(Some(0), 2), Owned(None)],
        [Idle, FMap(0, 0, 0), DCleared(0)], 2, 4);
    LeadsOn(st0, ops1, w1, [AllocFrame(0, 1), Adopt(0), Publish(0)], w2);
    var ops2 := ops1 + [AllocFrame(0, 1), Adopt(0), Publish(0)];
    MapBesideFirst(w2);
    var w3 := World(Page(Absent(0), 1), File(Some(1), None), [Held(Some(0), 2), Held(None, 0)],
        [FEntered(0, 0, 1), FMap(0, 0, 0), DCleared(0)], 2, 5);
    LeadsOn(st0, ops2, w2, [Fault(0, 0), PeekPhys(0), EnterMap(0)], w3);
    var ops3 := ops2 + [Fault(0, 0), PeekPhys(0), EnterMap(0)];
    MapBesideRest(w3);
    var w4 := World(Page(On(1), 1), File(Some(1), None), [Held(Some(0), 2), Owned(Some(0))],
        [Idle, FMap(0, 0, 0), DCleared(0)], 3, 3);
    LeadsOn(st0, ops3, w3, [Commit(0), LeaveMap(0)], w4);
    var ops4 := ops3 + [Commit(0), LeaveMap(0)];
    ReleaseBeside(w4);
    var w5 := World(Page(On(1), 2), File(Some(1), None), [Held(Some(0), 2), Held(Some(0), 0)],
        [REntered(0, 0, 1), FMap(0, 0, 0), DCleared(0)], 4, 3);
    LeadsOn(st0, ops4, w4, [Release(0, 0), ReleaseEnter(0)], w5);
    var ops5 := ops4 + [Release(0, 0), ReleaseEnter(0)];
    assert Leads(Fresh(1, 2, 3), ops5, w5) && BusyTwice(w5, 0);
  }
}
