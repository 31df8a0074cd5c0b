/** What a thread gets done if nobody comes between: faults bring pages in, and pins wire them. */
module VmmServes {
  import opened VmmStates
  import opened VmmRefs
  import opened VmmKeeps
  import opened VmmRuns
  import opened VmmFacts
  import opened VmmRaces

  /** The page of the slot waits for its origin, which is no fixed address; and the actor is free to handle a fault. */
  predicate Faulting(st: State, a: nat, s: nat, v: nat, o: nat) {
    && a < |st.actors| && st.actors[a].Idle? && Names(st, s, v) && st.vps[v].place == Absent(o)
    && o < |st.origins| && !st.origins[o].fixed
  }

  /** The step can be taken, and leads there. */
  predicate Takes(st: State, op: Op, st': State) {
    Allowed(st, op) && Step(st, op) == st'
  }

  lemma RunOfOne(st: State, op: Op, st': State)
    requires Takes(st, op, st')
    ensures CanRun(st, [op]) && After(st, [op]) == st'
  {
    hide Allowed, Step;
    assert [op][1..] == [];
  }

  lemma OneMore(st: State, op: Op, st1: State, ops: seq<Op>, st': State)
    requires Takes(st, op, st1) && CanRun(st1, ops) && After(st1, ops) == st'
    ensures CanRun(st, [op] + ops) && After(st, [op] + ops) == st'
  {
    hide Allowed, Step;
    assert ([op] + ops)[0] == op && ([op] + ops)[1..] == ops;
  }

  lemma RunOfThree(st: State, op1: Op, st1: State, op2: Op, st2: State, op3: Op, st': State)
    requires Takes(st, op1, st1) && Takes(st1, op2, st2) && Takes(st2, op3, st')
    ensures CanRun(st, [op1, op2, op3]) && After(st, [op1, op2, op3]) == st'
  {
    hide *;
    RunOfOne(st2, op3, st');
    OneMore(st1, op2, st2, [op3], st');
    OneMore(st, op1, st1, [op2] + [op3], st');
    assert [op1] + ([op2] + [op3]) == [op1, op2, op3];
  }

  lemma RunOfFour(st: State, op1: Op, st1: State, op2: Op, st2: State, op3: Op, st3: State, op4: Op, st': State)
    requires Takes(st, op1, st1) && Takes(st1, op2, st2) && Takes(st2, op3, st3) && Takes(st3, op4, st')
    ensures CanRun(st, [op1, op2, op3, op4]) && After(st, [op1, op2, op3, op4]) == st'
  {
    hide *;
    RunOfThree(st1, op2, st2, op3, st3, op4, st');
    OneMore(st, op1, st1, [op2, op3, op4], st');
    assert [op1] + [op2, op3, op4] == [op1, op2, op3, op4];
  }

  /** The first two steps of a fault. */
  lemma Looks(st: State, a: nat, s: nat, v: nat, o: nat)
    requires Faulting(st, a, s, v, o)
    ensures Allowed(st, Fault(a, s)) && Allowed(Step(st, Fault(a, s)), PeekPhys(a))
    ensures var st' := Step(Step(st, Fault(a, s)), PeekPhys(a));
            && st'.slots == st.slots && st'.vps == st.vps && st'.origins == st.origins && st'.frames == st.frames
            && |st'.actors| == |st.actors|
            && st'.actors[a] == if st.origins[o].phys == None then FLoad(s, o) else FMap(s, o, st.origins[o].phys.id)
  {
  }

  /** The frame is clean, not wired, and its origin's, as it knows. */
  predicate Loaded(st: State, o: nat, f: nat) {
    && o < |st.origins| && st.origins[o].phys == Some(f) && st.origins[o].mutex == None
    && f < |st.frames| && st.frames[f].taken && st.frames[f].origin == Some(o) && st.frames[f].lock == None
    && !st.frames[f].dirty && st.frames[f].wired == 0
  }

  /** Nothing is different but the frame, the origin and what is counted; the actor is at this place. */
  predicate Aside(st: State, st': State, a: nat, p: Phase) {
    && st'.slots == st.slots && st'.vps == st.vps && |st'.actors| == |st.actors| && |st'.frames| == |st.frames|
    && |st'.origins| == |st.origins| && a < |st'.actors| && st'.actors[a] == p
  }

  lemma LoadsFrame(st: State, a: nat, s: nat, o: nat, f: nat) returns (s1: State, s2: State)
    requires a < |st.actors| && st.actors[a] == FLoad(s, o) && o < |st.origins| && f < |st.frames|
    requires st.origins[o].phys == None && st.origins[o].mutex == None
    requires !st.frames[f].taken && st.frames[f].lock == None
    ensures Takes(st, LockOrigin(a), s1) && Takes(s1, AllocFrame(a, f), s2) && Aside(st, s2, a, FFrame(s, o, f))
    ensures s2.frames[f].taken && s2.frames[f].lock == None && s2.origins[o].fixed == st.origins[o].fixed
  {
    s1 := Step(st, LockOrigin(a));
    s2 := Step(s1, AllocFrame(a, f));
  }

  lemma GivesFrame(st: State, a: nat, s: nat, o: nat, f: nat) returns (s1: State, s2: State)
    requires a < |st.actors| && st.actors[a] == FFrame(s, o, f) && o < |st.origins| && f < |st.frames|
    requires st.frames[f].taken && st.frames[f].lock == None
    ensures Takes(st, Adopt(a), s1) && Takes(s1, Publish(a), s2) && Aside(st, s2, a, Idle)
    ensures Loaded(s2, o, f) && s2.origins[o].fixed == st.origins[o].fixed
  {
    s1 := Step(st, Adopt(a));
    s2 := Step(s1, Publish(a));
  }

  lemma Loads(st: State, a: nat, s: nat, o: nat, f: nat)
    requires a < |st.actors| && st.actors[a] == FLoad(s, o) && o < |st.origins| && f < |st.frames|
    requires st.origins[o].phys == None && st.origins[o].mutex == None
    requires !st.frames[f].taken && st.frames[f].lock == None
    ensures var ops := [LockOrigin(a), AllocFrame(a, f), Adopt(a), Publish(a)];
            CanRun(st, ops) &&
            var st' := After(st, ops);
            Aside(st, st', a, Idle) && Loaded(st', o, f) && st'.origins[o].fixed == st.origins[o].fixed
  {
    hide Allowed, Step;
    var s1, s2 := LoadsFrame(st, a, s, o, f);
    var s3, s4 := GivesFrame(s2, a, s, o, f);
    hide Takes;
    RunOfFour(st, LockOrigin(a), s1, AllocFrame(a, f), s2, Adopt(a), s3, Publish(a), s4);
  }

  lemma MapsPage(st: State, a: nat, s: nat, v: nat, o: nat, f: nat) returns (s1: State, s2: State)
    requires a < |st.actors| && st.actors[a] == FMap(s, o, f) && Names(st, s, v) && st.vps[v].place == Absent(o)
    requires f < |st.frames| && st.frames[f].origin == Some(o) && st.frames[f].lock == None
    ensures Takes(st, EnterMap(a), s1) && Takes(s1, Commit(a), s2)
    ensures |s2.actors| == |st.actors| && s2.actors[a] == FDone(s, o, f) && s2.slots == st.slots
        && f < |s2.frames| && s2.frames[f] == st.frames[f].(lock := Some(a), covered := true, user := Some(v))
        && v < |s2.vps| && s2.vps[v].place == On(f)
  {
    s1 := Step(st, EnterMap(a));
    s2 := Step(s1, Commit(a));
  }

  lemma MapsLeaves(st: State, a: nat, s: nat, v: nat, o: nat, f: nat) returns (s1: State)
    requires a < |st.actors| && st.actors[a] == FDone(s, o, f) && v < |st.vps| && st.vps[v].place == On(f)
    requires f < |st.frames| && st.frames[f].user == Some(v)
    ensures Takes(st, LeaveMap(a), s1) && |s1.actors| == |st.actors| && s1.actors[a] == Idle && s1.slots == st.slots
        && f < |s1.frames| && s1.frames[f] == st.frames[f].(lock := None, covered := false)
        && v < |s1.vps| && s1.vps[v].place == On(f)
  {
    s1 := Step(st, LeaveMap(a));
  }

  lemma Maps(st: State, a: nat, s: nat, v: nat, o: nat, f: nat)
    requires a < |st.actors| && st.actors[a] == FMap(s, o, f) && Names(st, s, v) && st.vps[v].place == Absent(o)
    requires f < |st.frames| && st.frames[f].origin == Some(o) && st.frames[f].lock == None
    ensures var ops := [EnterMap(a), Commit(a), LeaveMap(a)];
            CanRun(st, ops) &&
            var st' := After(st, ops);
            && |st'.actors| == |st.actors| && st'.actors[a].Idle?
            && Names(st', s, v) && PageOn(st', f)
            && st'.frames[f] == st.frames[f].(lock := None, covered := false, user := Some(v))
  {
    hide Allowed, Step;
    var s1, s2 := MapsPage(st, a, s, v, o, f);
    var s3 := MapsLeaves(s2, a, s, v, o, f);
    hide Takes;
    RunOfThree(st, EnterMap(a), s1, Commit(a), s2, LeaveMap(a), s3);
  }

  // ---- What a thread gets done ----

  lemma LooksRun(st: State, a: nat, s: nat, v: nat, o: nat) returns (st': State)
    requires Faulting(st, a, s, v, o)
    ensures CanRun(st, [Fault(a, s), PeekPhys(a)]) && After(st, [Fault(a, s), PeekPhys(a)]) == st'
    ensures Names(st', s, v) && st'.vps == st.vps && st'.origins == st.origins && st'.frames == st.frames
    ensures a < |st'.actors|
        && st'.actors[a] == if st.origins[o].phys == None then FLoad(s, o) else FMap(s, o, st.origins[o].phys.id)
  {
    Looks(st, a, s, v, o);
    hide Allowed, Step;
    var s1 := Step(st, Fault(a, s));
    st' := Step(s1, PeekPhys(a));
    RunOfOne(s1, PeekPhys(a), st');
    OneMore(st, Fault(a, s), s1, [PeekPhys(a)], st');
    assert [Fault(a, s)] + [PeekPhys(a)] == [Fault(a, s), PeekPhys(a)];
  }

  /** A fault on a page whose origin names no frame yet loads one, be it any that is free; the page itself is left for
      the fault that follows. */
  lemma FaultLoads(st: State, a: nat, s: nat, v: nat, o: nat, f: nat)
    requires Faulting(st, a, s, v, o) && st.origins[o].phys == None && st.origins[o].mutex == None
    requires f < |st.frames| && !st.frames[f].taken && st.frames[f].lock == None
    ensures var ops := [Fault(a, s), PeekPhys(a)] + [LockOrigin(a), AllocFrame(a, f), Adopt(a), Publish(a)];
            CanRun(st, ops) && Loaded(After(st, ops), o, f) && Faulting(After(st, ops), a, s, v, o)
  {
    hide Allowed, Step;
    var st1 := LooksRun(st, a, s, v, o);
    Loads(st1, a, s, o, f);
    var ops := [LockOrigin(a), AllocFrame(a, f), Adopt(a), Publish(a)];
    LeadsOn(st, [Fault(a, s), PeekPhys(a)], st1, ops, After(st1, ops));
  }

  /** A fault on a page whose origin names a frame puts the page on that frame, of which nothing else changes: not what
      is on it, nor whether it is dirty. */
  lemma FaultMaps(st: State, a: nat, s: nat, v: nat, o: nat, f: nat)
    requires Faulting(st, a, s, v, o) && st.origins[o].phys == Some(f)
    requires f < |st.frames| && st.frames[f].origin == Some(o) && st.frames[f].lock == None
    ensures var ops := [Fault(a, s), PeekPhys(a)] + [EnterMap(a), Commit(a), LeaveMap(a)];
            CanRun(st, ops) &&
            var st' := After(st, ops);
            && Names(st', s, v) && PageOn(st', f)
            && st'.frames[f] == st.frames[f].(user := Some(v), lock := None, covered := false)
  {
    hide Allowed, Step;
    var st1 := LooksRun(st, a, s, v, o);
    Maps(st1, a, s, v, o, f);
    var ops := [EnterMap(a), Commit(a), LeaveMap(a)];
    LeadsOn(st, [Fault(a, s), PeekPhys(a)], st1, ops, After(st1, ops));
  }

  /** Wherever a page waits, two faults of one thread bring it in on any free frame, if nobody comes between. */
  lemma FaultServed(st: State, a: nat, s: nat, v: nat, o: nat, f: nat)
    requires Faulting(st, a, s, v, o) && st.origins[o].phys == None && st.origins[o].mutex == None
    requires f < |st.frames| && !st.frames[f].taken && st.frames[f].lock == None
    ensures var ops := [Fault(a, s), PeekPhys(a)] + [LockOrigin(a), AllocFrame(a, f), Adopt(a), Publish(a)]
                       + ([Fault(a, s), PeekPhys(a)] + [EnterMap(a), Commit(a), LeaveMap(a)]);
            CanRun(st, ops) &&
            var st' := After(st, ops);
            && Names(st', s, v) && PageOn(st', f) && st'.frames[f].user == Some(v) && st'.frames[f].origin == Some(o)
            && !st'.frames[f].dirty && st'.frames[f].wired == 0 && st'.frames[f].lock == None
  {
    hide Allowed, Step, CanRun, After;
    var ops := [Fault(a, s), PeekPhys(a)] + [LockOrigin(a), AllocFrame(a, f), Adopt(a), Publish(a)];
    FaultLoads(st, a, s, v, o, f);
    var st1 := After(st, ops);
    FaultMaps(st1, a, s, v, o, f);
    var more := [Fault(a, s), PeekPhys(a)] + [EnterMap(a), Commit(a), LeaveMap(a)];
    LeadsOn(st, ops, st1, more, After(st1, more));
  }

  /** A page in a slot is counted, by the slot if by nobody else. */
  lemma NamedCounted(st: State, s: nat, v: nat)
    requires Inv(st) && Names(st, s, v)
    ensures v < |st.vpRefs| && st.vpRefs[v] > 0
  {
    assert Even(st, v);
    SumAtLeast(SlotW(st.slots, v), s);
  }

  lemma PinLooks(st: State, a: nat, s: nat, v: nat, f: nat) returns (s1: State)
    requires a < |st.actors| && st.actors[a].Idle? && Names(st, s, v) && st.vps[v].busy == 0
    requires st.vps[v].place == On(f) && v < |st.vpRefs|
    ensures Takes(st, Wire(a, s), s1)
    ensures s1 == st.(actors := st.actors[a := WHas(s, v, f)], vpRefs := st.vpRefs[v := st.vpRefs[v] + 1])
  {
    s1 := Step(st, Wire(a, s));
  }

  lemma PinWires(st: State, s1: State, a: nat, s: nat, v: nat, f: nat) returns (st': State)
    requires a < |st.actors| && st.actors[a].Idle? && Names(st, s, v) && st.vps[v].place == On(f)
    requires f < |st.frames| && st.frames[f].lock == None && v < |st.vpRefs| && st.vpRefs[v] > 0
    requires s1 == st.(actors := st.actors[a := WHas(s, v, f)], vpRefs := st.vpRefs[v := st.vpRefs[v] + 1])
    ensures Takes(s1, WireFrame(a), st')
    ensures st' == st.(frames := st.frames[f := st.frames[f].(wired := st.frames[f].wired + 1)])
  {
    st' := Step(s1, WireFrame(a));
    assert st'.actors == st.actors && st'.vpRefs == st.vpRefs;
  }

  /** A page that is in and not busy can be pinned: its frame is wired once more, and that is all. */
  lemma PinTaken(st: State, a: nat, s: nat, v: nat, f: nat)
    requires Inv(st) && a < |st.actors| && st.actors[a].Idle? && Names(st, s, v) && st.vps[v].busy == 0
    requires st.vps[v].place == On(f) && f < |st.frames| && st.frames[f].lock == None
    ensures CanRun(st, [Wire(a, s)] + [WireFrame(a)])
    ensures After(st, [Wire(a, s)] + [WireFrame(a)]) ==
        st.(frames := st.frames[f := st.frames[f].(wired := st.frames[f].wired + 1)])
  {
    NamedCounted(st, s, v);
    hide *;
    var s1 := PinLooks(st, a, s, v, f);
    var st' := PinWires(st, s1, a, s, v, f);
    RunOfOne(s1, WireFrame(a), st');
    OneMore(st, Wire(a, s), s1, [WireFrame(a)], st');
  }
}
