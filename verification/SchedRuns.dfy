/** Whole runs of the scheduler: no thread is lost or run twice, and no wake-up is missed. */
module SchedRuns {
  import opened Sequences
  import opened SchedStates

  // ---- Each step ----

  /** Queueing keeps the queue a queue. */
  lemma EnqueueQueue(st: State, t: nat)
    requires QueueSane(st) && t < |st.threads| && t !in st.ready
    ensures QueueSane(Enqueue(st, t))
    ensures forall x :: x in Enqueue(st, t).ready <==> x in st.ready || x == t
  {
    DistinctSnoc(st.ready, t);
    hide Distinct;
  }

  /** Running the first thread that may run here, when the current thread is queued, or has stopped. */
  lemma NextKeeps(st: State)
    requires QueueSane(st) && AllPlaced(st) && st.current < |st.threads| && st.threads[st.current].here
    requires st.threads[st.current].status != Running && !st.threads[st.current].idling
    requires !st.postponed && st.held == Nil
    ensures Inv(SwitchToNext(st))
    ensures SwitchToNext(st).threads[SwitchToNext(st).current].idling ==> st.threads[st.current].status == Stopped
  {
    hide Distinct;
    assert Placed(st, st.current);
    var k := FirstHere(st.threads, st.ready);
    if k < |st.ready| {
      var x := st.ready[k];
      DistinctWithout(st.ready, k);
      hide Without;
      assert Placed(st, x);
      forall t | 0 <= t < |st.threads|
        ensures Placed(SwitchToNext(st), t)
      {
        assert Placed(st, t);
      }
    } else {
      forall t | 0 <= t < |st.threads|
        ensures Placed(SwitchToNext(st), t)
      {
        assert Placed(st, t);
      }
    }
  }

  /** The running thread goes to the back of the queue. */
  lemma YieldKeeps(st: State)
    requires QueueSane(st) && AllPlaced(st) && st.current < |st.threads| && st.threads[st.current].status == Running
    ensures QueueSane(Enqueue(st, st.current)) && AllPlaced(Enqueue(st, st.current))
  {
    hide Distinct;
    assert Placed(st, st.current);
    EnqueueQueue(st, st.current);
    var st' := Enqueue(st, st.current);
    forall t | 0 <= t < |st'.threads|
      ensures Placed(st', t)
    {
      assert Placed(st, t);
    }
  }

  /** Running a thread that is nowhere: it was held, and is no longer. */
  lemma RunKeeps(st: State, t: nat)
    requires QueueSane(st) && st.current < |st.threads| && t < |st.threads| && st.threads[t].here
    requires t !in st.ready && t != st.current && !st.threads[t].idling
    requires st.threads[st.current].status != Running && !st.threads[st.current].idling
    requires !st.postponed && st.held == Nil
    requires forall x :: 0 <= x < |st.threads| && x != t ==> Placed(st, x)
    ensures Inv(RunNow(st, t))
  {
    hide Distinct;
    var st' := RunNow(st, t);
    forall x | 0 <= x < |st'.threads|
      ensures Placed(st', x)
    {
      if x != t { assert Placed(st, x); }
    }
  }

  /** Switching away, with nothing held. */
  lemma SwitchNilKeeps(st: State)
    requires QueueSane(st) && AllPlaced(st) && st.current < |st.threads| && st.threads[st.current].here
    requires !st.threads[st.current].idling && !st.postponed && st.held == Nil
    ensures Inv(SwitchStep(st, Nil))
  {
    hide Distinct;
    if st.threads[st.current].status == Running && st.ready == [] {
    } else if st.threads[st.current].status == Running {
      YieldKeeps(st);
      NextKeeps(Enqueue(st, st.current));
    } else {
      NextKeeps(st);
    }
  }

  /** Switching to the held thread. */
  lemma SwitchHeldKeeps(st: State)
    requires Inv(st) && st.held.To? && !st.threads[st.current].idling
    ensures Inv(SwitchStep(st.(postponed := false, held := Nil, prevent := 0), st.held))
  {
    var t := st.held.thr;
    assert Placed(st, t) && Placed(st, st.current);
    var st0 := st.(postponed := false, held := Nil, prevent := 0);
    hide Distinct;
    if st.threads[st.current].status == Running {
      EnqueueQueue(st0, st.current);
      var st1 := Enqueue(st0, st.current);
      forall x | 0 <= x < |st1.threads| && x != t
        ensures Placed(st1, x)
      {
        assert Placed(st, x);
      }
      RunKeeps(st1, t);
    } else {
      forall x | 0 <= x < |st0.threads| && x != t
        ensures Placed(st0, x)
      {
        assert Placed(st, x);
      }
      RunKeeps(st0, t);
    }
  }

  lemma SamePlaces(st: State, st': State)
    requires st'.threads == st.threads && st'.ready == st.ready && st'.current == st.current && st'.held == st.held
    requires AllPlaced(st)
    ensures AllPlaced(st')
  {
    forall t | 0 <= t < |st'.threads|
      ensures Placed(st', t)
    {
      assert Placed(st, t);
    }
  }

  lemma ReleaseKeeps(st: State)
    requires Inv(st) && st.prevent > 0
    ensures Inv(ReleaseStep(st))
  {
    hide Distinct;
    var st1 := st.(prevent := st.prevent - 1);
    if st1.prevent == 0 && st1.postponed {
      if st.threads[st.current].idling {
        SamePlaces(st, ReleaseStep(st));
      } else if st.held == Nil {
        SamePlaces(st, st1.(postponed := false));
        hide Placed;
        SwitchNilKeeps(st1.(postponed := false));
      } else {
        SwitchHeldKeeps(st);
      }
    } else {
      SamePlaces(st, st1);
    }
  }

  lemma AcquireKeeps(st: State)
    requires Inv(st)
    ensures Inv(AcquireStep(st))
  {
    hide Distinct;
    SamePlaces(st, AcquireStep(st));
  }

  lemma ScheduleKeeps(st: State)
    requires Inv(st)
    ensures Inv(ScheduleStep(st))
  {
    var st1 := AcquireStep(st).(postponed := true);
    SamePlaces(st, st1);
    hide Distinct, Placed;
    ReleaseKeeps(st1);
  }

  lemma BlockKeeps(st: State)
    requires Inv(st) && st.prevent > 0 && st.threads[st.current].status != Ready
    ensures Inv(BlockStep(st))
  {
    hide Distinct;
    var st' := BlockStep(st);
    forall t | 0 <= t < |st'.threads|
      ensures Placed(st', t)
    {
      assert Placed(st, t);
    }
  }

  /** A woken thread is queued, or held to preempt, or resumed by the CPU parked on it. */
  lemma UnblockKeeps(st: State, t: nat)
    requires Inv(st) && st.prevent > 0 && t < |st.threads| && st.threads[t].status == Stopped
    ensures Inv(UnblockStep(st, t))
  {
    hide Distinct;
    assert Placed(st, t) && Placed(st, st.current);
    var st1 := st.(threads := SetStatus(st.threads, t, Ready), pokes := st.pokes + 1);
    if st1.threads[t].idling {
      forall x | 0 <= x < |st1.threads|
        ensures Placed(st1, x)
      {
        assert Placed(st, x);
      }
    } else if !ShouldPreempt(st1, t) {
      UnblockQueued(st, st1, t);
    } else {
      PreemptKeeps(st, st1.(postponed := true), t);
    }
  }

  lemma UnblockQueued(st: State, st1: State, t: nat)
    requires Inv(st) && t < |st.threads| && st.threads[t].status == Stopped && !st.threads[t].idling
    requires st1 == st.(threads := SetStatus(st.threads, t, Ready), pokes := st.pokes + 1, postponed := st1.postponed)
    requires st.postponed ==> st1.postponed
    requires st1.postponed ==> st.prevent > 0
    ensures Inv(Enqueue(st1, t))
  {
    hide Distinct;
    assert Placed(st, t);
    EnqueueQueue(st1, t);
    var st' := Enqueue(st1, t);
    forall x | 0 <= x < |st'.threads|
      ensures Placed(st', x)
    {
      assert Placed(st, x);
    }
  }

  lemma PreemptKeeps(st: State, st1: State, t: nat)
    requires Inv(st) && st.prevent > 0 && t < |st.threads| && st.threads[t].status == Stopped && !st.threads[t].idling
    requires st1 == st.(threads := SetStatus(st.threads, t, Ready), pokes := st.pokes + 1, postponed := true)
    requires st.threads[st.current].status == Running && st.threads[t].here
    ensures var st' := if st1.held == Nil then st1.(held := To(t))
                       else if st1.threads[t].priority < st1.threads[st1.held.thr].priority
                            then Enqueue(st1, st1.held.thr).(held := To(t))
                       else Enqueue(st1, t);
            Inv(st')
  {
    hide Distinct;
    assert Placed(st, t) && Placed(st, st.current);
    if st1.held == Nil {
      var st' := st1.(held := To(t));
      forall x | 0 <= x < |st'.threads|
        ensures Placed(st', x)
      {
        assert Placed(st, x);
      }
    } else if st1.threads[t].priority < st1.threads[st1.held.thr].priority {
      var h := st1.held.thr;
      assert Placed(st, h);
      EnqueueQueue(st1, h);
      var st' := Enqueue(st1, h).(held := To(t));
      forall x | 0 <= x < |st'.threads|
        ensures Placed(st', x)
      {
        assert Placed(st, x);
      }
    } else {
      UnblockQueued(st, st1, t);
    }
  }

  lemma IdleKeeps(st: State)
    requires Inv(st) && st.prevent == 0 && st.threads[st.current].idling
    ensures Inv(IdleStep(st))
  {
    hide Distinct;
    assert Placed(st, st.current);
    if st.threads[st.current].status == Ready {
      var st' := IdleStep(st);
      forall x | 0 <= x < |st'.threads|
        ensures Placed(st', x)
      {
        assert Placed(st, x);
      }
    } else {
      var k := FirstHere(st.threads, st.ready);
      if k < |st.ready| {
        DistinctWithout(st.ready, k);
        hide Without;
        assert Placed(st, st.ready[k]);
        var st' := IdleStep(st);
        forall x | 0 <= x < |st'.threads|
          ensures Placed(st', x)
        {
          assert Placed(st, x);
        }
      } else {
        SamePlaces(st, IdleStep(st));
      }
    }
  }

  lemma SpawnKeeps(st: State, priority: nat, here: bool)
    requires Inv(st)
    ensures Inv(SpawnStep(st, priority, here))
  {
    hide Distinct;
    var st' := SpawnStep(st, priority, here);
    forall x | 0 <= x < |st'.threads|
      ensures Placed(st', x)
    {
      if x < |st.threads| { assert Placed(st, x); }
    }
    forall i | 0 <= i < |st.ready|
      ensures Here(st'.threads, st.ready[i]) <==> Here(st.threads, st.ready[i])
    {
    }
  }

  lemma PriorityKeeps(st: State, t: nat, priority: nat)
    requires Inv(st) && t < |st.threads|
    ensures Inv(PriorityStep(st, t, priority))
  {
    hide Distinct;
    var st' := PriorityStep(st, t, priority);
    forall x | 0 <= x < |st'.threads|
      ensures Placed(st', x)
    {
      assert Placed(st, x);
    }
    forall i | 0 <= i < |st.ready|
      ensures Here(st'.threads, st.ready[i]) <==> Here(st.threads, st.ready[i])
    {
    }
  }

  // ---- Runs ----

  datatype Op =
    | AcquireLock
    | ReleaseLock
    | BlockCurrent
    | Yield
    | Unblock(thr: nat)
    | IdleTurn
    | Spawn(priority: nat, here: bool)
    | SetPriority(thr: nat, priority: nat)

  /** What may happen when: unblocking and blocking need the lock, only stopped threads are unblocked, and the idle
      loop turns only once something was unblocked. */
  predicate Allowed(st: State, op: Op) {
    st.current < |st.threads| && (st.held.To? ==> st.held.thr < |st.threads|) &&
    match op
    case AcquireLock => true
    case ReleaseLock => st.prevent > 0
    case BlockCurrent => st.prevent > 0
    case Yield => true
    case Unblock(t) => st.prevent > 0 && t < |st.threads| && st.threads[t].status == Stopped
    case IdleTurn => st.prevent == 0 && st.threads[st.current].idling && st.pokes != st.ogSeq
    case Spawn(_, _) => true
    case SetPriority(t, _) => t < |st.threads|
  }

  function Step(st: State, op: Op): State
    requires Allowed(st, op)
  {
    match op
    case AcquireLock => AcquireStep(st)
    case ReleaseLock => ReleaseStep(st)
    case BlockCurrent => BlockStep(st)
    case Yield => ScheduleStep(st)
    case Unblock(t) => UnblockStep(st, t)
    case IdleTurn => IdleStep(st)
    case Spawn(priority, here) => SpawnStep(st, priority, here)
    case SetPriority(t, priority) => PriorityStep(st, t, priority)
  }

  /** The current thread is stopped though it is ready: it was woken under the lock and has not been switched away
      from since. */
  predicate BlocksReady(st: State, op: Op)
    requires Allowed(st, op)
  {
    op.BlockCurrent? && st.threads[st.current].status == Ready
  }

  lemma StepKeeps(st: State, op: Op)
    requires Inv(st) && Allowed(st, op) && !BlocksReady(st, op)
    ensures Inv(Step(st, op))
  {
    hide Inv, ReleaseStep, UnblockStep, ScheduleStep, IdleStep, BlockStep;
    InvCurrent(st);
    match op
    case AcquireLock => AcquireKeeps(st);
    case ReleaseLock => ReleaseKeeps(st);
    case BlockCurrent => BlockKeeps(st);
    case Yield => ScheduleKeeps(st);
    case Unblock(t) => UnblockKeeps(st, t);
    case IdleTurn => IdleKeeps(st);
    case Spawn(priority, here) => SpawnKeeps(st, priority, here);
    case SetPriority(t, priority) => PriorityKeeps(st, t, priority);
  }

  lemma InvCurrent(st: State)
    requires Inv(st)
    ensures st.current < |st.threads| && (st.held.To? ==> st.held.thr < |st.threads|)
  {
  }

  /** A woken thread is not stopped again before it has run. */
  ghost predicate WakesKept(st: State, st': State) {
    forall t :: 0 <= t < |st.threads| && st.threads[t].status == Ready ==>
        t < |st'.threads| && st'.threads[t].status != Stopped
  }

  lemma SwitchWakes(st: State, thr: Link)
    requires st.current < |st.threads| && (thr.To? ==> thr.thr < |st.threads|)
    ensures WakesKept(st, SwitchStep(st, thr))
  {
  }

  lemma StepWakes(st: State, op: Op)
    requires Allowed(st, op) && !BlocksReady(st, op)
    ensures WakesKept(st, Step(st, op))
  {
    hide SwitchStep;
    match op
    case ReleaseLock =>
      SwitchWakes(st.(prevent := st.prevent - 1, postponed := false, held := Nil), st.held);
    case Yield =>
      SwitchWakes(AcquireStep(st).(prevent := st.prevent, postponed := false, held := Nil), st.held);
    case _ =>
  }

  /** Blocking keeps the queues and every wake-up exactly if the current thread is not ready. */
  lemma StepKeepsIff(st: State, op: Op)
    requires Inv(st) && Allowed(st, op)
    ensures Inv(Step(st, op)) && WakesKept(st, Step(st, op)) <==> !BlocksReady(st, op)
  {
    if !BlocksReady(st, op) {
      StepKeeps(st, op);
      StepWakes(st, op);
    }
  }

  /** A current thread that is ready is queued; stopping it then leaves a stopped thread on the queue. */
  lemma BlockKeepsIff(st: State)
    requires Inv(st) && st.prevent > 0 && !st.threads[st.current].idling
    ensures Inv(BlockStep(st)) <==> st.threads[st.current].status != Ready
  {
    if st.threads[st.current].status != Ready {
      BlockKeeps(st);
    } else {
      assert Placed(st, st.current);
      assert !Placed(BlockStep(st), st.current);
    }
  }

  /** One thread, running. */
  ghost predicate Initial(st: State) {
    && |st.threads| == 1 && st.threads[0] == ThreadInfo(Running, false, st.threads[0].priority, true)
    && st.ready == [] && st.current == 0 && !st.postponed && st.held == Nil && st.prevent == 0
  }

  lemma InitialInv(st: State)
    requires Initial(st)
    ensures Inv(st)
  {
    assert Placed(st, 0);
  }

  predicate Reaches(st: State, ops: seq<Op>, st': State)
    decreases |ops|
  {
    if ops == [] then st' == st
    else Allowed(st, ops[0]) && Reaches(Step(st, ops[0]), ops[1..], st')
  }

  /** No thread is stopped while it is ready. */
  predicate StopsRunning(st: State, ops: seq<Op>)
    decreases |ops|
  {
    ops == [] || (Allowed(st, ops[0]) && !BlocksReady(st, ops[0]) && StopsRunning(Step(st, ops[0]), ops[1..]))
  }

  /** At every point of the run the invariant holds, and every step keeps every wake-up. */
  ghost predicate Throughout(st: State, ops: seq<Op>)
    decreases |ops|
  {
    Inv(st) && (ops == []
                || (Allowed(st, ops[0]) && WakesKept(st, Step(st, ops[0])) && Throughout(Step(st, ops[0]), ops[1..])))
  }

  lemma {:induction false} RunsKeep(st: State, ops: seq<Op>, st': State)
    requires Inv(st) && Reaches(st, ops, st')
    ensures Throughout(st, ops) <==> StopsRunning(st, ops)
    ensures StopsRunning(st, ops) ==> Inv(st')
    decreases |ops|
  {
    hide Inv, Step, BlocksReady, WakesKept;
    if ops != [] {
      StepKeepsIff(st, ops[0]);
      if Inv(Step(st, ops[0])) {
        RunsKeep(Step(st, ops[0]), ops[1..], st');
      }
    }
  }

  /** Whether a wait may begin after the step: the lock has been held since it was free, on a CPU that is not parked,
      and nobody has stopped under it. */
  predicate MayWait(st: State, op: Op, may: bool)
    requires Allowed(st, op)
  {
    Step(st, op).prevent > 0 &&
        if st.prevent == 0 then !st.threads[st.current].idling else may && !op.BlockCurrent?
  }

  /** What a caller can see to: a wait begins only then; once stopped, the thread may be stopped again under the same
      lock, as a wait with a timeout does. */
  predicate WaitsFromFree(st: State, ops: seq<Op>, may: bool)
    decreases |ops|
  {
    ops == []
    || (&& Allowed(st, ops[0]) && (ops[0].BlockCurrent? ==> may || st.threads[st.current].status == Stopped)
        && WaitsFromFree(Step(st, ops[0]), ops[1..], MayWait(st, ops[0], may)))
  }

  predicate RunsUnderLock(st: State) {
    st.prevent > 0 && st.current < |st.threads| && st.threads[st.current].status == Running
  }

  lemma MayWaitRuns(st: State, op: Op, may: bool)
    requires Inv(st) && Allowed(st, op) && (may ==> RunsUnderLock(st))
    ensures MayWait(st, op, may) ==> RunsUnderLock(Step(st, op))
  {
    assert Placed(st, st.current);
    hide QueueSane, NoLostWakeup, AllPlaced;
  }

  /** Such waits only ever stop a running thread, or one they have stopped. */
  lemma {:induction false} FreeStopsRunning(st: State, ops: seq<Op>, may: bool, st': State)
    requires Inv(st) && Reaches(st, ops, st') && (may ==> RunsUnderLock(st)) && WaitsFromFree(st, ops, may)
    ensures StopsRunning(st, ops)
    decreases |ops|
  {
    hide Inv, Step, MayWait;
    if ops != [] {
      MayWaitRuns(st, ops[0], may);
      StepKeeps(st, ops[0]);
      FreeStopsRunning(Step(st, ops[0]), ops[1..], MayWait(st, ops[0], may), st');
    }
  }

  const TIMED_WAIT := [AcquireLock, BlockCurrent, BlockCurrent, ReleaseLock]

  /** A wait with a timeout, which stops its thread for the timer and for the semaphore, is such a wait. */
  lemma TimedWaits(st: State)
    requires Inv(st) && st.prevent == 0 && !st.threads[st.current].idling
    ensures WaitsFromFree(st, TIMED_WAIT, false)
  {
    var st1 := Step(st, AcquireLock);
    var st2 := Step(st1, BlockCurrent);
    var st3 := Step(st2, BlockCurrent);
    assert MayWait(st, AcquireLock, false) && Allowed(st3, ReleaseLock) && st3.prevent == 1;
    var st4 := Step(st3, ReleaseLock);
    hide Inv, Step, MayWait, Allowed;
    assert TIMED_WAIT[1..] == [BlockCurrent, BlockCurrent, ReleaseLock]
        && TIMED_WAIT[1..][1..] == [BlockCurrent, ReleaseLock];
    assert [BlockCurrent, ReleaseLock][1..] == [ReleaseLock] && [ReleaseLock][1..] == [];
    assert WaitsFromFree(st4, [],
        MayWait(st3, ReleaseLock, MayWait(st2, BlockCurrent, MayWait(st1, BlockCurrent, true))));
    assert WaitsFromFree(st3, [ReleaseLock], MayWait(st2, BlockCurrent, MayWait(st1, BlockCurrent, true)));
    assert WaitsFromFree(st2, [BlockCurrent, ReleaseLock], MayWait(st1, BlockCurrent, true));
    assert WaitsFromFree(st1, [BlockCurrent, BlockCurrent, ReleaseLock], true);
  }

  // ---- An interrupt that waits ----

  /** One thread with the given status and queue, under so many levels of the lock. */
  predicate Alone(st: State, status: Status, ready: seq<nat>, prevent: nat) {
    && |st.threads| == 1 && st.threads[0].status == status && !st.threads[0].idling && st.threads[0].here
    && st.ready == ready && st.current == 0 && st.held == Nil && st.prevent == prevent
  }

  const NESTED_WAIT := [AcquireLock, BlockCurrent, ReleaseLock, Unblock(0)]

  /** A wait inside the lock comes back at once, and the wake-up it is owed queues the thread. */
  lemma NestedWait(st: State, status: Status, ready: seq<nat>)
    requires Alone(st, status, ready, 1)
    ensures exists st' :: Reaches(st, NESTED_WAIT, st') && Alone(st', Ready, ready + [0], 1)
  {
    var st1 := Step(st, AcquireLock);
    var st2 := Step(st1, BlockCurrent);
    var st3 := Step(st2, ReleaseLock);
    assert Alone(st3, Stopped, ready, 1);
    var st4 := Step(st3, Unblock(0));
    assert Alone(st4, Ready, ready + [0], 1);
    hide Step, Allowed;
    assert NESTED_WAIT[1..] == [BlockCurrent, ReleaseLock, Unblock(0)]
        && NESTED_WAIT[1..][1..] == [ReleaseLock, Unblock(0)];
    assert [ReleaseLock, Unblock(0)][1..] == [Unblock(0)] && [Unblock(0)][1..] == [];
    assert Reaches(st3, [Unblock(0)], st4);
    assert Reaches(st2, [ReleaseLock, Unblock(0)], st4);
    assert Reaches(st1, [BlockCurrent, ReleaseLock, Unblock(0)], st4);
  }

  lemma {:induction false} ReachesOn(st: State, ops: seq<Op>, mid: State, more: seq<Op>, st': State)
    requires Reaches(st, ops, mid) && Reaches(mid, more, st')
    ensures Reaches(st, ops + more, st')
    decreases |ops|
  {
    hide Allowed, Step;
    if ops == [] {
      assert ops + more == more;
    } else {
      ReachesOn(Step(st, ops[0]), ops[1..], mid, more, st');
      assert (ops + more)[0] == ops[0] && (ops + more)[1..] == ops[1..] + more;
    }
  }

  /** An interrupt that takes the lock and waits under it twice queues the thread it came upon twice. */
  lemma QueuedTwice(st: State)
    requires Initial(st)
    ensures exists st' :: Reaches(st, [AcquireLock] + NESTED_WAIT + NESTED_WAIT, st') && st'.ready == [0, 0]
  {
    var st0 := Step(st, AcquireLock);
    assert Alone(st0, Running, [], 1);
    assert Reaches(st0, [], st0) && [AcquireLock][1..] == [];
    assert Reaches(st, [AcquireLock], st0);
    NestedWait(st0, Running, []);
    var st1 :| Reaches(st0, NESTED_WAIT, st1) && Alone(st1, Ready, [0], 1);
    NestedWait(st1, Ready, [0]);
    var st2 :| Reaches(st1, NESTED_WAIT, st2) && Alone(st2, Ready, [0] + [0], 1);
    hide *;
    ReachesOn(st, [AcquireLock], st0, NESTED_WAIT, st1);
    ReachesOn(st, [AcquireLock] + NESTED_WAIT, st1, NESTED_WAIT, st2);
    assert [0] + [0] == [0, 0];
  }

  // ---- Where threads are ----

  function Places(st: State, t: nat): nat
    requires t < |st.threads|
  {
    (if t in st.ready then 1 else 0) + (if st.held == To(t) then 1 else 0)
    + (if st.threads[t].status == Stopped then 1 else 0)
  }

  /** In every run in which no thread is stopped while it is ready, a thread other than the current one is in exactly
      one of three places: once on the ready queue, held to preempt, or stopped. The current thread is running and in
      none of them unless it has stopped; if it was woken before it was switched away from it is queued, or the CPU
      parked on it resumes it, never both. */
  lemma NoThreadLost(st: State, ops: seq<Op>, st': State, t: nat)
    requires Initial(st) && Reaches(st, ops, st') && StopsRunning(st, ops) && t < |st'.threads|
    ensures Distinct(st'.ready)
    ensures t != st'.current ==> Places(st', t) == 1 && !st'.threads[t].idling && st'.threads[t].status != Running
    ensures t == st'.current && st'.threads[t].status == Running ==> Places(st', t) == 0
    ensures st'.threads[t].idling ==> t == st'.current && t !in st'.ready && st'.held == Nil
    ensures t == st'.current && st'.threads[t].status == Ready ==> (t in st'.ready <==> !st'.threads[t].idling)
  {
    hide Initial, Reaches, StopsRunning, Throughout;
    InitialInv(st);
    RunsKeep(st, ops, st');
    assert Placed(st', t);
  }

  /** In every such run, whenever the lock is free, nothing is left postponed, and the CPU runs its thread or is
      parked; and a parked CPU that will not look again has nothing it could run. */
  lemma NoWakeupLost(st: State, ops: seq<Op>, st': State, t: nat)
    requires Initial(st) && Reaches(st, ops, st') && StopsRunning(st, ops) && st'.prevent == 0
    ensures !st'.postponed && st'.held == Nil && st'.current < |st'.threads|
    ensures st'.threads[st'.current].idling || st'.threads[st'.current].status == Running
    ensures st'.threads[st'.current].idling && st'.pokes == st'.ogSeq ==>
              st'.threads[st'.current].status == Stopped && (t in st'.ready ==> !Here(st'.threads, t))
  {
    hide Initial, Reaches, StopsRunning, Throughout, AllPlaced, QueueSane;
    InitialInv(st);
    RunsKeep(st, ops, st');
  }

  /** The outermost release switches to the thread that preempts, if there is one, and the preempted thread is
      queued. */
  lemma HeldRuns(st: State)
    requires Inv(st) && st.prevent == 1 && st.held.To?
    ensures var st' := ReleaseStep(st);
            && st'.current == st.held.thr && st'.threads[st'.current].status == Running && st'.held == Nil
            && (st.threads[st.current].status == Running ==> st'.ready == st.ready + [st.current])
  {
    hide QueueSane, NoLostWakeup;
    assert Placed(st, st.current) && Placed(st, st.held.thr);
  }

  /** Of the threads that would preempt under one lock, the most urgent is held: a later one takes its place only if
      it is more urgent, and then the one it replaces is queued, not dropped. */
  lemma UrgentHeld(st: State, t: nat)
    requires Inv(st) && st.prevent > 0 && t < |st.threads| && st.threads[t].status == Stopped && st.held.To?
    ensures var st' := UnblockStep(st, t); var h := st.held.thr;
            && h < |st'.threads| && st'.held.To?
            && (st'.held.thr == h
                || (st'.held.thr == t && st.threads[t].priority < st.threads[h].priority && h in st'.ready))
            && (st'.held.thr == h ==> t in st'.ready)
  {
    hide QueueSane, NoLostWakeup;
    assert Placed(st, t) && Placed(st, st.current) && Placed(st, st.held.thr);
    var more := st.ready + [t];
    assert more[|st.ready|] == t;
    var more' := st.ready + [st.held.thr];
    assert more'[|st.ready|] == st.held.thr;
  }

  // ---- Who runs next ----

  /** A woken thread on which no CPU is parked preempts exactly if the current thread runs, it may run here, and either
      nobody is queued or it is more urgent, which is a lower number; it is then held, unless one that is held already
      is as urgent. Whoever is not held is queued last. */
  lemma WokenIsPlaced(st: State, t: nat)
    requires Inv(st) && st.prevent > 0 && t < |st.threads| && st.threads[t].status == Stopped
    requires !st.threads[t].idling
    ensures var st', running := UnblockStep(st, t), st.threads[st.current];
            var preempts := running.status == Running && st.threads[t].here
                            && (st.ready == [] || st.threads[t].priority < running.priority);
            var first := st.held == Nil || st.threads[t].priority < st.threads[st.held.thr].priority;
            && st'.held == (if preempts && first then To(t) else st.held)
            && (st'.postponed <==> st.postponed || preempts)
            && st'.ready == (if !(preempts && first) then st.ready + [t]
                             else if st.held.To? then st.ready + [st.held.thr] else st.ready)
            && st'.current == st.current && t < |st'.threads| && st'.threads[t].status == Ready
  {
    hide QueueSane, NoLostWakeup;
    assert Placed(st, t) && Placed(st, st.current);
    if st.held.To? {
      assert Placed(st, st.held.thr);
    }
  }

  /** A thread woken under a lock taken while free runs from its outermost release on exactly if it preempts; the
      thread it preempts is queued last, and otherwise it is. */
  lemma WokenRuns(st: State, t: nat)
    requires Inv(st) && st.prevent == 1 && !st.postponed && t < |st.threads| && st.threads[t].status == Stopped
    requires !st.threads[t].idling
    ensures var woken, running := UnblockStep(st, t), st.threads[st.current];
            var preempts := running.status == Running && st.threads[t].here
                            && (st.ready == [] || st.threads[t].priority < running.priority);
            && woken.current < |woken.threads| && (woken.held.To? ==> woken.held.thr < |woken.threads|)
            && var st' := ReleaseStep(woken);
               && st'.current == (if preempts then t else st.current)
               && (preempts ==> t < |st'.threads| && st'.threads[t].status == Running)
               && st'.ready == st.ready + [if preempts then st.current else t]
  {
    WokenIsPlaced(st, t);
    hide QueueSane, NoLostWakeup;
    assert Placed(st, t) && Placed(st, st.current);
  }

  /** Waking the thread a CPU is parked on queues nobody and pokes the CPU, which resumes that thread. */
  lemma ParkedResumes(st: State, t: nat)
    requires Inv(st) && st.prevent == 1 && t < |st.threads| && st.threads[t].status == Stopped && st.threads[t].idling
    ensures var woken := UnblockStep(st, t);
            && woken.ready == st.ready && woken.held == st.held && woken.pokes > st.pokes
            && woken.current < |woken.threads| && (woken.held.To? ==> woken.held.thr < |woken.threads|)
            && var free := ReleaseStep(woken);
               && free.current < |free.threads| && free.pokes != free.ogSeq
               && var st' := IdleStep(free);
                  && st'.current == t && t < |st'.threads| && st'.threads[t].status == Running
                  && !st'.threads[t].idling && st'.ready == st.ready
  {
    hide QueueSane;
    assert Placed(st, t) && Placed(st, st.current);
  }

  /** No queued thread may run on this CPU. */
  predicate NobodyHere(st: State) {
    forall j :: 0 <= j < |st.ready| ==> !Here(st.threads, st.ready[j])
  }

  /** The k-th queued thread may run on this CPU, and none before it may. */
  predicate NextUp(st: State, k: nat) {
    k < |st.ready| && Here(st.threads, st.ready[k]) && forall j :: 0 <= j < k ==> !Here(st.threads, st.ready[j])
  }

  lemma FirstFound(threads: seq<ThreadInfo>, ready: seq<nat>, k: nat)
    requires k <= |ready| && (k < |ready| ==> Here(threads, ready[k]))
    requires forall j :: 0 <= j < k ==> !Here(threads, ready[j])
    ensures FirstHere(threads, ready) == k
  {
    var f := FirstHere(threads, ready);
    assert f < |ready| ==> Here(threads, ready[f]);
  }

  lemma StatusesApart(threads: seq<ThreadInfo>, t: nat, status: Status, ready: seq<nat>, k: nat)
    requires t < |threads| && FirstHere(threads, ready) == k
    ensures FirstHere(SetStatus(threads, t, status), ready) == k
  {
    var threads' := SetStatus(threads, t, status);
    forall j | 0 <= j < |ready|
      ensures Here(threads', ready[j]) <==> Here(threads, ready[j])
    {
    }
    FirstFound(threads', ready, k);
  }

  /** A thread that yields while the lock is free gives the CPU to the first queued thread that may run here and is
      queued last; it goes on if there is none. */
  lemma YieldHandsOn(st: State, k: nat)
    requires Inv(st) && st.prevent == 0 && st.threads[st.current].status == Running
    ensures NobodyHere(st) ==> ScheduleStep(st) == st
    ensures NextUp(st, k) ==>
              var st' := ScheduleStep(st);
              && st'.current == st.ready[k] && Here(st'.threads, st'.current)
              && st'.threads[st'.current].status == Running
              && st'.ready == st.ready[..k] + st.ready[k + 1..] + [st.current]
  {
    hide NoLostWakeup;
    assert Placed(st, st.current);
    var more := st.ready + [st.current];
    var threads' := SetStatus(st.threads, st.current, Ready);
    assert more[|st.ready|] == st.current;
    if NobodyHere(st) {
      FirstFound(st.threads, more, |st.ready|);
      StatusesApart(st.threads, st.current, Ready, more, |st.ready|);
      assert Without(more, |st.ready|) == st.ready;
    } else if NextUp(st, k) {
      FirstFound(st.threads, more, k);
      StatusesApart(st.threads, st.current, Ready, more, k);
      assert Without(more, k) == st.ready[..k] + st.ready[k + 1..] + [st.current];
    }
  }

  /** The outermost release after the current thread has stopped gives the CPU to the first queued thread that may run
      here, and parks it if there is none. */
  lemma StoppedGivesWay(st: State, k: nat)
    requires Inv(st) && st.prevent == 1 && st.held == Nil && st.threads[st.current].status == Stopped
    requires !st.threads[st.current].idling
    ensures NobodyHere(st) ==>
              var st' := ReleaseStep(st);
              && st'.current == st.current && st'.current < |st'.threads| && st'.threads[st'.current].idling
              && st'.ready == st.ready
    ensures NextUp(st, k) ==>
              var st' := ReleaseStep(st);
              && st'.current == st.ready[k] && st'.current < |st'.threads|
              && st'.threads[st'.current].status == Running && st'.ready == st.ready[..k] + st.ready[k + 1..]
  {
    hide NoLostWakeup;
    if NobodyHere(st) {
      FirstFound(st.threads, st.ready, |st.ready|);
    } else if NextUp(st, k) {
      FirstFound(st.threads, st.ready, k);
    }
  }
}
