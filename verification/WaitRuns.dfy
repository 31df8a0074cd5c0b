/** Whole runs of the blocking core: every wait ends once, for a reason, and units are conserved. */
module WaitRuns {
  import opened Sequences
  import opened WaitQueues
  import opened WaitStates

  // ---- What the log says ----

  predicate About(e: Event, t: nat) {
    (e.Blocked? || e.Woken?) && e.thr == t
  }

  datatype Last = Never | Was(event: Event)

  /** The last time thread t blocked or was woken. */
  function LastOf(log: seq<Event>, t: nat): Last {
    if log == [] then Never
    else if About(log[|log| - 1], t) then Was(log[|log| - 1])
    else LastOf(log[..|log| - 1], t)
  }

  /** A wake-up with this result is due to what the thread blocked on: a unit of one of its semaphores, its deadline
      having passed, or one of its semaphores having been abandoned. */
  predicate Justified(b: Event, ret: int, time: nat) {
    && b.Blocked?
    && ((ret <= 0 && -ret < |b.sems|) || (ret == ETIMEDOUT && 0 < b.deadline <= time)
        || (ret == EABANDONED && b.sems != []))
  }

  predicate EventOk(log: seq<Event>, i: nat)
    requires i < |log|
  {
    match log[i]
    case Blocked(t, _, _) => LastOf(log[..i], t).Was? ==> LastOf(log[..i], t).event.Woken?
    case Woken(t, ret, time) => LastOf(log[..i], t).Was? && Justified(LastOf(log[..i], t).event, ret, time)
    case Took(_, _) => true
    case Gave(_) => true
  }

  ghost predicate History(log: seq<Event>) {
    forall i {:trigger EventOk(log, i)} :: 0 <= i < |log| ==> EventOk(log, i)
  }

  /** The log agrees with what thread t is doing now. */
  predicate LogNow(log: seq<Event>, th: ThreadState, t: nat) {
    if th.blocked then LastOf(log, t) == Was(Blocked(t, th.waits, th.wakeup))
    else LastOf(log, t).Was? ==> LastOf(log, t).event.Woken?
  }

  ghost predicate LogSane(st: State) {
    && History(st.log)
    && forall t {:trigger LogNow(st.log, st.threads[t], t)} :: 0 <= t < |st.threads| ==>
        LogNow(st.log, st.threads[t], t)
  }

  lemma LastSnoc(log: seq<Event>, e: Event, t: nat)
    ensures LastOf(log + [e], t) == if About(e, t) then Was(e) else LastOf(log, t)
  {
    assert (log + [e])[..|log|] == log;
  }

  lemma HistorySnoc(log: seq<Event>, e: Event)
    requires History(log)
    requires e.Blocked? ==> (LastOf(log, e.thr).Was? ==> LastOf(log, e.thr).event.Woken?)
    requires e.Woken? ==> LastOf(log, e.thr).Was? && Justified(LastOf(log, e.thr).event, e.ret, e.time)
    ensures History(log + [e])
  {
    hide LastOf, Justified;
    var more := log + [e];
    forall i | 0 <= i < |more|
      ensures EventOk(more, i)
    {
      if i < |log| {
        assert EventOk(log, i);
        assert more[..i] == log[..i];
      } else {
        assert more[..i] == log;
      }
    }
  }

  // ---- Units ----

  /** How many more units of s have been taken than given back. */
  function Net(log: seq<Event>, s: nat): int {
    if log == [] then 0
    else Net(log[..|log| - 1], s) + (match log[|log| - 1]
                                     case Took(_, r) => if r == s then 1 else 0
                                     case Gave(r) => if r == s then -1 else 0
                                     case Blocked(_, _, _) => 0
                                     case Woken(_, _, _) => 0)
  }

  /** Every count is what it started from plus what the log says was taken and not given back. */
  ghost predicate Balanced(st: State) {
    |st.initial| == |st.counts| && forall s :: 0 <= s < |st.counts| ==> st.counts[s] == st.initial[s] + Net(st.log, s)
  }

  lemma NetSnoc(log: seq<Event>, e: Event, s: nat)
    ensures Net(log + [e], s) == Net(log, s) + (if e.Took? && e.sem == s then 1 else if e == Gave(s) then -1 else 0)
  {
    assert (log + [e])[..|log|] == log;
  }

  // ---- Steps keep it all ----

  ghost predicate Inv(st: State) {
    Sane(st) && Punctual(st) && LogSane(st) && Balanced(st)
  }

  /** The part of the invariant that also holds while the timer list is being worked off. */
  ghost predicate InvLate(st: State) {
    Sane(st) && LogSane(st) && Balanced(st)
  }

  lemma NoteUnit(st: State, e: Event)
    requires LogSane(st) && (e.Took? || e.Gave?)
    ensures LogSane(st.(log := st.log + [e]))
  {
    hide History, LastOf;
    HistorySnoc(st.log, e);
    forall t | 0 <= t < |st.threads|
      ensures LogNow(st.log + [e], st.threads[t], t)
    {
      assert LogNow(st.log, st.threads[t], t);
      LastSnoc(st.log, e, t);
    }
  }

  lemma WakeLog(st: State, t: nat, ret: int)
    requires LogSane(st) && t < |st.threads| && st.threads[t].blocked
    requires Justified(Blocked(t, st.threads[t].waits, st.threads[t].wakeup), ret, st.now)
    ensures LogSane(Wake(st, t, ret))
  {
    hide History, LastOf, Justified;
    var e := Woken(t, ret, st.now);
    var threads' := st.threads[t := ThreadState([], 0, false, ret)];
    assert LogNow(st.log, st.threads[t], t);
    HistorySnoc(st.log, e);
    forall x | 0 <= x < |threads'|
      ensures LogNow(st.log + [e], threads'[x], x)
    {
      assert LogNow(st.log, st.threads[x], x);
      LastSnoc(st.log, e, x);
    }
  }

  lemma BlockLog(st: State, t: nat, list: seq<nat>, deadline: nat)
    requires LogSane(st) && t < |st.threads| && !st.threads[t].blocked
    ensures LogSane(Block(st, t, list, deadline))
  {
    hide History, LastOf, Insert;
    var e := Blocked(t, list, deadline);
    var threads' := st.threads[t := ThreadState(list, deadline, true, 0)];
    assert LogNow(st.log, st.threads[t], t);
    HistorySnoc(st.log, e);
    forall x | 0 <= x < |threads'|
      ensures LogNow(st.log + [e], threads'[x], x)
    {
      assert LogNow(st.log, st.threads[x], x);
      LastSnoc(st.log, e, x);
    }
  }

  lemma SameBalance(st: State, e: Event)
    requires Balanced(st) && (e.Blocked? || e.Woken?)
    ensures Balanced(st.(log := st.log + [e]))
  {
    hide Net;
    forall s | 0 <= s < |st.counts|
      ensures st.counts[s] == st.initial[s] + Net(st.log + [e], s)
    {
      NetSnoc(st.log, e, s);
    }
  }

  lemma WakeKeeps(st: State, t: nat, ret: int)
    requires InvLate(st) && t < |st.threads| && st.threads[t].blocked
    requires Justified(Blocked(t, st.threads[t].waits, st.threads[t].wakeup), ret, st.now)
    ensures InvLate(Wake(st, t, ret))
    ensures Punctual(st) ==> Punctual(Wake(st, t, ret))
  {
    WakeSane(st, t, ret);
    WakeLog(st, t, ret);
    SameBalance(st, Woken(t, ret, st.now));
    WakePunctual(st, t, ret);
    hide Sane, LogSane, Punctual, Minus;
  }

  lemma WakePunctual(st: State, t: nat, ret: int)
    requires Sane(st) && t < |st.threads|
    ensures Punctual(st) ==> Punctual(Wake(st, t, ret))
  {
    MinusMembers(st.sleepers, t);
    hide CountsSane, QueuesSane, Minus, Distinct;
  }

  /** A thread that waits for s, or sleeps, is blocked. */
  lemma WaiterBlocked(st: State, t: nat)
    requires Sane(st) && t < |st.threads|
    ensures st.threads[t].waits != [] || st.threads[t].wakeup > 0 ==> st.threads[t].blocked
    ensures t in st.sleepers ==> st.threads[t].blocked && st.threads[t].wakeup > 0
  {
    hide CountsSane, QueuesSane;
  }

  lemma {:induction false} AbandonKeeps(st: State, s: nat)
    requires Inv(st) && s < |st.counts|
    ensures Inv(AbandonStep(st, s))
    decreases if s < |st.queues| then |st.queues[s]| else 0
  {
    hide Punctual, LogSane, Balanced;
    if st.queues[s] != [] {
      var t := st.queues[s][0];
      HeadWaits(st, s);
      WaiterBlocked(st, t);
      WakeSane(st, t, EABANDONED);
      WakeKeeps(st, t, EABANDONED);
      hide Sane;
      AbandonKeeps(Wake(st, t, EABANDONED), s);
    }
  }

  lemma {:induction false} ExpireKeeps(st: State)
    requires InvLate(st)
    ensures Inv(ExpireStep(st))
    decreases |st.sleepers|
  {
    hide Punctual, LogSane, Balanced;
    if st.sleepers == [] || st.now < WakeupOf(st.threads, st.sleepers[0]) {
      ExpireSane(st);
    } else {
      var t := st.sleepers[0];
      assert t in st.sleepers;
      WaiterBlocked(st, t);
      WakeSane(st, t, ETIMEDOUT);
      WakeKeeps(st, t, ETIMEDOUT);
      hide Sane;
      ExpireKeeps(Wake(st, t, ETIMEDOUT));
    }
  }

  lemma BlockKeeps(st: State, t: nat, list: seq<nat>, deadline: nat)
    requires Inv(st) && t < |st.threads| && !st.threads[t].blocked && Waitable(st, list)
    requires forall i :: 0 <= i < |list| ==> st.counts[list[i]] == st.maxes[list[i]]
    requires list != [] || deadline > 0
    requires deadline > 0 ==> deadline > st.now
    ensures Inv(Block(st, t, list, deadline))
  {
    BlockSane(st, t, list, deadline);
    BlockLog(st, t, list, deadline);
    SameBalance(st, Blocked(t, list, deadline));
    BlockPunctual(st, t, list, deadline);
    hide Sane, LogSane, Punctual, Insert;
  }

  lemma BlockPunctual(st: State, t: nat, list: seq<nat>, deadline: nat)
    requires Sane(st) && Punctual(st) && t < |st.threads| && !st.threads[t].blocked
    requires deadline > 0 ==> deadline > st.now
    ensures Punctual(Block(st, t, list, deadline))
  {
    hide CountsSane, QueuesSane, Insert, Distinct;
    if deadline > 0 {
      InsertMembers(st.threads, st.sleepers, t, deadline);
    }
  }

  datatype Op =
    | Acquire(thr: nat, list: seq<nat>, timeout: int)
    | Sleep(thr: nat, until: nat)
    | Release(sem: nat)
    | Abandon(sem: nat)
    | Advance(ns: nat)

  /** A wait names distinct semaphores. */
  predicate Allowed(st: State, op: Op) {
    match op
    case Acquire(t, list, _) => t < |st.threads| && list != [] && Waitable(st, list)
    case Sleep(t, _) => t < |st.threads|
    case Release(s) => s < |st.counts|
    case Abandon(s) => s < |st.counts|
    case Advance(_) => true
  }

  /** The operation makes its thread wait. */
  predicate MustWait(st: State, op: Op)
    requires Allowed(st, op)
  {
    match op
    case Acquire(t, list, timeout) =>
      |st.counts| == |st.maxes| && FirstFree(st, list) == |list| && timeout != TIMEOUT_INSTANT
      && (timeout == TIMEOUT_INFINITE || Deadline(st.now, timeout) > st.now)
    case Sleep(t, until) => until > st.now
    case _ => false
  }

  /** The operation makes a thread wait that is waiting already, as an interrupt does that waits on the thread it
      came upon. */
  predicate WaitsTwice(st: State, op: Op)
    requires Allowed(st, op)
  {
    MustWait(st, op) && st.threads[op.thr].blocked
  }

  ghost function Step(st: State, op: Op): State
    requires Sane(st) && Allowed(st, op)
  {
    match op
    case Acquire(t, list, timeout) => AcquireStep(st, t, list, timeout).0
    case Sleep(t, until) => SleepStep(st, t, until)
    case Release(s) => ReleaseStep(st, s)
    case Abandon(s) => AbandonStep(st, s)
    case Advance(ns) => AdvanceStep(st, ns)
  }

  lemma TakeKeeps(st: State, t: nat, s: nat)
    requires Inv(st) && s < |st.counts| && st.counts[s] < st.maxes[s]
    ensures Inv(st.(counts := st.counts[s := st.counts[s] + 1], log := st.log + [Took(t, s)]))
  {
    NoteUnit(st, Took(t, s));
    hide QueuesSane, SleepersSane, BlockedSane, LogSane, Net;
    forall r | 0 <= r < |st.counts|
      ensures Net(st.log + [Took(t, s)], r) == Net(st.log, r) + (if r == s then 1 else 0)
    {
      NetSnoc(st.log, Took(t, s), r);
    }
  }

  lemma AcquireKeeps(st: State, t: nat, list: seq<nat>, timeout: int)
    requires Inv(st) && t < |st.threads| && list != [] && Waitable(st, list)
    requires !WaitsTwice(st, Acquire(t, list, timeout))
    ensures Inv(AcquireStep(st, t, list, timeout).0)
  {
    hide Punctual, LogSane, Balanced, QueuesSane, SleepersSane, BlockedSane, Distinct;
    var i := FirstFree(st, list);
    if i < |list| {
      TakeKeeps(st, t, list[i]);
    } else if timeout == TIMEOUT_INFINITE {
      BlockKeeps(st, t, list, 0);
    } else if timeout != TIMEOUT_INSTANT && Deadline(st.now, timeout) > st.now {
      BlockKeeps(st, t, list, Deadline(st.now, timeout));
    }
  }

  lemma GiveBack(st: State, s: nat)
    requires Inv(st) && s < |st.counts| && (st.counts[s] < st.maxes[s] || st.queues[s] == [])
    ensures Inv(st.(counts := st.counts[s := st.counts[s] - 1], log := st.log + [Gave(s)]))
  {
    NoteUnit(st, Gave(s));
    hide QueuesSane, SleepersSane, BlockedSane, LogSane, Net;
    forall r | 0 <= r < |st.counts|
      ensures Net(st.log + [Gave(s)], r) == Net(st.log, r) - (if r == s then 1 else 0)
    {
      NetSnoc(st.log, Gave(s), r);
    }
  }

  /** Handing a unit over: given back and taken at once, the count stays as it is. */
  lemma HandOver(st: State, s: nat, t: nat, ret: int)
    requires Inv(st) && s < |st.counts| && t < |st.threads| && st.threads[t].blocked
    requires ret <= 0 && -ret < |st.threads[t].waits|
    ensures var st1 := Wake(st.(log := st.log + [Gave(s)]), t, ret); Inv(st1.(log := st1.log + [Took(t, s)]))
  {
    hide Sane, Punctual, LogSane, Net, Minus;
    NoteUnit(st, Gave(s));
    var st0 := st.(log := st.log + [Gave(s)]);
    HandSane(st, st0);
    WakeSane(st0, t, ret);
    WakeLog(st0, t, ret);
    WakePunctual(st0, t, ret);
    var st1 := Wake(st0, t, ret);
    NoteUnit(st1, Took(t, s));
    var st2 := st1.(log := st1.log + [Took(t, s)]);
    HandSane(st1, st2);
    forall r | 0 <= r < |st.counts|
      ensures Net(st2.log, r) == Net(st.log, r)
    {
      NetSnoc(st.log, Gave(s), r);
      NetSnoc(st0.log, Woken(t, ret, st.now), r);
      NetSnoc(st1.log, Took(t, s), r);
    }
  }

  lemma HandSane(st: State, st': State)
    requires st' == st.(log := st'.log)
    ensures Sane(st) ==> Sane(st')
    ensures Punctual(st) ==> Punctual(st')
  {
  }

  lemma ReleaseKeeps(st: State, s: nat)
    requires Inv(st) && s < |st.counts|
    ensures Inv(ReleaseStep(st, s))
  {
    hide Punctual, LogSane, Balanced, QueuesSane, SleepersSane, BlockedSane, Distinct, Wake;
    if st.counts[s] == st.maxes[s] && st.queues[s] != [] {
      var t := st.queues[s][0];
      HeadWaits(st, s);
      WaiterBlocked(st, t);
      HandOver(st, s, t, -(IndexOf(st.threads[t].waits, s) as int));
    } else {
      GiveBack(st, s);
    }
  }

  lemma AdvanceKeeps(st: State, ns: nat)
    requires Inv(st)
    ensures Inv(AdvanceStep(st, ns))
  {
    ExpireKeeps(st.(now := st.now + ns));
  }

  lemma SleepKeeps(st: State, t: nat, until: nat)
    requires Inv(st) && t < |st.threads| && (until > st.now ==> !st.threads[t].blocked)
    ensures Inv(SleepStep(st, t, until))
  {
    if until > st.now {
      BlockKeeps(st, t, [], until);
    }
  }

  /** Every step keeps the invariant, unless it makes a waiting thread wait. */
  lemma StepKeeps(st: State, op: Op)
    requires Inv(st) && Allowed(st, op) && !WaitsTwice(st, op)
    ensures Inv(Step(st, op))
  {
    hide Inv, AcquireStep, SleepStep, ReleaseStep, AbandonStep, AdvanceStep;
    match op
    case Acquire(t, list, timeout) => AcquireKeeps(st, t, list, timeout);
    case Sleep(t, until) => SleepKeeps(st, t, until);
    case Release(s) => ReleaseKeeps(st, s);
    case Abandon(s) => AbandonKeeps(st, s);
    case Advance(ns) => AdvanceKeeps(st, ns);
  }

  /** A thread that waits again before it was woken breaks the invariant: its first wait ends without a cause. */
  lemma BlockTwice(st: State, t: nat, list: seq<nat>, deadline: nat)
    requires Inv(st) && t < |st.threads| && st.threads[t].blocked
    ensures !Inv(Block(st, t, list, deadline))
  {
    var e := Blocked(t, list, deadline);
    var more := st.log + [e];
    assert LogNow(st.log, st.threads[t], t);
    assert more[..|st.log|] == st.log;
    assert !EventOk(more, |st.log|);
  }

  /** The invariant is kept exactly if no waiting thread is made to wait. */
  lemma StepKeepsIff(st: State, op: Op)
    requires Inv(st) && Allowed(st, op)
    ensures Inv(Step(st, op)) <==> !WaitsTwice(st, op)
  {
    hide Inv, ReleaseStep, AbandonStep, AdvanceStep, Block;
    if !WaitsTwice(st, op) {
      StepKeeps(st, op);
    } else if op.Sleep? {
      BlockTwice(st, op.thr, [], op.until);
    } else {
      BlockTwice(st, op.thr, op.list, if op.timeout == TIMEOUT_INFINITE then 0 else Deadline(st.now, op.timeout));
    }
  }

  /** A timeout below zero that is not the one for no timeout waits all the same, for nearly as long as time can be
      told, exactly if it reaches back before the machine started. */
  lemma NegativeTimeout(st: State, t: nat, list: seq<nat>, timeout: int)
    requires t < |st.threads| && |st.counts| == |st.maxes| && Below(list, |st.counts|) && FirstFree(st, list) == |list|
    requires -0x8000_0000_0000_0000 <= timeout < TIMEOUT_INFINITE && st.now < TIME_WRAP
    ensures AcquireStep(st, t, list, timeout).1 == Waiting <==> -timeout > st.now
    ensures -timeout > st.now ==>
        AcquireStep(st, t, list, timeout).0 == Block(st, t, list, TIME_WRAP + timeout + st.now)
  {
    hide Block;
    if -timeout > st.now {
      assert (st.now + timeout + TIME_WRAP) % TIME_WRAP == st.now + timeout + TIME_WRAP;
    }
  }

  // ---- Runs ----

  /** Nobody waits, nothing has happened. */
  ghost predicate Initial(st: State) {
    && |st.initial| == |st.counts| == |st.maxes| == |st.queues| && st.counts == st.initial
    && (forall s :: 0 <= s < |st.counts| ==> st.counts[s] <= st.maxes[s] && st.queues[s] == [])
    && st.sleepers == [] && st.log == []
    && forall t :: 0 <= t < |st.threads| ==> st.threads[t] == ThreadState([], 0, false, 0)
  }

  lemma InitialInv(st: State)
    requires Initial(st)
    ensures Inv(st)
  {
    forall s: nat, t: nat
      ensures OnQueue(st.queues, s, t) <==> WaitsOn(st.threads, t, s)
    {
    }
    assert QueuesSane(st.queues, st.threads);
    assert LogSane(st);
  }

  /** st' can be reached from st by the operations, each allowed where it is made. */
  ghost predicate Reaches(st: State, ops: seq<Op>, st': State)
    decreases |ops|
  {
    if ops == [] then st' == st
    else Sane(st) && Allowed(st, ops[0]) && Reaches(Step(st, ops[0]), ops[1..], st')
  }

  /** No operation of the run makes a waiting thread wait: blocking calls are made by the running thread, and not by
      an interrupt that came upon a thread already on its way to sleep. */
  ghost predicate WaitsApart(st: State, ops: seq<Op>)
    decreases |ops|
  {
    ops == []
    || (Sane(st) && Allowed(st, ops[0]) && !WaitsTwice(st, ops[0]) && WaitsApart(Step(st, ops[0]), ops[1..]))
  }

  /** Over a whole run the invariant holds at every point, if and only if no waiting thread is made to wait. */
  ghost predicate Throughout(st: State, ops: seq<Op>)
    decreases |ops|
  {
    Inv(st) && (ops == [] || (Allowed(st, ops[0]) && Throughout(Step(st, ops[0]), ops[1..])))
  }

  lemma {:induction false} RunKeeps(st: State, ops: seq<Op>, st': State)
    requires Inv(st) && Reaches(st, ops, st')
    ensures Throughout(st, ops) <==> WaitsApart(st, ops)
    ensures WaitsApart(st, ops) ==> Inv(st')
    decreases |ops|
  {
    hide Inv, Step, WaitsTwice;
    if ops != [] {
      StepKeepsIff(st, ops[0]);
      InvSane(st);
      if Inv(Step(st, ops[0])) {
        RunKeeps(Step(st, ops[0]), ops[1..], st');
      }
    }
  }

  lemma InvSane(st: State)
    requires Inv(st)
    ensures Sane(st) && |st.counts| == |st.maxes|
  {
  }

  lemma OneSem(st: State)
    requires Sane(st) && |st.threads| == 1 && |st.counts| == |st.maxes| == |st.queues| == 1
        && st.counts[0] == st.maxes[0]
    ensures Allowed(st, Acquire(0, [0], TIMEOUT_INFINITE))
    ensures Step(st, Acquire(0, [0], TIMEOUT_INFINITE)) == Block(st, 0, [0], 0)
    ensures Block(st, 0, [0], 0).queues == [st.queues[0] + [0]]
  {
    hide Sane;
    assert FirstFree(st, [0]) == 1 by {
      assert FirstFree(st, [0][1..]) == 0;
    }
    assert [0][1..] == [];
    assert Join(st.queues, [0], 0)[0] == st.queues[0] + [0];
  }

  /** An interrupt that waits for a semaphore on the thread it came upon, when that thread waits for it already,
      queues the thread twice. */
  lemma QueuedTwice(st: State)
    requires Initial(st) && |st.threads| == 1 && |st.counts| == 1 && st.counts[0] == st.maxes[0]
    ensures exists st' :: Reaches(st, [Acquire(0, [0], TIMEOUT_INFINITE), Acquire(0, [0], TIMEOUT_INFINITE)], st')
                          && st'.queues == [[0, 0]]
  {
    var op := Acquire(0, [0], TIMEOUT_INFINITE);
    hide *;
    FirstWait(st);
    StepKeeps(st, op);
    var st1 := Block(st, 0, [0], 0);
    SecondWait(st1);
    ReachesTwo(st, op, st1, Block(st1, 0, [0], 0));
  }

  lemma FirstWait(st: State)
    requires Initial(st) && |st.threads| == 1 && |st.counts| == 1 && st.counts[0] == st.maxes[0]
    ensures Inv(st) && Sane(st) && Allowed(st, Acquire(0, [0], TIMEOUT_INFINITE))
    ensures !WaitsTwice(st, Acquire(0, [0], TIMEOUT_INFINITE))
    ensures var st1 := Block(st, 0, [0], 0);
            && Step(st, Acquire(0, [0], TIMEOUT_INFINITE)) == st1 && st1.queues == [[0]]
            && |st1.threads| == 1 && |st1.counts| == |st1.maxes| == 1 && st1.counts[0] == st1.maxes[0]
  {
    InitialInv(st);
    OneSem(st);
    assert [] + [0] == [0];
    hide Join, Insert, Inv, Sane, FirstFree;
  }

  lemma SecondWait(st: State)
    requires Inv(st) && |st.threads| == 1 && |st.counts| == |st.maxes| == |st.queues| == 1
        && st.counts[0] == st.maxes[0]
    requires st.queues[0] == [0]
    ensures Allowed(st, Acquire(0, [0], TIMEOUT_INFINITE)) && Sane(st)
    ensures Step(st, Acquire(0, [0], TIMEOUT_INFINITE)) == Block(st, 0, [0], 0)
        && Block(st, 0, [0], 0).queues == [[0, 0]]
  {
    OneSem(st);
    assert [0] + [0] == [0, 0];
  }

  lemma ReachesTwo(st: State, op: Op, st1: State, st2: State)
    requires Sane(st) && Allowed(st, op) && Step(st, op) == st1 && Sane(st1) && Allowed(st1, op) && Step(st1, op) == st2
    ensures Reaches(st, [op, op], st2)
  {
    hide Sane, Allowed, Step;
    assert [op, op][0] == op && [op, op][1..] == [op] && [op][1..] == [];
    assert Reaches(st1, [op], st2);
  }

  /** In every run: each wake-up ends a wait that had not ended before, for a reason that wait allows, and the thread
      blocks again only after it. */
  lemma WokenOnce(st: State, ops: seq<Op>, st': State, i: nat)
    requires Initial(st) && Reaches(st, ops, st') && WaitsApart(st, ops) && i < |st'.log|
    ensures st'.log[i].Woken? ==>
              var last := LastOf(st'.log[..i], st'.log[i].thr);
              last.Was? && Justified(last.event, st'.log[i].ret, st'.log[i].time)
    ensures st'.log[i].Blocked? ==>
              var last := LastOf(st'.log[..i], st'.log[i].thr);
              last == Never || last.event.Woken?
  {
    hide Initial, Reaches, WaitsApart, Throughout, Sane, Punctual, LastOf, Justified;
    InitialInv(st);
    RunKeeps(st, ops, st');
    assert EventOk(st'.log, i);
  }

  /** In every run: a thread that is not blocked is on no semaphore queue and not on the timer list; a blocked one is on
      exactly the queues it waits for, each of them out of units. */
  lemma WaitersPlaced(st: State, ops: seq<Op>, st': State, t: nat, s: nat)
    requires Initial(st) && Reaches(st, ops, st') && WaitsApart(st, ops) && t < |st'.threads| && s < |st'.queues|
    ensures !st'.threads[t].blocked ==> t !in st'.queues[s] && t !in st'.sleepers
    ensures t in st'.queues[s] <==> s in st'.threads[t].waits
    ensures t in st'.sleepers <==> st'.threads[t].wakeup > 0
    ensures |st'.counts| == |st'.queues| == |st'.maxes| && st'.counts[s] <= st'.maxes[s]
    ensures t in st'.queues[s] ==> st'.counts[s] == st'.maxes[s] && Distinct(st'.queues[s])
  {
    hide Initial, Reaches, WaitsApart, Throughout, Punctual, LogSane, Balanced;
    InitialInv(st);
    RunKeeps(st, ops, st');
    assert OnQueue(st'.queues, s, t) <==> WaitsOn(st'.threads, t, s);
  }

  /** In every run the count is the initial one plus all units taken less all units given back. */
  lemma UnitsConserved(st: State, ops: seq<Op>, st': State, s: nat)
    requires Initial(st) && Reaches(st, ops, st') && WaitsApart(st, ops) && s < |st'.counts|
    ensures |st'.initial| == |st'.counts| && st'.counts[s] == st'.initial[s] + Net(st'.log, s)
  {
    hide Initial, Reaches, WaitsApart, Throughout, Punctual, LogSane, Sane, Net;
    InitialInv(st);
    RunKeeps(st, ops, st');
  }

  // ---- Single steps ----

  /** A release with waiters gives the unit to the one who has waited longest, tells it which semaphore it got, and
      takes it off every queue; the count does not move and the others keep their order. */
  lemma ReleaseHandsOver(st: State, s: nat)
    requires Inv(st) && s < |st.counts| && st.queues[s] != []
    ensures var t := st.queues[s][0]; var st' := ReleaseStep(st, s);
            && t < |st.threads| && st'.counts == st.counts && st'.threads[t].ret <= 0
            && -st'.threads[t].ret < |st.threads[t].waits| && st.threads[t].waits[-st'.threads[t].ret] == s
            && !st'.threads[t].blocked
            && forall r :: 0 <= r < |st.queues| ==> st'.queues[r] == Minus(st.queues[r], t) && t !in st'.queues[r]
  {
    hide Punctual, LogSane, Balanced, SleepersSane, BlockedSane, Minus;
    HeadWaits(st, s);
    var t := st.queues[s][0];
    forall r | 0 <= r < |st.queues| ensures t !in Minus(st.queues[r], t) {
      MinusMembers(st.queues[r], t);
    }
  }

  /** A count that was not negative stays so exactly if a unit was out, or somebody was waiting for one. */
  lemma ReleaseNotNegative(st: State, s: nat)
    requires Inv(st) && s < |st.counts| && st.counts[s] >= 0
    ensures ReleaseStep(st, s).counts[s] >= 0 <==> st.counts[s] > 0 || st.queues[s] != []
  {
    hide Punctual, LogSane, Balanced, QueuesSane, SleepersSane, BlockedSane, Minus;
    if st.queues[s] != [] {
      HeadWaits(st, s);
    }
  }

  /** Time passing wakes exactly the sleepers whose time has come, with ETIMEDOUT, and touches nobody else. */
  lemma {:induction false} ExpireExact(st: State, t: nat)
    requires Sane(st) && t < |st.threads|
    ensures t < |ExpireStep(st).threads|
    ensures ExpireStep(st).threads[t] ==
            if 0 < st.threads[t].wakeup <= st.now then ThreadState([], 0, false, ETIMEDOUT) else st.threads[t]
    ensures ExpireStep(st).counts == st.counts
    decreases |st.sleepers|
  {
    if st.sleepers == [] || st.now < WakeupOf(st.threads, st.sleepers[0]) {
      ExpireSane(st);
      SleeperDue(st, t);
    } else {
      var x := st.sleepers[0];
      assert x in st.sleepers;
      WakeSane(st, x, ETIMEDOUT);
      hide Sane;
      ExpireExact(Wake(st, x, ETIMEDOUT), t);
    }
  }

  lemma {:induction false} ExpireSize(st: State)
    requires Sane(st)
    ensures |ExpireStep(st).threads| == |st.threads| && ExpireStep(st).counts == st.counts
    decreases |st.sleepers|
  {
    if st.sleepers != [] && WakeupOf(st.threads, st.sleepers[0]) <= st.now {
      var x := st.sleepers[0];
      assert x in st.sleepers;
      WakeSane(st, x, ETIMEDOUT);
      hide Sane;
      ExpireSize(Wake(st, x, ETIMEDOUT));
    }
  }

  /** The clock moves on by so much, and wakes whoever is due by then. */
  lemma AdvanceExact(st: State, ns: nat)
    requires Sane(st)
    ensures var st' := AdvanceStep(st, ns);
            && st'.now == st.now + ns && |st'.threads| == |st.threads| && st'.counts == st.counts
            && forall t :: 0 <= t < |st.threads| ==>
                st'.threads[t] == if 0 < st.threads[t].wakeup <= st.now + ns then ThreadState([], 0, false, ETIMEDOUT)
                                  else st.threads[t]
  {
    var later := st.(now := st.now + ns);
    assert Sane(later);
    ExpireSane(later);
    ExpireSize(later);
    hide Sane, ExpireStep;
    forall t | 0 <= t < |st.threads|
      ensures ExpireStep(later).threads[t] ==
              if 0 < st.threads[t].wakeup <= st.now + ns then ThreadState([], 0, false, ETIMEDOUT) else st.threads[t]
    {
      ExpireExact(later, t);
    }
  }

  lemma SleeperDue(st: State, t: nat)
    requires Sane(st) && t < |st.threads| && (st.sleepers == [] || st.now < WakeupOf(st.threads, st.sleepers[0]))
    ensures st.threads[t].wakeup > 0 ==> st.now < st.threads[t].wakeup
  {
    hide CountsSane, QueuesSane, BlockedSane;
    if st.threads[t].wakeup > 0 {
      var j :| 0 <= j < |st.sleepers| && st.sleepers[j] == t;
      assert j > 0 ==> WakeupOf(st.threads, st.sleepers[0]) <= WakeupOf(st.threads, st.sleepers[j]);
    }
  }

  function AllWoken(q: seq<nat>, ret: int, time: nat): seq<Event> {
    seq(|q|, i requires 0 <= i < |q| => Woken(q[i], ret, time))
  }

  /** Abandoning a semaphore wakes exactly those who waited for it, first come first woken. */
  lemma {:induction false} AbandonExact(st: State, s: nat, t: nat)
    requires Sane(st) && s < |st.counts| && t < |st.threads|
    ensures var st' := AbandonStep(st, s);
            && |st'.threads| == |st.threads| && |st'.queues| == |st.queues| && st'.now == st.now
                && st'.counts == st.counts
            && st'.threads[t] == (if t in st.queues[s] then ThreadState([], 0, false, EABANDONED) else st.threads[t])
            && st'.log == st.log + AllWoken(st.queues[s], EABANDONED, st.now)
    decreases if s < |st.queues| then |st.queues[s]| else 0
  {
    if st.queues[s] == [] {
      assert st.log + AllWoken([], EABANDONED, st.now) == st.log;
    } else {
      var q := st.queues[s];
      var x := q[0];
      HeadWaits(st, s);
      WakeSane(st, x, EABANDONED);
      var st1 := Wake(st, x, EABANDONED);
      assert st1.queues[s] == q[1..];
      assert [x] + q[1..] == q;
      AbandonMembers(st, s);
      hide Sane;
      AbandonExact(st1, s, t);
      assert AllWoken(q, EABANDONED, st.now) == [Woken(x, EABANDONED, st.now)] + AllWoken(q[1..], EABANDONED, st.now);
    }
  }

  lemma AbandonMembers(st: State, s: nat)
    requires Sane(st) && s < |st.queues| && st.queues[s] != []
    ensures st.queues[s][0] !in st.queues[s][1..]
  {
    hide SleepersSane, BlockedSane;
    assert Distinct(st.queues[s]);
  }
}
