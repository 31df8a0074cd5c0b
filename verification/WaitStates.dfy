/** What the blocking core does to whole states: who waits where, who sleeps until when, and what woke whom. */
module WaitStates {
  import opened Sequences
  import opened WaitQueues

  const ETIMEDOUT := 28
  const EABANDONED := 36
  const TIMEOUT_INFINITE := -1
  const TIMEOUT_INSTANT := 0

  /** Times are unsigned 64-bit nanoseconds. */
  const TIME_WRAP := 0x1_0000_0000_0000_0000

  /** A time relative to now, as the timer computes it. */
  function Deadline(now: nat, time: int): nat {
    (now + time) % TIME_WRAP
  }

  /** What has happened, oldest first. */
  datatype Event =
    | Blocked(thr: nat, sems: seq<nat>, deadline: nat)
    | Woken(thr: nat, ret: int, time: nat)
    | Took(thr: nat, sem: nat)
    | Gave(sem: nat)

  datatype ThreadState = ThreadState(waits: seq<nat>, wakeup: nat, blocked: bool, ret: int)

  datatype State = State(
    initial: seq<int>, counts: seq<int>, maxes: seq<int>, queues: seq<seq<nat>>, sleepers: seq<nat>,
    threads: seq<ThreadState>, now: nat, log: seq<Event>)

  // ---- Steps ----

  function Leave(queues: seq<seq<nat>>, t: nat): (queues': seq<seq<nat>>)
    ensures |queues'| == |queues|
    ensures forall s :: 0 <= s < |queues| ==> queues'[s] == Minus(queues[s], t)
  {
    seq(|queues|, s requires 0 <= s < |queues| => Minus(queues[s], t))
  }

  /** Thread t leaves every queue and the timer list, and becomes ready with a result. */
  function Wake(st: State, t: nat, ret: int): State
    requires t < |st.threads|
  {
    st.(queues := Leave(st.queues, t), sleepers := Minus(st.sleepers, t),
        threads := st.threads[t := ThreadState([], 0, false, ret)], log := st.log + [Woken(t, ret, st.now)])
  }

  function WakeupOf(threads: seq<ThreadState>, t: nat): nat {
    if t < |threads| then threads[t].wakeup else 0
  }

  /** The timer list with t put behind everyone due no later than it. */
  function Insert(threads: seq<ThreadState>, sleepers: seq<nat>, t: nat, deadline: nat): seq<nat> {
    if sleepers == [] || deadline < WakeupOf(threads, sleepers[0]) then [t] + sleepers
    else [sleepers[0]] + Insert(threads, sleepers[1..], t, deadline)
  }

  predicate Has(list: seq<nat>, s: nat) {
    s in list
  }

  function Join(queues: seq<seq<nat>>, list: seq<nat>, t: nat): (queues': seq<seq<nat>>)
    ensures |queues'| == |queues|
    ensures forall s :: 0 <= s < |queues| ==> queues'[s] == if Has(list, s) then queues[s] + [t] else queues[s]
  {
    seq(|queues|, s requires 0 <= s < |queues| => if Has(list, s) then queues[s] + [t] else queues[s])
  }

  /** Thread t waits for any semaphore of the list, and until the deadline if there is one. */
  function Block(st: State, t: nat, list: seq<nat>, deadline: nat): State
    requires t < |st.threads|
  {
    st.(queues := Join(st.queues, list, t),
        sleepers := if deadline > 0 then Insert(st.threads, st.sleepers, t, deadline) else st.sleepers,
        threads := st.threads[t := ThreadState(list, deadline, true, 0)],
        log := st.log + [Blocked(t, list, deadline)])
  }

  predicate Below(list: seq<nat>, n: nat) {
    forall i :: 0 <= i < |list| ==> list[i] < n
  }

  /** The first semaphore of the list with a unit left, or the length of the list. */
  function FirstFree(st: State, list: seq<nat>): (i: nat)
    requires |st.counts| == |st.maxes| && Below(list, |st.counts|)
    ensures i <= |list| && (i < |list| ==> st.counts[list[i]] < st.maxes[list[i]])
    ensures forall j :: 0 <= j < i ==> st.counts[list[j]] >= st.maxes[list[j]]
  {
    if list == [] || st.counts[list[0]] < st.maxes[list[0]] then 0 else 1 + FirstFree(st, list[1..])
  }

  datatype Outcome = Acquired(index: nat) | WouldBlock | Waiting

  /** AcquireSemFromMany, up to where the thread is switched away from if it has to wait. */
  function AcquireStep(st: State, t: nat, list: seq<nat>, timeout: int): (State, Outcome)
    requires t < |st.threads| && |st.counts| == |st.maxes| && Below(list, |st.counts|)
  {
    var i := FirstFree(st, list);
    if i < |list| then
      (st.(counts := st.counts[list[i] := st.counts[list[i]] + 1], log := st.log + [Took(t, list[i])]), Acquired(i))
    else if timeout == TIMEOUT_INSTANT then (st, WouldBlock)
    else if timeout == TIMEOUT_INFINITE then (Block(st, t, list, 0), Waiting)
    else
      var deadline := Deadline(st.now, timeout);
      if deadline <= st.now then (st, WouldBlock) else (Block(st, t, list, deadline), Waiting)
  }

  /** Sleeping until a time, if it is not past. */
  function SleepStep(st: State, t: nat, until: nat): State
    requires t < |st.threads|
  {
    if until <= st.now then st else Block(st, t, [], until)
  }

  /** ReleaseSem: hands the unit to whoever has waited longest, or puts it back. */
  function ReleaseStep(st: State, s: nat): State
    requires Sane(st) && s < |st.counts|
  {
    var st := st.(log := st.log + [Gave(s)]);
    if st.counts[s] == st.maxes[s] && st.queues[s] != [] then
      var t := st.queues[s][0];
      HeadWaits(st, s);
      var st := Wake(st, t, -(IndexOf(st.threads[t].waits, s) as int));
      st.(log := st.log + [Took(t, s)])
    else st.(counts := st.counts[s := st.counts[s] - 1])
  }

  /** AbandonSem: wakes everyone waiting for s, in order. */
  function AbandonStep(st: State, s: nat): State
    requires Sane(st) && s < |st.counts|
    decreases if s < |st.queues| then |st.queues[s]| else 0
  {
    if st.queues[s] == [] then st
    else
      var t := st.queues[s][0];
      HeadWaits(st, s);
      WakeSane(st, t, EABANDONED);
      AbandonStep(Wake(st, t, EABANDONED), s)
  }

  /** DoWakeups: wakes everyone whose time has come, earliest first. */
  function ExpireStep(st: State): State
    requires Sane(st)
    decreases |st.sleepers|
  {
    if st.sleepers == [] || st.now < WakeupOf(st.threads, st.sleepers[0]) then st
    else
      var t := st.sleepers[0];
      assert t in st.sleepers;
      WakeSane(st, t, ETIMEDOUT);
      ExpireStep(Wake(st, t, ETIMEDOUT))
  }

  function AdvanceStep(st: State, ns: nat): State
    requires Sane(st)
  {
    ExpireStep(st.(now := st.now + ns))
  }

  // ---- What always holds ----

  predicate OnQueue(queues: seq<seq<nat>>, s: nat, t: nat) {
    s < |queues| && t in queues[s]
  }

  predicate WaitsOn(threads: seq<ThreadState>, t: nat, s: nat) {
    t < |threads| && s in threads[t].waits
  }

  /** A thread is on exactly the queues it waits for, once on each. */
  ghost predicate QueuesSane(queues: seq<seq<nat>>, threads: seq<ThreadState>) {
    && (forall s :: 0 <= s < |queues| ==> Distinct(queues[s]))
    && (forall s: nat, t: nat {:trigger OnQueue(queues, s, t)} {:trigger WaitsOn(threads, t, s)} ::
          OnQueue(queues, s, t) <==> WaitsOn(threads, t, s))
  }

  /** The timer list holds exactly the threads with a wake-up time, in the order of those times. */
  ghost predicate SleepersSane(sleepers: seq<nat>, threads: seq<ThreadState>) {
    && Distinct(sleepers)
    && (forall t :: t in sleepers ==> t < |threads| && threads[t].wakeup > 0)
    && (forall t :: 0 <= t < |threads| && threads[t].wakeup > 0 ==> t in sleepers)
    && InOrder(sleepers, threads)
  }

  ghost predicate InOrder(sleepers: seq<nat>, threads: seq<ThreadState>) {
    forall i, j :: 0 <= i < j < |sleepers| ==> WakeupOf(threads, sleepers[i]) <= WakeupOf(threads, sleepers[j])
  }

  /** Nobody waits while there is a unit to take. */
  ghost predicate CountsSane(st: State) {
    && |st.initial| == |st.counts| == |st.maxes| == |st.queues|
    && forall s :: 0 <= s < |st.counts| ==>
        st.counts[s] <= st.maxes[s] && (st.queues[s] != [] ==> st.counts[s] == st.maxes[s])
  }

  /** A thread is blocked exactly while something is there to wake it. */
  ghost predicate BlockedSane(threads: seq<ThreadState>) {
    forall t :: 0 <= t < |threads| ==> (threads[t].blocked <==> threads[t].waits != [] || threads[t].wakeup > 0)
  }

  ghost predicate Sane(st: State) {
    CountsSane(st) && QueuesSane(st.queues, st.threads) && SleepersSane(st.sleepers, st.threads)
        && BlockedSane(st.threads)
  }

  /** Nobody oversleeps. */
  ghost predicate Punctual(st: State) {
    forall t :: t in st.sleepers ==> st.now < WakeupOf(st.threads, t)
  }

  lemma HeadWaits(st: State, s: nat)
    requires Sane(st) && s < |st.queues| && st.queues[s] != []
    ensures var t := st.queues[s][0]; t < |st.threads| && s in st.threads[t].waits && t in st.queues[s]
  {
    hide Distinct, SleepersSane;
    var t := st.queues[s][0];
    assert t in st.queues[s];
    assert OnQueue(st.queues, s, t);
    assert WaitsOn(st.threads, t, s);
  }

  // ---- Waking ----

  lemma WakeQueues(queues: seq<seq<nat>>, threads: seq<ThreadState>, t: nat, ret: int)
    requires QueuesSane(queues, threads) && t < |threads|
    ensures QueuesSane(Leave(queues, t), threads[t := ThreadState([], 0, false, ret)])
  {
    hide Minus, Distinct;
    var queues', threads' := Leave(queues, t), threads[t := ThreadState([], 0, false, ret)];
    forall s | 0 <= s < |queues|
      ensures Distinct(queues'[s]) && forall x: nat :: x in queues'[s] <==> x in queues[s] && x != t
    {
      MinusMembers(queues[s], t);
    }
    forall s: nat, x: nat
      ensures OnQueue(queues', s, x) <==> WaitsOn(threads', x, s)
    {
      assert OnQueue(queues, s, x) <==> WaitsOn(threads, x, s);
    }
  }

  lemma WakeSleepers(sleepers: seq<nat>, threads: seq<ThreadState>, t: nat, ret: int)
    requires SleepersSane(sleepers, threads) && t < |threads|
    ensures SleepersSane(Minus(sleepers, t), threads[t := ThreadState([], 0, false, ret)])
  {
    MinusMembers(sleepers, t);
    MinusOrder(sleepers, threads, t, ret);
    hide Minus, InOrder;
  }

  lemma {:induction false} MinusOrder(sleepers: seq<nat>, threads: seq<ThreadState>, t: nat, ret: int)
    requires InOrder(sleepers, threads) && Distinct(sleepers) && t < |threads|
    ensures InOrder(Minus(sleepers, t), threads[t := ThreadState([], 0, false, ret)])
  {
    var threads' := threads[t := ThreadState([], 0, false, ret)];
    hide WakeupOf, Minus;
    forall x | x != t ensures WakeupOf(threads', x) == WakeupOf(threads, x) {
      WakeupElsewhere(threads, t, ThreadState([], 0, false, ret), x);
    }
    if t in sleepers {
      var k :| 0 <= k < |sleepers| && sleepers[k] == t;
      MinusAt(sleepers, k);
      OrderWithout(sleepers, threads, threads', k);
    } else {
      MinusNone(sleepers, t);
    }
  }

  lemma WakeupElsewhere(threads: seq<ThreadState>, t: nat, th: ThreadState, x: nat)
    requires t < |threads| && x != t
    ensures WakeupOf(threads[t := th], x) == WakeupOf(threads, x)
  {
  }

  lemma OrderWithout(sleepers: seq<nat>, threads: seq<ThreadState>, threads': seq<ThreadState>, k: nat)
    requires InOrder(sleepers, threads) && Distinct(sleepers) && k < |sleepers|
    requires forall x :: x != sleepers[k] ==> WakeupOf(threads', x) == WakeupOf(threads, x)
    ensures InOrder(sleepers[..k] + sleepers[k + 1..], threads')
  {
    hide WakeupOf;
    var q := sleepers[..k] + sleepers[k + 1..];
    forall i, j | 0 <= i < j < |q|
      ensures WakeupOf(threads', q[i]) <= WakeupOf(threads', q[j])
    {
      var i', j' := if i < k then i else i + 1, if j < k then j else j + 1;
      assert q[i] == sleepers[i'] && q[j] == sleepers[j'];
    }
  }

  /** Waking a thread keeps everything in order. */
  lemma WakeSane(st: State, t: nat, ret: int)
    requires Sane(st) && t < |st.threads|
    ensures Sane(Wake(st, t, ret))
    ensures forall s :: 0 <= s < |st.queues| && t in st.queues[s] ==> |Wake(st, t, ret).queues[s]| < |st.queues[s]|
    ensures t in st.sleepers ==> |Wake(st, t, ret).sleepers| < |st.sleepers|
  {
    WakeQueues(st.queues, st.threads, t, ret);
    WakeSleepers(st.sleepers, st.threads, t, ret);
    hide QueuesSane, SleepersSane, Distinct;
    forall s | 0 <= s < |st.queues|
      ensures t in st.queues[s] ==> |Minus(st.queues[s], t)| < |st.queues[s]|
      ensures Minus(st.queues[s], t) != [] ==> st.queues[s] != []
    {
      MinusLength(st.queues[s], t);
    }
    MinusLength(st.sleepers, t);
    hide Minus;
  }

  lemma {:induction false} MinusLength(q: seq<nat>, t: nat)
    ensures |Minus(q, t)| == if t in q then |q| - 1 else |q|
  {
    if q != [] && q[0] != t {
      MinusLength(q[1..], t);
    }
  }

  // ---- Blocking ----

  /** A list a thread can wait on. */
  predicate Waitable(st: State, list: seq<nat>) {
    Distinct(list) && Below(list, |st.counts|)
  }

  lemma BlockQueues(queues: seq<seq<nat>>, threads: seq<ThreadState>, t: nat, list: seq<nat>, deadline: nat)
    requires QueuesSane(queues, threads) && t < |threads| && threads[t].waits == []
    requires Below(list, |queues|)
    ensures QueuesSane(Join(queues, list, t), threads[t := ThreadState(list, deadline, true, 0)])
  {
    var queues', threads' := Join(queues, list, t), threads[t := ThreadState(list, deadline, true, 0)];
    hide Distinct;
    forall s | 0 <= s < |queues|
      ensures t !in queues[s]
    {
      assert OnQueue(queues, s, t) <==> WaitsOn(threads, t, s);
    }
    forall s | 0 <= s < |queues|
      ensures Distinct(queues'[s])
    {
      DistinctSnoc(queues[s], t);
    }
    forall s: nat, x: nat
      ensures OnQueue(queues', s, x) <==> WaitsOn(threads', x, s)
    {
      assert OnQueue(queues, s, x) <==> WaitsOn(threads, x, s);
      if s < |queues| && Has(list, s) {
        assert queues'[s] == queues[s] + [t] && queues'[s][|queues[s]|] == t;
        assert x in queues'[s] <==> x in queues[s] || x == t;
      }
    }
  }

  lemma DistinctCons(x: nat, q: seq<nat>)
    requires Distinct(q) && x !in q
    ensures Distinct([x] + q)
  {
  }

  lemma {:induction false} InsertMembers(threads: seq<ThreadState>, sleepers: seq<nat>, t: nat, deadline: nat)
    requires Distinct(sleepers) && t !in sleepers
    ensures Distinct(Insert(threads, sleepers, t, deadline))
    ensures forall x :: x in Insert(threads, sleepers, t, deadline) <==> x in sleepers || x == t
  {
    if !(sleepers == [] || deadline < WakeupOf(threads, sleepers[0])) {
      assert sleepers == [sleepers[0]] + sleepers[1..];
      InsertMembers(threads, sleepers[1..], t, deadline);
      DistinctCons(sleepers[0], Insert(threads, sleepers[1..], t, deadline));
    } else {
      DistinctCons(t, sleepers);
    }
  }

  lemma {:induction false} InsertOrder(threads: seq<ThreadState>, threads': seq<ThreadState>, sleepers: seq<nat>,
      t: nat, deadline: nat)
    requires InOrder(sleepers, threads) && Distinct(sleepers) && t !in sleepers && WakeupOf(threads', t) == deadline
    requires forall x :: x != t ==> WakeupOf(threads', x) == WakeupOf(threads, x)
    ensures InOrder(Insert(threads, sleepers, t, deadline), threads')
  {
    hide WakeupOf;
    var q := Insert(threads, sleepers, t, deadline);
    if sleepers == [] || deadline < WakeupOf(threads, sleepers[0]) {
      assert q == [t] + sleepers;
      forall j | 0 <= j < |sleepers| ensures deadline <= WakeupOf(threads, sleepers[j]) {
        assert j > 0 ==> WakeupOf(threads, sleepers[0]) <= WakeupOf(threads, sleepers[j]);
      }
    } else {
      var rest := sleepers[1..];
      assert sleepers == [sleepers[0]] + rest;
      InsertOrder(threads, threads', rest, t, deadline);
      InsertMembers(threads, rest, t, deadline);
      var q' := Insert(threads, rest, t, deadline);
      forall j | 0 <= j < |q'| ensures WakeupOf(threads', sleepers[0]) <= WakeupOf(threads', q'[j]) {
        assert q'[j] in q';
        if q'[j] != t {
          var i :| 0 <= i < |rest| && rest[i] == q'[j];
          assert WakeupOf(threads, sleepers[0]) <= WakeupOf(threads, sleepers[i + 1]);
        }
      }
    }
  }

  /** t is put on the list behind everyone due no later than the deadline, and before everyone due later. */
  predicate PutByTime(threads: seq<ThreadState>, sleepers: seq<nat>, sleepers': seq<nat>, t: nat, deadline: nat) {
    exists k {:trigger PutAt(threads, sleepers, sleepers', t, deadline, k)} ::
      0 <= k <= |sleepers| && PutAt(threads, sleepers, sleepers', t, deadline, k)
  }

  predicate PutAt(threads: seq<ThreadState>, sleepers: seq<nat>, sleepers': seq<nat>, t: nat, deadline: nat, k: nat)
    requires k <= |sleepers|
  {
    && sleepers' == sleepers[..k] + [t] + sleepers[k..]
    && (forall i :: 0 <= i < k ==> WakeupOf(threads, sleepers[i]) <= deadline)
    && (forall i :: k <= i < |sleepers| ==> deadline < WakeupOf(threads, sleepers[i]))
  }

  /** The timer list is kept by time, and of those due together the one who came last is last. */
  lemma {:induction false} InsertExact(threads: seq<ThreadState>, sleepers: seq<nat>, t: nat, deadline: nat)
    requires InOrder(sleepers, threads)
    ensures PutByTime(threads, sleepers, Insert(threads, sleepers, t, deadline), t, deadline)
  {
    var after := Insert(threads, sleepers, t, deadline);
    if sleepers == [] || deadline < WakeupOf(threads, sleepers[0]) {
      assert after == sleepers[..0] + [t] + sleepers[0..];
      forall i | 0 <= i < |sleepers| ensures deadline < WakeupOf(threads, sleepers[i]) {
        assert i > 0 ==> WakeupOf(threads, sleepers[0]) <= WakeupOf(threads, sleepers[i]);
      }
      assert PutAt(threads, sleepers, after, t, deadline, 0);
    } else {
      var rest := sleepers[1..];
      InsertExact(threads, rest, t, deadline);
      var k :| 0 <= k <= |rest| && PutAt(threads, rest, Insert(threads, rest, t, deadline), t, deadline, k);
      PutLater(threads, sleepers, after, t, deadline, k);
    }
  }

  lemma PutLater(threads: seq<ThreadState>, sleepers: seq<nat>, after: seq<nat>, t: nat, deadline: nat, k: nat)
    requires sleepers != [] && WakeupOf(threads, sleepers[0]) <= deadline && k < |sleepers| && |after| > 0
    requires after[0] == sleepers[0] && PutAt(threads, sleepers[1..], after[1..], t, deadline, k)
    ensures PutAt(threads, sleepers, after, t, deadline, k + 1)
  {
    hide WakeupOf;
    assert sleepers[..k + 1] == [sleepers[0]] + sleepers[1..][..k] && sleepers[k + 1..] == sleepers[1..][k..];
    assert after == [after[0]] + after[1..];
    forall i | 0 <= i < k + 1 ensures WakeupOf(threads, sleepers[i]) <= deadline {
      assert i > 0 ==> sleepers[i] == sleepers[1..][i - 1];
    }
    forall i | k + 1 <= i < |sleepers| ensures deadline < WakeupOf(threads, sleepers[i]) {
      assert sleepers[i] == sleepers[1..][i - 1];
    }
  }

  /** A wait puts the thread last on each queue of its list and by its deadline on the timer list, and does nothing to
      anybody else. */
  predicate Waited(st: State, st': State, t: nat, list: seq<nat>, deadline: nat)
    requires t < |st.threads|
  {
    && |st'.threads| == |st.threads| && |st'.queues| == |st.queues|
    && st'.counts == st.counts && st'.maxes == st.maxes && st'.now == st.now
    && (forall s :: 0 <= s < |st.queues| ==> st'.queues[s] == if s in list then st.queues[s] + [t] else st.queues[s])
    && st'.threads[t] == ThreadState(list, deadline, true, 0)
    && (forall x :: 0 <= x < |st.threads| && x != t ==> st'.threads[x] == st.threads[x])
    && if deadline == 0 then st'.sleepers == st.sleepers
       else PutByTime(st.threads, st.sleepers, st'.sleepers, t, deadline)
  }

  lemma BlockExact(st: State, t: nat, list: seq<nat>, deadline: nat)
    requires Sane(st) && t < |st.threads|
    ensures Waited(st, Block(st, t, list, deadline), t, list, deadline)
  {
    InsertExact(st.threads, st.sleepers, t, deadline);
    hide QueuesSane, CountsSane, BlockedSane, Insert, InOrder, PutByTime;
  }

  lemma BlockSleepers(sleepers: seq<nat>, threads: seq<ThreadState>, t: nat, list: seq<nat>, deadline: nat)
    requires SleepersSane(sleepers, threads) && t < |threads| && threads[t].wakeup == 0
    ensures SleepersSane(if deadline > 0 then Insert(threads, sleepers, t, deadline) else sleepers,
                         threads[t := ThreadState(list, deadline, true, 0)])
  {
    var threads' := threads[t := ThreadState(list, deadline, true, 0)];
    if deadline > 0 {
      InsertMembers(threads, sleepers, t, deadline);
      InsertOrder(threads, threads', sleepers, t, deadline);
    }
    hide Insert;
  }

  /** Blocking a running thread keeps everything in order, when nothing it waits for can be taken. */
  lemma BlockSane(st: State, t: nat, list: seq<nat>, deadline: nat)
    requires Sane(st) && t < |st.threads| && !st.threads[t].blocked && Waitable(st, list)
    requires forall s :: s in list ==> st.counts[s] == st.maxes[s]
    requires list != [] || deadline > 0
    ensures Sane(Block(st, t, list, deadline))
  {
    BlockQueues(st.queues, st.threads, t, list, deadline);
    BlockSleepers(st.sleepers, st.threads, t, list, deadline);
    hide QueuesSane, SleepersSane, Insert;
  }

  lemma {:induction false} ExpireSane(st: State)
    requires Sane(st)
    ensures Sane(ExpireStep(st)) && Punctual(ExpireStep(st)) && ExpireStep(st).now == st.now
    decreases |st.sleepers|
  {
    if st.sleepers == [] {
    } else if st.now < WakeupOf(st.threads, st.sleepers[0]) {
      forall t | t in st.sleepers
        ensures st.now < WakeupOf(st.threads, t)
      {
        var j :| 0 <= j < |st.sleepers| && st.sleepers[j] == t;
        assert j > 0 ==> WakeupOf(st.threads, st.sleepers[0]) <= WakeupOf(st.threads, st.sleepers[j]);
      }
    } else {
      var t := st.sleepers[0];
      assert t in st.sleepers;
      WakeSane(st, t, ETIMEDOUT);
      ExpireSane(Wake(st, t, ETIMEDOUT));
    }
  }
}
