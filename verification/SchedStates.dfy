/** The single-CPU scheduler on whole states: where every thread is, and what each operation does about it. */
module SchedStates {
  import opened Sequences

  datatype Link = Nil | To(thr: nat)

  datatype Status = Running | Ready | Stopped

  /** `here`: the thread's affinity includes this CPU. */
  datatype ThreadInfo = ThreadInfo(status: Status, idling: bool, priority: nat, here: bool)

  /** `held` is the thread that preempts once the lock is free; `ogSeq` is the poke count the idle loop last read. */
  datatype State = State(
    threads: seq<ThreadInfo>, ready: seq<nat>, current: nat, postponed: bool, held: Link, prevent: nat, pokes: nat,
    ogSeq: nat)

  // ---- Steps ----

  function SetStatus(threads: seq<ThreadInfo>, t: nat, status: Status): seq<ThreadInfo>
    requires t < |threads|
  {
    threads[t := threads[t].(status := status)]
  }

  function SetIdling(threads: seq<ThreadInfo>, t: nat, idling: bool): seq<ThreadInfo>
    requires t < |threads|
  {
    threads[t := threads[t].(idling := idling)]
  }

  function Enqueue(st: State, t: nat): State
    requires t < |st.threads|
  {
    st.(ready := st.ready + [t], threads := SetStatus(st.threads, t, Ready))
  }

  predicate Here(threads: seq<ThreadInfo>, t: nat) {
    t < |threads| && threads[t].here
  }

  /** The position of the first queued thread that may run here, or the length of the queue. */
  function FirstHere(threads: seq<ThreadInfo>, ready: seq<nat>): (k: nat)
    ensures k <= |ready| && (k < |ready| ==> Here(threads, ready[k]))
    ensures forall j :: 0 <= j < k ==> !Here(threads, ready[j])
  {
    if ready == [] || Here(threads, ready[0]) then 0 else 1 + FirstHere(threads, ready[1..])
  }

  /** Thread t, which is on no queue, runs. */
  function RunNow(st: State, t: nat): State
    requires t < |st.threads|
  {
    st.(current := t, threads := SetStatus(st.threads, t, Running))
  }

  /** Runs the first queued thread that may run here; without one, parks the CPU on the current thread. */
  function SwitchToNext(st: State): State
    requires st.current < |st.threads|
  {
    var k := FirstHere(st.threads, st.ready);
    if k < |st.ready| then RunNow(st.(ready := Without(st.ready, k)), st.ready[k])
    else st.(threads := SetIdling(st.threads, st.current, true), ogSeq := st.pokes)
  }

  /** SwitchToThread, up to where the CPU is parked if nothing can run. */
  function SwitchStep(st: State, thr: Link): State
    requires st.current < |st.threads| && (thr.To? ==> thr.thr < |st.threads|)
  {
    if st.threads[st.current].status == Running && st.ready == [] && thr == Nil then st
    else
      var st := if st.threads[st.current].status == Running then Enqueue(st, st.current) else st;
      if thr == Nil then SwitchToNext(st) else RunNow(st, thr.thr)
  }

  function AcquireStep(st: State): State {
    st.(prevent := st.prevent + 1)
  }

  /** ReleaseScheduler: the outermost release carries out what was postponed. */
  function ReleaseStep(st: State): State
    requires st.prevent > 0 && st.current < |st.threads| && (st.held.To? ==> st.held.thr < |st.threads|)
  {
    var st := st.(prevent := st.prevent - 1);
    if st.prevent == 0 && st.postponed then
      var thr := st.held;
      var st := st.(postponed := false, held := Nil);
      if st.threads[st.current].idling then
        if thr == Nil then st else Enqueue(st, thr.thr).(pokes := st.pokes + 1)
      else SwitchStep(st, thr)
    else st
  }

  /** BlockThread: the current thread stops, and will be switched away from when the lock is free. */
  function BlockStep(st: State): State
    requires st.current < |st.threads|
  {
    st.(threads := SetStatus(st.threads, st.current, Stopped), postponed := true)
  }

  /** Schedule: gives the CPU away if the lock is free, and as soon as it is if not. */
  function ScheduleStep(st: State): State
    requires st.current < |st.threads| && (st.held.To? ==> st.held.thr < |st.threads|)
  {
    ReleaseStep(AcquireStep(st).(postponed := true))
  }

  predicate ShouldPreempt(st: State, t: nat)
    requires t < |st.threads| && st.current < |st.threads|
  {
    && st.threads[st.current].status == Running && st.threads[t].here
    && (st.ready == [] || st.threads[t].priority < st.threads[st.current].priority)
  }

  /** The scheduler's half of UnblockThread. */
  function UnblockStep(st: State, t: nat): State
    requires t < |st.threads| && st.current < |st.threads| && (st.held.To? ==> st.held.thr < |st.threads|)
  {
    var st := st.(threads := SetStatus(st.threads, t, Ready), pokes := st.pokes + 1);
    if st.threads[t].idling then st
    else if !ShouldPreempt(st, t) then Enqueue(st, t)
    else
      var st := st.(postponed := true);
      if st.held == Nil then st.(held := To(t))
      else if st.threads[t].priority < st.threads[st.held.thr].priority then Enqueue(st, st.held.thr).(held := To(t))
      else Enqueue(st, t)
  }

  /** One turn of the idle loop, after something was unblocked. */
  function IdleStep(st: State): State
    requires st.current < |st.threads|
  {
    if st.threads[st.current].status == Ready then
      RunNow(st.(threads := SetIdling(st.threads, st.current, false)), st.current)
    else
      var k := FirstHere(st.threads, st.ready);
      if k < |st.ready| then
        RunNow(st.(ready := Without(st.ready, k), threads := SetIdling(st.threads, st.current, false)), st.ready[k])
      else st.(ogSeq := st.pokes)
  }

  function SpawnStep(st: State, priority: nat, here: bool): State {
    st.(threads := st.threads + [ThreadInfo(Stopped, false, priority, here)])
  }

  function PriorityStep(st: State, t: nat, priority: nat): State
    requires t < |st.threads|
  {
    st.(threads := st.threads[t := st.threads[t].(priority := priority)])
  }

  // ---- What always holds ----

  /** Thread t is where its status says, and nowhere else. */
  predicate Placed(st: State, t: nat)
    requires t < |st.threads|
  {
    var th := st.threads[t];
    var queued, held := t in st.ready, st.held == To(t);
    if t == st.current then
      match th.status
      case Running => !queued && !held && !th.idling
      case Stopped => !queued && !held
      case Ready => !held && (queued <==> !th.idling)
    else
      && !th.idling
      && match th.status
         case Running => false
         case Stopped => !queued && !held
         case Ready => queued != held
  }

  ghost predicate AllPlaced(st: State) {
    forall t {:trigger Placed(st, t)} :: 0 <= t < |st.threads| ==> Placed(st, t)
  }

  ghost predicate QueueSane(st: State) {
    Distinct(st.ready) && forall i :: 0 <= i < |st.ready| ==> st.ready[i] < |st.threads|
  }

  /** A postponed switch is only pending while the lock is held; otherwise this CPU runs its thread, or is parked. */
  predicate LockSane(st: State) {
    && st.current < |st.threads| && st.threads[st.current].here
    && (st.held.To? ==> st.postponed && Here(st.threads, st.held.thr))
    && (st.prevent == 0 ==> !st.postponed)
    && (st.threads[st.current].idling ==> st.held == Nil)
    && (!st.threads[st.current].idling && st.threads[st.current].status != Running ==> st.postponed)
  }

  /** A parked CPU that has not been poked since it looked has nothing to run. */
  ghost predicate NoLostWakeup(st: State) {
    st.current < |st.threads| && (
      st.threads[st.current].idling ==>
        && st.ogSeq <= st.pokes
        && (st.pokes == st.ogSeq ==>
              st.threads[st.current].status == Stopped
              && forall i :: 0 <= i < |st.ready| ==> !Here(st.threads, st.ready[i])))
  }

  ghost predicate Inv(st: State) {
    QueueSane(st) && LockSane(st) && AllPlaced(st) && NoLostWakeup(st)
  }
}
