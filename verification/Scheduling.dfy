/** The scheduler's own data: an intrusive ready list with a head and a tail, the held thread and the lock count. */
module Scheduling {
  import opened Sequences
  import opened SchedStates
  import opened SchedRuns

  datatype Thread = Thread(status: Status, nextReady: Link, idling: bool, priority: nat, here: bool)

  type Threads = seq<Thread>

  function InfoOf(th: Thread): ThreadInfo {
    ThreadInfo(th.status, th.idling, th.priority, th.here)
  }

  function Infos(threads: Threads): (r: seq<ThreadInfo>)
    ensures |r| == |threads| && forall i :: 0 <= i < |r| ==> r[i] == InfoOf(threads[i])
  {
    seq(|threads|, i requires 0 <= i < |threads| => InfoOf(threads[i]))
  }

  function LinkAt(q: seq<nat>, k: nat): Link {
    if k < |q| then To(q[k]) else Nil
  }

  predicate NextAt(threads: Threads, q: seq<nat>, k: nat)
    requires k < |q|
  {
    q[k] < |threads| && threads[q[k]].nextReady == LinkAt(q, k + 1)
  }

  /** The links spell out the queue, and the tail is its last thread. */
  ghost predicate Chained(threads: Threads, q: seq<nat>, head: Link, tail: Link) {
    && head == LinkAt(q, 0) && tail == (if q == [] then Nil else To(q[|q| - 1]))
    && forall k {:trigger NextAt(threads, q, k)} :: 0 <= k < |q| ==> NextAt(threads, q, k)
  }

  class Scheduler {
    var threads: Threads
    var readyListHead: Link
    var readyListTail: Link
    var currentThread: nat
    var schedPostponed: bool
    var schedPostponedThr: Link
    var schedPreventCount: nat
    var somethingUnblockedSeq: nat
    var ogSeq: nat

    ghost var ready: seq<nat>

    ghost function View(): State
      reads this
    {
      State(Infos(threads), ready, currentThread, schedPostponed, schedPostponedThr, schedPreventCount,
            somethingUnblockedSeq, ogSeq)
    }

    ghost predicate Linked()
      reads this`threads, this`ready, this`readyListHead, this`readyListTail
    {
      Chained(threads, ready, readyListHead, readyListTail)
    }

    ghost predicate Valid()
      reads this
    {
      Linked() && Inv(View())
    }

    /** The first thread. */
    constructor (priority: nat)
      ensures Valid() && Initial(View()) && View().threads[0].priority == priority
    {
      threads := [Thread(Running, Nil, false, priority, true)];
      readyListHead, readyListTail, currentThread := Nil, Nil, 0;
      schedPostponed, schedPostponedThr, schedPreventCount := false, Nil, 0;
      somethingUnblockedSeq, ogSeq, ready := 0, 0, [];
      new;
      InitialInv(View());
      hide Inv;
    }

    // ---- The ready list ----

    /** Removes the first queued thread that may run here. */
    method FindNextThread() returns (thr: Link)
      requires Linked() && Distinct(ready)
      modifies this`threads, this`ready, this`readyListHead, this`readyListTail
      ensures Linked() && |threads| == |old(threads)|
      ensures var k := FirstHere(Infos(old(threads)), old(ready));
              && thr == LinkAt(old(ready), k) && Infos(threads) == Infos(old(threads))
              && ready == if k < |old(ready)| then Without(old(ready), k) else old(ready)
    {
      hide Chained, Infos, Distinct;
      ghost var k := 0;
      var prev := Nil;
      thr := readyListHead;
      ChainedAt(threads, ready, readyListHead, readyListTail, 0);
      while thr != Nil
        invariant Linked() && threads == old(threads) && ready == old(ready)
        invariant k <= |ready| && thr == LinkAt(ready, k) && prev == (if k == 0 then Nil else To(ready[k - 1]))
        invariant forall j :: 0 <= j < k ==> !Here(Infos(threads), ready[j])
        decreases |ready| - k
      {
        ChainedAt(threads, ready, readyListHead, readyListTail, k);
        InfoAt(threads, thr.thr);
        if threads[thr.thr].here {
          FirstFound(Infos(threads), ready, k);
          UnlinkAt(k, prev, thr.thr);
          return;
        }
        prev := thr;
        thr := threads[thr.thr].nextReady;
        k := k + 1;
      }
      FirstFound(Infos(threads), ready, k);
    }

    /** Unlinks a thread, given the one before it. */
    method UnlinkAt(ghost k: nat, prev: Link, thr: nat)
      requires Linked() && Distinct(ready) && k < |ready| && thr == ready[k]
      requires prev == if k == 0 then Nil else To(ready[k - 1])
      modifies this`threads, this`ready, this`readyListHead, this`readyListTail
      ensures Linked() && |threads| == |old(threads)| && Infos(threads) == Infos(old(threads))
      ensures ready == Without(old(ready), k)
    {
      hide Chained, Infos, Distinct;
      ghost var threads0, q := threads, ready;
      ChainedAt(threads, q, readyListHead, readyListTail, k);
      if prev == Nil {
        readyListHead := threads[thr].nextReady;
      } else {
        ChainedAt(threads, q, readyListHead, readyListTail, k - 1);
        DistinctPair(q, k - 1, k);
        threads := threads[prev.thr := threads[prev.thr].(nextReady := threads[thr].nextReady)];
      }
      TailIs(q, k, readyListTail);
      if readyListTail == To(thr) {
        readyListTail := prev;
      }
      threads := threads[thr := threads[thr].(nextReady := Nil)];
      ready := Without(q, k);
      ChainedWithout(threads0, threads, q, old(readyListHead), old(readyListTail), k);
      SameInfos(threads0, threads);
    }

    method AddToBackOfReadyQueue(thr: nat)
      requires Linked() && Distinct(ready) && thr < |threads| && thr !in ready
      modifies this`threads, this`ready, this`readyListHead, this`readyListTail
      ensures Linked() && ready == old(ready) + [thr] && Infos(threads) == SetStatus(Infos(old(threads)), thr, Ready)
      ensures |threads| == |old(threads)|
    {
      hide Chained, Infos, Distinct;
      ghost var threads0, q := threads, ready;
      ChainedAt(threads, q, readyListHead, readyListTail, if q == [] then 0 else |q| - 1);
      threads := threads[thr := threads[thr].(status := Ready, nextReady := Nil)];
      if readyListTail != Nil {
        threads := threads[readyListTail.thr := threads[readyListTail.thr].(nextReady := To(thr))];
      }
      readyListTail := To(thr);
      if readyListHead == Nil {
        readyListHead := To(thr);
      }
      ready := q + [thr];
      ChainedSnoc(threads0, threads, q, old(readyListHead), old(readyListTail), thr);
      StatusInfos(threads0, threads, thr, Ready);
    }

    // ---- The lock ----

    method AcquireScheduler()
      requires Linked()
      modifies this`schedPreventCount
      ensures Linked() && View() == AcquireStep(old(View())) && (old(Valid()) ==> Valid())
    {
      hide Chained, Inv;
      if Inv(View()) { AcquireKeeps(View()); }
      schedPreventCount := schedPreventCount + 1;
    }

    method ReleaseScheduler()
      requires Linked() && schedPreventCount > 0 && (schedPreventCount == 1 ==> Valid())
      requires currentThread < |threads| && (schedPostponedThr.To? ==> schedPostponedThr.thr < |threads|)
      modifies this
      ensures Linked() && View() == ReleaseStep(old(View())) && (old(Valid()) ==> Valid())
    {
      hide Chained, Inv, Infos, SwitchStep;
      ghost var st := View();
      if Inv(st) {
        ReleaseKeeps(st);
        InvFacts(st);
      }
      InfoAt(threads, currentThread);
      schedPreventCount := schedPreventCount - 1;
      var zero := schedPreventCount == 0;
      if zero && schedPostponed {
        schedPostponed := false;
        var thr := schedPostponedThr;
        schedPostponedThr := Nil;
        if threads[currentThread].idling {
          if thr != Nil {
            AddToBackOfReadyQueue(thr.thr);
            somethingUnblockedSeq := somethingUnblockedSeq + 1;
          }
        } else {
          SwitchToThread(thr);
        }
      }
    }

    /** Switches to a thread that is on no queue, or to the next one; parks the CPU if there is none. */
    method SwitchToThread(thr: Link)
      requires Linked() && Distinct(ready) && schedPreventCount == 0 && currentThread < |threads|
      requires threads[currentThread].here && !threads[currentThread].idling
      requires thr.To? ==> thr.thr < |threads| && thr.thr != currentThread && thr.thr !in ready && threads[thr.thr].here
      requires threads[currentThread].status == Running ==> currentThread !in ready
      requires threads[currentThread].status == Ready ==> currentThread in ready
      modifies this`threads, this`ready, this`readyListHead, this`readyListTail, this`currentThread, this`ogSeq
      ensures Linked() && View() == SwitchStep(old(View()), thr)
    {
      hide Chained, Infos, Distinct;
      ghost var st := View();
      InfoAt(threads, currentThread);
      HeadIs(threads, ready, readyListHead, readyListTail);
      if threads[currentThread].status == Running {
        if readyListHead == Nil && thr == Nil {
          return;
        }
        EndDistinct(ready, currentThread);
        AddToBackOfReadyQueue(currentThread);
        InfoAt(threads, currentThread);
      }
      if thr == Nil {
        SwitchToNextThread();
      } else {
        RunThread(thr.thr);
      }
    }

    /** Runs the first queued thread that may run here, or parks the CPU on the current thread's stack. */
    method SwitchToNextThread()
      requires Linked() && Distinct(ready) && currentThread < |threads| && threads[currentThread].here
      requires threads[currentThread].status != Running
          && (threads[currentThread].status == Ready ==> currentThread in ready)
      modifies this`threads, this`ready, this`readyListHead, this`readyListTail, this`currentThread, this`ogSeq
      ensures Linked() && View() == SwitchToNext(old(View()))
    {
      hide Chained, Infos, Distinct;
      ghost var st1 := View();
      InfoAt(threads, currentThread);
      var next := FindNextThread();
      if next != Nil {
        DistinctWithout(st1.ready, FirstHere(st1.threads, st1.ready));
        RunThread(next.thr);
      } else {
        // Only a stopped thread's stack can be parked on: any other current thread was on the queue.
        assert st1.threads[currentThread].status == Stopped by { NoneHere(st1); }
        SetIdle(true);
        ogSeq := somethingUnblockedSeq;
      }
    }

    /** Marks the current thread as idling on its stack, or as back from it. */
    method SetIdle(idling: bool)
      requires Linked() && currentThread < |threads|
      modifies this`threads
      ensures Linked() && View() == old(View()).(threads := SetIdling(old(View()).threads, currentThread, idling))
    {
      hide Chained, Infos;
      ghost var threads0 := threads;
      threads := threads[currentThread := threads[currentThread].(idling := idling)];
      ChainedSame(threads0, threads, ready, readyListHead, readyListTail);
      IdlingInfos(threads0, threads, currentThread, idling);
    }

    /** Makes a thread that is on no queue the running one. */
    method RunThread(thr: nat)
      requires Linked() && thr < |threads| && thr !in ready
      modifies this`threads, this`currentThread
      ensures Linked() && View() == RunNow(old(View()), thr)
    {
      hide Chained, Infos;
      ghost var threads0 := threads;
      currentThread := thr;
      threads := threads[thr := threads[thr].(status := Running, nextReady := Nil)];
      ChainedOther(threads0, threads, ready, readyListHead, readyListTail, thr);
      StatusInfos(threads0, threads, thr, Running);
    }

    // ---- Blocking and waking ----

    /** Gives the CPU away, now or once the lock is free. The current thread may just have stopped. */
    method Schedule()
      requires Linked() && (schedPreventCount == 0 ==> Inv(AcquireStep(View()).(postponed := true)))
      requires currentThread < |threads| && (schedPostponedThr.To? ==> schedPostponedThr.thr < |threads|)
      modifies this
      ensures Linked() && View() == ScheduleStep(old(View()))
      ensures old(Inv(AcquireStep(View()).(postponed := true))) ==> Valid()
    {
      hide Chained, Inv, Infos, ReleaseStep;
      AcquireScheduler();
      schedPostponed := true;
      ReleaseScheduler();
    }

    /** The lock is held, so the CPU is not given away yet. What holds is kept exactly if the thread is not ready. */
    method BlockThread()
      requires Valid() && schedPreventCount > 0 && currentThread < |threads|
      modifies this
      ensures Linked() && View() == BlockStep(old(View()))
      ensures old(threads[currentThread].status != Ready) ==> Valid()
      ensures old(threads[currentThread].status == Ready && !threads[currentThread].idling) ==> !Valid()
    {
      hide Chained, Inv, Infos;
      ghost var st, threads0 := View(), threads;
      InfoAt(threads, currentThread);
      InvFacts(st);
      if !threads[currentThread].idling {
        BlockKeepsIff(st);
      } else if threads[currentThread].status != Ready {
        BlockKeeps(st);
      }
      threads := threads[currentThread := threads[currentThread].(status := Stopped)];
      ChainedSame(threads0, threads, ready, readyListHead, readyListTail);
      StatusInfos(threads0, threads, currentThread, Stopped);
      StoppedIs(st);
      Schedule();
    }

    method ShouldPreemptNow(thr: nat) returns (preempt: bool)
      requires thr < |threads| && currentThread < |threads| && Linked()
      ensures preempt == ShouldPreempt(View(), thr)
    {
      hide Chained, Infos;
      InfoAt(threads, thr);
      InfoAt(threads, currentThread);
      HeadIs(threads, ready, readyListHead, readyListTail);
      if threads[currentThread].status != Running {
        return false;
      }
      if !threads[thr].here {
        return false;
      }
      return readyListHead == Nil || threads[thr].priority < threads[currentThread].priority;
    }

    /** The scheduler's half of waking a stopped thread. */
    method UnblockThread(thr: nat)
      requires Valid() && schedPreventCount > 0 && thr < |threads| && threads[thr].status == Stopped
      modifies this
      ensures Valid() && View() == UnblockStep(old(View()), thr)
    {
      hide Chained, Inv, Infos, ShouldPreempt, SetStatus;
      ghost var st, threads0 := View(), threads;
      InfoAt(threads, thr);
      UnblockKeeps(st, thr);
      InvFacts(st);
      StoppedAway(st, thr);
      threads := threads[thr := threads[thr].(nextReady := Nil, status := Ready)];
      ChainedOther(threads0, threads, ready, readyListHead, readyListTail, thr);
      StatusInfos(threads0, threads, thr, Ready);
      InfoAt(threads, thr);
      PokeLater(st, thr);
      if threads[thr].idling {
        somethingUnblockedSeq := somethingUnblockedSeq + 1;
        return;
      }
      var preempt := ShouldPreemptNow(thr);
      if preempt {
        schedPostponed := true;
        if schedPostponedThr == Nil {
          schedPostponedThr := To(thr);
        } else {
          InfoAt(threads, schedPostponedThr.thr);
          if threads[thr].priority < threads[schedPostponedThr.thr].priority {
            AddToBackOfReadyQueue(schedPostponedThr.thr);
            schedPostponedThr := To(thr);
          } else {
            AddToBackOfReadyQueue(thr);
          }
        }
      } else {
        AddToBackOfReadyQueue(thr);
      }
      somethingUnblockedSeq := somethingUnblockedSeq + 1;
    }

    /** One turn of the idle loop, once the poke count has moved. */
    method IdleUntilRunnableTurn()
      requires Valid() && schedPreventCount == 0 && currentThread < |threads| && threads[currentThread].idling
      requires somethingUnblockedSeq != ogSeq
      modifies this
      ensures Valid() && View() == IdleStep(old(View()))
    {
      hide Chained, Inv, Infos;
      ghost var st := View();
      InfoAt(threads, currentThread);
      IdleKeeps(st);
      InvFacts(st);
      StoppedAway(st, currentThread);
      if threads[currentThread].status == Ready {
        SetIdle(false);
        RunThread(currentThread);
      } else {
        var thr := FindNextThread();
        if thr != Nil {
          FoundAway(st, FirstHere(st.threads, st.ready));
          SetIdle(false);
          RunThread(thr.thr);
        } else {
          ogSeq := somethingUnblockedSeq;
        }
      }
    }

    /** CreateThread, up to where the new thread is unblocked. */
    method CreateThread(priority: nat, here: bool) returns (thr: nat)
      requires Valid()
      modifies this`threads
      ensures Valid() && View() == SpawnStep(old(View()), priority, here) && thr == |old(threads)|
    {
      hide Chained, Inv;
      SpawnKeeps(View(), priority, here);
      thr := |threads|;
      ghost var threads0 := threads;
      threads := threads + [Thread(Stopped, Nil, false, priority, here)];
      ChainedMore(threads0, threads, ready, readyListHead, readyListTail);
      assert Infos(threads) == Infos(threads0) + [ThreadInfo(Stopped, false, priority, here)];
    }

    method SetThreadPriority(thr: nat, priority: nat)
      requires Valid() && thr < |threads|
      modifies this`threads
      ensures Valid() && View() == PriorityStep(old(View()), thr, priority)
    {
      hide Chained, Inv;
      PriorityKeeps(View(), thr, priority);
      ghost var threads0 := threads;
      threads := threads[thr := threads[thr].(priority := priority)];
      ChainedSame(threads0, threads, ready, readyListHead, readyListTail);
      assert Infos(threads) == Infos(threads0)[thr := Infos(threads0)[thr].(priority := priority)];
    }
  }

  // ---- The links ----

  lemma ChainedAt(threads: Threads, q: seq<nat>, head: Link, tail: Link, k: nat)
    requires Chained(threads, q, head, tail)
    ensures head == LinkAt(q, 0) && tail == (if q == [] then Nil else To(q[|q| - 1]))
    ensures k < |q| ==> q[k] < |threads| && threads[q[k]].nextReady == LinkAt(q, k + 1) && NextAt(threads, q, k)
  {
    if k < |q| {
      assert NextAt(threads, q, k);
    }
  }

  lemma HeadIs(threads: Threads, q: seq<nat>, head: Link, tail: Link)
    requires Chained(threads, q, head, tail)
    ensures head == Nil <==> q == []
  {
  }

  lemma InfoAt(threads: Threads, t: nat)
    ensures |Infos(threads)| == |threads|
    ensures t < |threads| ==> Infos(threads)[t] == InfoOf(threads[t])
  {
  }

  lemma TailIs(q: seq<nat>, k: nat, tail: Link)
    requires Distinct(q) && k < |q| && tail == To(q[|q| - 1])
    ensures tail == To(q[k]) <==> k == |q| - 1
  {
    if k != |q| - 1 {
      DistinctPair(q, k, |q| - 1);
    }
  }

  lemma ChainedWithout(threads: Threads, threads': Threads, q: seq<nat>, head: Link, tail: Link, k: nat)
    requires Chained(threads, q, head, tail) && Distinct(q) && k < |q| && |threads'| == |threads| && q[k] < |threads|
    requires k > 0 ==> q[k - 1] < |threads| && threads'[q[k - 1]].nextReady == threads[q[k]].nextReady
    requires forall t :: 0 <= t < |threads| && t != q[k] && (k > 0 ==> t != q[k - 1]) ==> threads'[t] == threads[t]
    ensures Chained(threads', Without(q, k), if k == 0 then threads[q[k]].nextReady else head,
                    if k < |q| - 1 then tail else if k == 0 then Nil else To(q[k - 1]))
  {
    var w := Without(q, k);
    ChainedAt(threads, q, head, tail, k);
    forall j | 0 <= j < |w|
      ensures NextAt(threads', w, j)
    {
      var j' := if j < k then j else j + 1;
      ChainedAt(threads, q, head, tail, j');
      DistinctPair(q, j', k);
      if k > 0 && j' != k - 1 { DistinctPair(q, j', k - 1); }
    }
  }

  lemma ChainedSnoc(threads: Threads, threads': Threads, q: seq<nat>, head: Link, tail: Link, t: nat)
    requires Chained(threads, q, head, tail) && Distinct(q) && t < |threads| == |threads'| && t !in q
    requires threads'[t].nextReady == Nil
    requires q != [] ==> q[|q| - 1] < |threads| && threads'[q[|q| - 1]].nextReady == To(t)
    requires forall x :: 0 <= x < |threads| && x != t && (q != [] ==> x != q[|q| - 1]) ==>
        threads'[x].nextReady == threads[x].nextReady
    ensures Chained(threads', q + [t], if q == [] then To(t) else head, To(t))
  {
    var more := q + [t];
    forall k | 0 <= k < |more|
      ensures NextAt(threads', more, k)
    {
      if k < |q| {
        ChainedAt(threads, q, head, tail, k);
        assert q[k] in q;
        if k < |q| - 1 { DistinctPair(q, k, |q| - 1); }
      }
    }
  }

  lemma ChainedOther(threads: Threads, threads': Threads, q: seq<nat>, head: Link, tail: Link, t: nat)
    requires Chained(threads, q, head, tail) && t !in q && |threads'| == |threads|
    requires forall x :: 0 <= x < |threads| && x != t ==> threads'[x] == threads[x]
    ensures Chained(threads', q, head, tail)
  {
    forall k | 0 <= k < |q|
      ensures NextAt(threads', q, k)
    {
      ChainedAt(threads, q, head, tail, k);
      assert q[k] in q;
    }
  }

  lemma ChainedSame(threads: Threads, threads': Threads, q: seq<nat>, head: Link, tail: Link)
    requires Chained(threads, q, head, tail) && |threads'| == |threads|
    requires forall x :: 0 <= x < |threads| ==> threads'[x].nextReady == threads[x].nextReady
    ensures Chained(threads', q, head, tail)
  {
    forall k | 0 <= k < |q|
      ensures NextAt(threads', q, k)
    {
      ChainedAt(threads, q, head, tail, k);
    }
  }

  lemma ChainedMore(threads: Threads, threads': Threads, q: seq<nat>, head: Link, tail: Link)
    requires Chained(threads, q, head, tail) && threads <= threads'
    ensures Chained(threads', q, head, tail)
  {
    forall k | 0 <= k < |q|
      ensures NextAt(threads', q, k)
    {
      ChainedAt(threads, q, head, tail, k);
    }
  }

  // ---- What the records stand for ----

  lemma SameInfos(threads: Threads, threads': Threads)
    requires |threads'| == |threads|
    requires forall t :: 0 <= t < |threads| ==> threads'[t] == threads[t].(nextReady := threads'[t].nextReady)
    ensures Infos(threads') == Infos(threads)
  {
  }

  lemma StatusInfos(threads: Threads, threads': Threads, thr: nat, status: Status)
    requires thr < |threads| == |threads'|
    requires forall t :: 0 <= t < |threads| && t != thr ==>
        threads'[t] == threads[t].(nextReady := threads'[t].nextReady)
    requires threads'[thr] == threads[thr].(status := status, nextReady := threads'[thr].nextReady)
    ensures thr < |Infos(threads)| && Infos(threads') == SetStatus(Infos(threads), thr, status)
  {
  }

  lemma IdlingInfos(threads: Threads, threads': Threads, thr: nat, idling: bool)
    requires thr < |threads| && threads' == threads[thr := threads[thr].(idling := idling)]
    ensures thr < |Infos(threads)| && Infos(threads') == SetIdling(Infos(threads), thr, idling)
  {
  }

  // ---- What the invariant says to one operation ----

  lemma InvFacts(st: State)
    requires Inv(st)
    ensures Distinct(st.ready) && st.current < |st.threads| && st.threads[st.current].here
    ensures st.threads[st.current].status == Running ==> st.current !in st.ready && !st.threads[st.current].idling
    ensures st.threads[st.current].status == Ready && !st.threads[st.current].idling ==> st.current in st.ready
    ensures st.held.To? ==>
              var t := st.held.thr;
              t < |st.threads| && t != st.current && t !in st.ready && st.threads[t].here && !st.threads[t].idling
  {
    hide Distinct, NoLostWakeup;
    assert Placed(st, st.current);
    if st.held.To? {
      assert Placed(st, st.held.thr);
    }
  }

  lemma StoppedAway(st: State, t: nat)
    requires Inv(st) && t < |st.threads| && (st.threads[t].status == Stopped || st.threads[t].idling)
    ensures t !in st.ready && st.held != To(t)
  {
    hide Distinct, NoLostWakeup;
    assert Placed(st, t);
  }

  lemma FoundAway(st: State, k: nat)
    requires Inv(st) && k < |st.ready| && st.threads[st.current].idling
    ensures st.ready[k] !in Without(st.ready, k) && st.ready[k] != st.current && st.ready[k] < |st.threads|
  {
    DistinctWithout(st.ready, k);
    hide Distinct, NoLostWakeup, Without;
    assert Placed(st, st.current);
  }

  /** Blocking is a stop and a Schedule that does not get through, since the lock is held. */
  lemma StoppedIs(st: State)
    requires Inv(st) && st.prevent > 0
    ensures var st1 := st.(threads := SetStatus(st.threads, st.current, Stopped));
            ScheduleStep(st1) == BlockStep(st)
  {
  }

  lemma PokeLater(st: State, t: nat)
    requires Inv(st) && t < |st.threads|
    ensures var now := st.(threads := SetStatus(st.threads, t, Ready));
            ShouldPreempt(now, t) == ShouldPreempt(now.(pokes := st.pokes + 1), t)
    ensures t < |SetStatus(st.threads, t, Ready)| == |st.threads|
    ensures SetStatus(st.threads, t, Ready)[t] == st.threads[t].(status := Ready)
  {
  }

  lemma EndDistinct(q: seq<nat>, t: nat)
    requires Distinct(q) && t !in q
    ensures Distinct(q + [t])
  {
  }

  /** If nothing queued may run here, the current thread is not queued, so it has stopped. */
  lemma NoneHere(st: State)
    requires st.current < |st.threads| && st.threads[st.current].here && FirstHere(st.threads, st.ready) == |st.ready|
    requires st.threads[st.current].status != Running
    requires st.threads[st.current].status == Ready ==> st.current in st.ready
    ensures st.threads[st.current].status == Stopped
  {
  }
}
