/** The blocking core's own data: semaphores, threads and clots linked into queues, and the timer list. */
module Blocking {
  import opened Sequences
  import opened WaitQueues
  import opened WaitStates
  import opened WaitRuns

  // ---- What the records stand for ----

  function StateOf(th: Thread): ThreadState {
    ThreadState(WaitSet(th), th.wakeupTime, th.blocked, th.blockReturn)
  }

  function States(threads: Threads): (r: seq<ThreadState>)
    ensures |r| == |threads| && forall i :: 0 <= i < |r| ==> r[i] == StateOf(threads[i])
  {
    seq(|threads|, i requires 0 <= i < |threads| => StateOf(threads[i]))
  }

  function Counts(sems: seq<Sem>): (r: seq<int>)
    ensures |r| == |sems| && forall i :: 0 <= i < |r| ==> r[i] == sems[i].count
  {
    seq(|sems|, i requires 0 <= i < |sems| => sems[i].count)
  }

  function Maxes(sems: seq<Sem>): (r: seq<int>)
    ensures |r| == |sems| && forall i :: 0 <= i < |r| ==> r[i] == sems[i].max
  {
    seq(|sems|, i requires 0 <= i < |sems| => sems[i].max)
  }

  /** Every semaphore's links spell out its queue. */
  ghost predicate AllQueued(threads: Threads, sems: seq<Sem>, queues: seq<seq<nat>>) {
    |queues| == |sems| && forall s {:trigger queues[s]} :: 0 <= s < |sems| ==> Queued(threads, sems[s], s, queues[s])
  }

  predicate ClotsOk(threads: Threads) {
    forall t :: 0 <= t < |threads| ==> ClotOk(threads[t])
  }

  function SleeperAt(sleepers: seq<nat>, k: nat): Sleeper {
    if k < |sleepers| then Sleeper(sleepers[k]) else NoSleeper
  }

  predicate TimerLinkAt(threads: Threads, sleepers: seq<nat>, k: nat)
    requires k < |sleepers|
  {
    sleepers[k] < |threads| && threads[sleepers[k]].nextWaitingTimer == SleeperAt(sleepers, k + 1)
  }

  /** The timer list's links spell out its threads. */
  predicate TimerLinked(threads: Threads, sleepers: seq<nat>, first: Sleeper) {
    && first == SleeperAt(sleepers, 0)
    && forall k {:trigger TimerLinkAt(threads, sleepers, k)} :: 0 <= k < |sleepers| ==>
        TimerLinkAt(threads, sleepers, k)
  }

  function EarliestOf(threads: Threads, sleepers: seq<nat>): nat {
    if sleepers != [] && sleepers[0] < |threads| then threads[sleepers[0]].wakeupTime else 0
  }

  /** Only the queue links of a thread may differ. */
  predicate LinksOnly(th: Thread, th': Thread) {
    th' == th.(waitingOn := th'.waitingOn, nextWaitingSem := th'.nextWaitingSem) && WaitSet(th') == WaitSet(th)
  }

  ghost predicate ThreadsKept(threads: Threads, threads': Threads) {
    |threads'| == |threads| && forall t :: 0 <= t < |threads| ==> LinksOnly(threads[t], threads'[t])
  }

  predicate SameCounts(sems: seq<Sem>, sems': seq<Sem>) {
    |sems'| == |sems| && forall s :: 0 <= s < |sems| ==> sems'[s].count == sems[s].count && sems'[s].max == sems[s].max
  }

  class BlockingCore {
    var sems: seq<Sem>
    var threads: Threads
    var nsSinceBoot: nat
    var nextWakeupNs: nat
    var firstWaitingTimer: Sleeper

    ghost var initial: seq<int>
    ghost var queues: seq<seq<nat>>
    ghost var sleepers: seq<nat>
    ghost var log: seq<Event>

    ghost function View(): State
      reads this
    {
      State(initial, Counts(sems), Maxes(sems), queues, sleepers, States(threads), nsSinceBoot, log)
    }

    ghost predicate Linked()
      reads this`sems, this`threads, this`queues
    {
      AllQueued(threads, sems, queues) && ClotsOk(threads)
    }

    ghost predicate Timed()
      reads this`threads, this`sleepers, this`firstWaitingTimer
    {
      TimerLinked(threads, sleepers, firstWaitingTimer) && Distinct(sleepers)
    }

    ghost predicate Valid()
      reads this
    {
      Linked() && Timed() && nextWakeupNs == EarliestOf(threads, sleepers) && Inv(View())
    }

    constructor (counts: seq<(int, int)>, n: nat)
      requires forall s :: 0 <= s < |counts| ==> counts[s].0 <= counts[s].1
      ensures Valid() && Initial(View())
      ensures |sems| == |counts| && forall s :: 0 <= s < |sems| ==>
          sems[s].count == counts[s].0 && sems[s].max == counts[s].1
      ensures |threads| == n
    {
      sems := seq(|counts|, s requires 0 <= s < |counts| => Sem(counts[s].0, counts[s].1, NoWaiter, NoWaiter));
      threads := seq(n, _ => Thread(Nothing, NoWaiter, 0, NoSleeper, false, 0));
      nsSinceBoot, nextWakeupNs, firstWaitingTimer := 1, 0, NoSleeper;
      queues, sleepers, log := seq(|counts|, _ => []), [], [];
      initial := seq(|counts|, s requires 0 <= s < |counts| => counts[s].0);
      new;
      assert View().counts == initial;
      InitialInv(View());
      hide Inv;
    }

    // ---- Links ----

    method LookupClotIndex(clotSems: seq<nat>, sem: nat) returns (r: int)
      ensures sem in clotSems ==> r == IndexOf(clotSems, sem)
      ensures sem !in clotSems ==> r == -1
    {
      for i := 0 to |clotSems|
        invariant forall j :: 0 <= j < i ==> clotSems[j] != sem
      {
        if clotSems[i] == sem {
          return i;
        }
      }
      return -1;
    }

    /** The waiter behind an item on the queue of semaphore s. */
    method NextOf(item: Waiter, s: nat) returns (w: Waiter)
      requires item != NoWaiter && item.thr < |threads| && item == Item(threads[item.thr], item.thr)
      requires WaitsFor(threads[item.thr], s)
      ensures w == NextIn(threads[item.thr], s)
    {
      if item.ThreadItem? {
        w := threads[item.thr].nextWaitingSem;
      } else {
        var clot := threads[item.thr].waitingOn;
        var index := LookupClotIndex(clot.sems, s);
        w := clot.nexts[index];
      }
    }

    /** Points an item's link for semaphore s at w. */
    method LinkTo(item: Waiter, s: nat, w: Waiter)
      requires item != NoWaiter && item.thr < |threads| && item == Item(threads[item.thr], item.thr)
      requires WaitsFor(threads[item.thr], s)
      modifies this`threads
      ensures item.thr < |old(threads)| && WaitsFor(old(threads)[item.thr], s)
      ensures threads == old(threads)[item.thr := SetNext(old(threads)[item.thr], s, w)]
    {
      var th := threads[item.thr];
      if item.ThreadItem? {
        threads := threads[item.thr := th.(nextWaitingSem := w)];
      } else {
        var clot := th.waitingOn;
        var index := LookupClotIndex(clot.sems, s);
        threads := threads[item.thr := th.(waitingOn := Clot(clot.sems, clot.nexts[index := w]))];
      }
    }

    /** Puts thread thr, which waits for s, behind the last waiter of s. */
    method AppendTo(s: nat, thr: nat)
      requires Linked() && s < |sems| && s < |queues| && thr < |threads| && thr !in queues[s]
      requires WaitsFor(threads[thr], s) && NextIn(threads[thr], s) == NoWaiter
      modifies this`sems, this`threads, this`queues
      ensures Linked() && queues == old(queues)[s := old(queues)[s] + [thr]]
      ensures ThreadsKept(old(threads), threads) && threads[thr] == old(threads)[thr] && SameCounts(old(sems), sems)
    {
      hide WaitSet, NextIn, SetNext, Queued, AllQueued, ClotsOk, WaitsFor, ThreadsKept, Tail, ItemAt;
      QueueOf(threads, sems, queues, s);
      ghost var threads0, q, sems0 := threads, queues[s], sems;
      var toAdd := Item(threads[thr], thr);
      ItemOn(threads, sems[s], s, q, 0);
      ItemOn(threads, sems[s], s, q, if q == [] then 0 else |q| - 1);
      if sems[s].end != NoWaiter {
        Relink(threads, sems, queues, sems[s].end.thr, s, toAdd);
        LinkTo(sems[s].end, s, toAdd);
      } else {
        KeptSame(threads, sems, queues, s);
      }
      QueuedAppend(threads0, threads, sems[s], s, q, thr);
      sems := sems[s := sems[s].(end := toAdd)];
      if sems[s].start == NoWaiter {
        sems := sems[s := sems[s].(start := toAdd)];
      }
      queues := queues[s := q + [thr]];
      PutQueue(threads, sems0, old(queues), s, sems[s], q + [thr]);
      assert sems == sems0[s := sems[s]];
    }

    /** Queues thread thr on every semaphore of the list, through a clot if there is more than one. */
    method AddThreadToSemQueues(thr: nat, list: seq<nat>)
      requires Linked() && thr < |threads| && list != [] && Distinct(list) && Below(list, |sems|)
      requires forall s :: 0 <= s < |queues| ==> thr !in queues[s]
      modifies this`sems, this`threads, this`queues
      ensures Linked() && queues == Join(old(queues), list, thr) && SameCounts(old(sems), sems)
      ensures |threads| == |old(threads)| && WaitSet(threads[thr]) == list
      ensures threads[thr] ==
          old(threads)[thr].(waitingOn := threads[thr].waitingOn, nextWaitingSem := threads[thr].nextWaitingSem)
      ensures forall t :: 0 <= t < |threads| && t != thr ==> LinksOnly(old(threads)[t], threads[t])
    {
      hide Queued, NextIn, AllQueued, ClotsOk, WaitsFor, WaitSet, LinksOnly, Distinct;
      ghost var queues0, threads0 := queues, threads;
      var th := threads[thr].(nextWaitingSem := NoWaiter,
        waitingOn := if |list| > 1 then Clot(list, seq(|list|, _ => NoWaiter)) else OneSem(list[0]));
      FreshWaiter(th, list);
      StartWaiting(threads, sems, queues, thr, th);
      assert |queues| == |sems| by { QueuesFit(threads, sems, queues); }
      threads := threads[thr := th];
      ghost var threads1 := threads;
      KeptAll(threads);
      for i := 0 to |list|
        invariant Linked() && |sems| == |old(sems)| && |queues| == |queues0| && SameCounts(old(sems), sems)
        invariant ThreadsKept(threads1, threads) && threads[thr] == th
        invariant queues == Join(queues0, list[..i], thr)
      {
        NotBefore(list, i);
        ghost var threads2 := threads;
        AppendTo(list[i], thr);
        KeptTrans(threads1, threads2, threads);
        JoinNext(queues0, list, i, thr);
      }
      assert list[..|list|] == list;
    }

    /** Takes thread thr off the queue of s, wherever on the queue it is. */
    method RemoveFrom(s: nat, thr: nat)
      requires Linked() && s < |sems| && s < |queues| && thr in queues[s]
      modifies this`sems, this`threads, this`queues
      ensures Linked() && queues == old(queues)[s := Minus(old(queues)[s], thr)]
      ensures ThreadsKept(old(threads), threads) && SameCounts(old(sems), sems)
      ensures thr < |threads| && threads[thr] == old(threads)[thr]
    {
      hide WaitSet, NextIn, SetNext, Queued, AllQueued, ClotsOk, WaitsFor, ThreadsKept, Minus, ItemAt, LinkAt;
      ghost var threads0, q, sems0 := threads, queues[s], sems;
      QueueOf(threads, sems, queues, s);
      ItemOn(threads, sems[s], s, q, 0);
      KeptSame(threads, sems, queues, s);
      ghost var k := 0;
      var start := sems[s].start;
      if start.thr == thr {
        var next := NextOf(start, s);
        ItemOn(threads, sems[s], s, q, 1);
        RemovedAt(threads, threads, sems[s], s, q, 0);
        sems := sems[s := sems[s].(start := next)];
        if next == NoWaiter {
          sems := sems[s := sems[s].(end := NoWaiter)];
        }
      } else {
        k := 1;
        var prev := start;
        var curr := NextOf(prev, s);
        while curr != NoWaiter
          invariant 1 <= k <= |q| && prev == ItemAt(threads, q, k - 1) && curr == ItemAt(threads, q, k)
          invariant forall j :: 0 <= j < k ==> q[j] != thr
          invariant Linked() && threads == threads0 && sems == sems0 && queues == old(queues)
          decreases |q| - k
        {
          ItemOn(threads, sems[s], s, q, k - 1);
          ItemOn(threads, sems[s], s, q, k);
          if curr.thr == thr {
            var rhs := NextOf(curr, s);
            Relink(threads, sems, queues, prev.thr, s, rhs);
            LinkTo(prev, s, rhs);
            RemovedAt(threads0, threads, sems[s], s, q, k);
            LastItem(threads0, sems[s], s, q, k);
            if curr == sems[s].end {
              sems := sems[s := sems[s].(end := prev)];
            }
            break;
          }
          prev := curr;
          curr := NextOf(curr, s);
          k := k + 1;
        }
        ItemOn(threads0, sems0[s], s, q, k);
      }
      queues := queues[s := Minus(q, thr)];
      PutQueue(threads, sems0, old(queues), s, sems[s], Minus(q, thr));
      assert sems == sems0[s := sems[s]];
    }

    /** Takes thread thr off the queues of all semaphores of the list. */
    method CleanupAfterSem(list: seq<nat>, thr: nat)
      requires Linked() && Distinct(list) && Below(list, |sems|) && thr < |threads|
      requires forall i :: 0 <= i < |list| ==> OnQueue(queues, list[i], thr)
      modifies this`sems, this`threads, this`queues
      ensures Linked() && queues == LeaveThose(old(queues), list, thr) && SameCounts(old(sems), sems)
      ensures ThreadsKept(old(threads), threads) && threads[thr] == old(threads)[thr]
    {
      hide AllQueued, ClotsOk, ThreadsKept, Minus, Distinct;
      assert |queues| == |sems| by { QueuesFit(threads, sems, queues); }
      ghost var queues0, threads0 := queues, threads;
      KeptAll(threads);
      for i := 0 to |list|
        invariant Linked() && |sems| == |old(sems)| && |queues| == |queues0| && SameCounts(old(sems), sems)
        invariant ThreadsKept(threads0, threads) && thr < |threads| && threads[thr] == threads0[thr]
        invariant queues == LeaveThose(queues0, list[..i], thr)
      {
        NotBefore(list, i);
        ghost var threads1 := threads;
        LeaveNext(queues0, list, i, thr);
        RemoveFrom(list[i], thr);
        KeptTrans(threads0, threads1, threads);
      }
      assert list[..|list|] == list;
      assert |threads| == |threads0| by { KeptFacts(threads0, threads, thr); }
    }

    method CancelSems(thr: nat)
      requires Linked() && thr < |threads| && threads[thr].waitingOn != Nothing && Registered(queues, threads[thr], thr)
      modifies this`sems, this`threads, this`queues
      ensures Linked() && queues == Leave(old(queues), thr) && SameCounts(old(sems), sems)
      ensures |threads| == |old(threads)|
      ensures threads[thr] == old(threads)[thr].(waitingOn := Nothing, nextWaitingSem := NoWaiter)
      ensures forall t :: 0 <= t < |threads| && t != thr ==> LinksOnly(old(threads)[t], threads[t])
    {
      hide AllQueued, ClotsOk, ThreadsKept, Minus, LinksOnly;
      ghost var queues0, threads0 := queues, threads;
      assert |queues| == |sems| by { QueuesFit(threads, sems, queues); }
      RegisteredList(threads, queues, thr);
      QueuesDistinct(threads, sems, queues);
      if threads[thr].waitingOn.Clot? {
        CleanupAfterSem(threads[thr].waitingOn.sems, thr);
      } else {
        CleanupAfterSem([threads[thr].waitingOn.sem], thr);
      }
      LeaveAll(queues0, WaitSet(threads0[thr]), thr);
      KeptFacts(threads0, threads, thr);
      hide Leave, LeaveThose;
      StartWaiting(threads, sems, queues, thr, threads[thr].(waitingOn := Nothing, nextWaitingSem := NoWaiter));
      threads := threads[thr := threads[thr].(waitingOn := Nothing, nextWaitingSem := NoWaiter)];
    }

    // ---- Timers ----

    /** Takes thread thr off the timer list. */
    method CancelTimer(thr: nat)
      requires Timed() && thr < |threads| && (threads[thr].wakeupTime > 0 ==> thr in sleepers)
      modifies this`threads, this`sleepers, this`firstWaitingTimer, this`nextWakeupNs
      ensures Timed() && |threads| == |old(threads)|
      ensures old(threads)[thr].wakeupTime == 0 ==> unchanged(this)
      ensures old(threads)[thr].wakeupTime > 0 ==>
                && sleepers == Minus(old(sleepers), thr) && nextWakeupNs == EarliestOf(threads, sleepers)
                && threads[thr] == old(threads)[thr].(wakeupTime := 0, nextWaitingTimer := NoSleeper)
      ensures forall t :: 0 <= t < |threads| && t != thr ==> TimersOnly(old(threads)[t], threads[t])
    {
      hide Minus, TimerLinked, Distinct, TimerLinkAt;
      if threads[thr].wakeupTime == 0 {
        return;
      }
      ghost var threads0 := threads;
      ghost var k := 0;
      SleeperOn(threads, sleepers, firstWaitingTimer, 0);
      if firstWaitingTimer == Sleeper(thr) {
        firstWaitingTimer := threads[thr].nextWaitingTimer;
      } else {
        k := UnlinkTimer(thr);
      }
      MinusAt(sleepers, k);
      TimerRemove(threads0, threads, sleepers, k);
      sleepers := Minus(sleepers, thr);
      threads := threads[thr := threads[thr].(nextWaitingTimer := NoSleeper, wakeupTime := 0)];
      SleeperOn(threads, sleepers, firstWaitingTimer, 0);
      nextWakeupNs := if firstWaitingTimer == NoSleeper then 0 else threads[firstWaitingTimer.thr].wakeupTime;
    }

    /** Links past a thread that is not the first on the timer list. */
    method UnlinkTimer(thr: nat) returns (ghost k: nat)
      requires Timed() && thr < |threads| && thr in sleepers && sleepers[0] != thr
      modifies this`threads
      ensures 0 < k < |sleepers| && sleepers[k] == thr && (forall j :: 0 <= j < k ==> sleepers[j] != thr)
      ensures sleepers[k - 1] < |old(threads)|
      ensures threads == old(threads)[sleepers[k - 1] :=
                           old(threads)[sleepers[k - 1]].(nextWaitingTimer := old(threads)[thr].nextWaitingTimer)]
    {
      hide TimerLinked, Distinct, TimerLinkAt;
      k := 0;
      SleeperOn(threads, sleepers, firstWaitingTimer, 0);
      var prev := firstWaitingTimer;
      while prev != NoSleeper && threads[prev.thr].nextWaitingTimer != Sleeper(thr)
        invariant k <= |sleepers| && prev == SleeperAt(sleepers, k) && threads == old(threads)
        invariant prev != NoSleeper ==> prev.thr < |threads|
        invariant forall j :: 0 <= j <= k && j < |sleepers| ==> sleepers[j] != thr
        decreases |sleepers| - k
      {
        SleeperOn(threads, sleepers, firstWaitingTimer, k);
        if k + 1 < |sleepers| {
          SleeperOn(threads, sleepers, firstWaitingTimer, k + 1);
        }
        prev := threads[prev.thr].nextWaitingTimer;
        k := k + 1;
      }
      if k < |sleepers| {
        SleeperOn(threads, sleepers, firstWaitingTimer, k);
      }
      if prev != NoSleeper {
        threads := threads[prev.thr := threads[prev.thr].(nextWaitingTimer := threads[thr].nextWaitingTimer)];
      }
      k := k + 1;
    }

    /** Walks the timer list to the last thread due no later than ns; thr is not linked in yet. */
    method LastDueBefore(ghost threads0: Threads, thr: nat, ns: nat) returns (prev: nat, ghost k: nat)
      requires TimerLinked(threads0, sleepers, firstWaitingTimer) && thr < |threads| == |threads0| && thr !in sleepers
      requires forall t :: 0 <= t < |threads| && t != thr ==> threads[t] == threads0[t]
      requires sleepers != [] && sleepers[0] < |threads| && threads[sleepers[0]].wakeupTime <= ns
      ensures 0 < k <= |sleepers| && prev == sleepers[k - 1] && prev < |threads| && prev != thr
      ensures threads[prev].nextWaitingTimer == SleeperAt(sleepers, k)
      ensures forall j :: 0 <= j < k ==> WakeupOf(States(threads0), sleepers[j]) <= ns
      ensures k < |sleepers| ==> ns < WakeupOf(States(threads0), sleepers[k])
    {
      hide TimerLinked, States, WakeupOf, TimerLinkAt;
      k := 1;
      NextSleeper(threads0, threads, sleepers, firstWaitingTimer, 0, thr);
      prev := firstWaitingTimer.thr;
      while threads[prev].nextWaitingTimer != NoSleeper && threads[threads[prev].nextWaitingTimer.thr].wakeupTime <= ns
        invariant 0 < k <= |sleepers| && prev == sleepers[k - 1] && prev < |threads| && prev != thr
        invariant threads[prev].nextWaitingTimer == SleeperAt(sleepers, k)
        invariant k < |sleepers| ==> sleepers[k] < |threads| && sleepers[k] != thr
        invariant forall j :: 0 <= j < k ==> WakeupOf(States(threads0), sleepers[j]) <= ns
        decreases |sleepers| - k
      {
        NextSleeper(threads0, threads, sleepers, firstWaitingTimer, k, thr);
        prev := threads[prev].nextWaitingTimer.thr;
        k := k + 1;
      }
      if k < |sleepers| {
        NextSleeper(threads0, threads, sleepers, firstWaitingTimer, k, thr);
      }
    }

    /** Puts thread thr on the timer list, behind everyone due no later. */
    method InsertTimer(thr: nat, ns: nat)
      requires Timed() && thr < |threads| && thr !in sleepers && ns > 0
      modifies this`threads, this`sleepers, this`firstWaitingTimer
      ensures Timed() && |threads| == |old(threads)|
      ensures sleepers == Insert(States(old(threads)), old(sleepers), thr, ns)
      ensures threads[thr] == old(threads)[thr].(wakeupTime := ns, nextWaitingTimer := threads[thr].nextWaitingTimer)
      ensures forall t :: 0 <= t < |threads| && t != thr ==> TimersOnly(old(threads)[t], threads[t])
    {
      hide TimerLinked, Distinct, TimerLinkAt, States, Insert;
      ghost var threads0, k := threads, 0;
      SleeperOn(threads, sleepers, firstWaitingTimer, 0);
      threads := threads[thr := threads[thr].(wakeupTime := ns)];
      if firstWaitingTimer == NoSleeper || ns < threads[firstWaitingTimer.thr].wakeupTime {
        threads := threads[thr := threads[thr].(nextWaitingTimer := firstWaitingTimer)];
        firstWaitingTimer := Sleeper(thr);
      } else {
        var prev;
        prev, k := LastDueBefore(threads0, thr, ns);
        threads := threads[thr := threads[thr].(nextWaitingTimer := threads[prev].nextWaitingTimer)];
        threads := threads[prev := threads[prev].(nextWaitingTimer := Sleeper(thr))];
      }
      InsertAt(States(threads0), sleepers, thr, ns, k);
      TimerInsert(threads0, threads, sleepers, thr, k, ns);
      InsertMembers(States(threads0), sleepers, thr, ns);
      sleepers := Insert(States(threads0), sleepers, thr, ns);
    }

    // ---- Waking ----

    /** Ends whatever wait thread thr is in, with a result. */
    method UnblockThread(thr: nat, retv: int)
      requires Linked() && Timed() && thr < |threads| && Registered(queues, threads[thr], thr)
      requires thr in sleepers <==> threads[thr].wakeupTime > 0
      modifies this
      ensures Linked() && Timed()
      ensures queues == Leave(old(queues), thr) && sleepers == Minus(old(sleepers), thr)
      ensures States(threads) == States(old(threads))[thr := ThreadState([], 0, false, retv)]
      ensures |sems| == |old(sems)| && Counts(sems) == Counts(old(sems)) && Maxes(sems) == Maxes(old(sems))
      ensures nsSinceBoot == old(nsSinceBoot) && initial == old(initial)
          && log == old(log) + [Woken(thr, retv, nsSinceBoot)]
      ensures nextWakeupNs == if old(threads)[thr].wakeupTime > 0 then EarliestOf(threads, sleepers)
          else old(nextWakeupNs)
      ensures old(threads)[thr].wakeupTime == 0 ==> firstWaitingTimer == old(firstWaitingTimer)
    {
      hide AllQueued, ClotsOk, TimerLinked, Distinct, Registered, Leave, Minus, LinksOnly, States, Counts, Maxes;
      ghost var threads0, queues0, sleepers0 := threads, queues, sleepers;
      if threads[thr].waitingOn != Nothing {
        CancelSems(thr);
      } else {
        NotWaiting(threads, sems, queues, thr);
      }
      ghost var threads1 := threads;
      TimedKept(threads0, threads1, sleepers, firstWaitingTimer, thr);
      if threads[thr].wakeupTime != 0 {
        CancelTimer(thr);
      } else {
        MinusNone(sleepers, thr);
      }
      ghost var threads2 := threads;
      threads := threads[thr := threads[thr].(blockReturn := retv, blocked := false)];
      LinkedKept(threads1, threads, sems, queues);
      TimedKept(threads2, threads, sleepers, firstWaitingTimer, thr);
      StatesWoken(threads0, threads1, threads, thr, retv);
      CountsKept(old(sems), sems);
      EarliestKept(threads2, threads, sleepers);
      log := log + [Woken(thr, retv, nsSinceBoot)];
    }

    /** The state between wake-ups: everything in order, though some sleepers may be late. */
    ghost predicate Settled()
      reads this
    {
      Linked() && Timed() && Sane(View())
    }

    /** Wakes a waiter; the next wake-up time follows the timer list. */
    method WakeWaiter(thr: nat, retv: int)
      requires Settled() && thr < |threads| && nextWakeupNs == EarliestOf(threads, sleepers)
      modifies this
      ensures Settled() && View() == Wake(old(View()), thr, retv) && nextWakeupNs == EarliestOf(threads, sleepers)
      ensures |sems| == |old(sems)| && |threads| == |old(threads)|
    {
      hide Linked, Timed, Sane, Wake, EarliestOf, Minus, Leave;
      ghost var st, threads0, sleepers0 := View(), threads, sleepers;
      InQueues(threads, sems, queues, sleepers, st, thr);
      UnblockThread(thr, retv);
      assert View() == Wake(st, thr, retv) by { WakeIs(st, View(), thr, retv); }
      WakeSane(st, thr, retv);
      EarliestUnless(threads0, threads, sleepers0, sleepers, thr, retv);
    }

    /** Wakes the first thread on the timer list, whose time has come. */
    method WakeFirst() returns (ghost thr: nat)
      requires Settled() && firstWaitingTimer != NoSleeper
      modifies this
      ensures Settled() && thr == old(sleepers)[0] < |old(threads)| && View() == Wake(old(View()), thr, ETIMEDOUT)
      ensures |sleepers| < |old(sleepers)|
    {
      hide AllQueued, ClotsOk, TimerLinked, Distinct, Sane, Wake, Minus, Leave, Registered, States;
      ghost var st, threads0 := View(), threads;
      SleeperOn(threads, sleepers, firstWaitingTimer, 0);
      var t := firstWaitingTimer.thr;
      thr := t;
      InQueues(threads, sems, queues, sleepers, st, t);
      threads := threads[t := threads[t].(wakeupTime := 0)];
      firstWaitingTimer := threads[t].nextWaitingTimer;
      PopSleeper(threads0, threads, sems, queues, sleepers, t);
      sleepers := sleepers[1..];
      UnblockThread(t, ETIMEDOUT);
      PoppedWake(st, threads0, t);
      assert View() == Wake(st, t, ETIMEDOUT) by { WakeIs(st, View(), t, ETIMEDOUT); }
      WakeSane(st, t, ETIMEDOUT);
    }

    /** Wakes everyone whose time has come. */
    method DoWakeups()
      requires Settled()
      modifies this
      ensures Settled() && View() == ExpireStep(old(View())) && nextWakeupNs == EarliestOf(threads, sleepers)
    {
      hide Linked, AllQueued, ClotsOk, TimerLinked, Distinct, Sane, Wake;
      ghost var st := View();
      while firstWaitingTimer != NoSleeper
        invariant Settled() && ExpireStep(View()) == ExpireStep(st)
        decreases |sleepers|
      {
        SleeperOn(threads, sleepers, firstWaitingTimer, 0);
        var thr := firstWaitingTimer.thr;
        if nsSinceBoot >= threads[thr].wakeupTime {
          ExpireOnce(View());
          ghost var t := WakeFirst();
        } else {
          nextWakeupNs := threads[thr].wakeupTime;
          return;
        }
      }
      SleeperOn(threads, sleepers, firstWaitingTimer, 0);
      nextWakeupNs := 0;
    }

    method AdvanceTimer(ns: nat)
      requires Valid()
      modifies this
      ensures Valid() && View() == AdvanceStep(old(View()), ns)
      ensures nsSinceBoot == old(nsSinceBoot) + ns && |threads| == |old(threads)| && Counts(sems) == old(Counts(sems))
      ensures forall t :: 0 <= t < |threads| ==>
                StateOf(threads[t]) ==
                if 0 < old(threads)[t].wakeupTime <= nsSinceBoot then ThreadState([], 0, false, ETIMEDOUT)
                else StateOf(old(threads)[t])
    {
      hide Linked, AllQueued, ClotsOk, TimerLinked, Distinct, Sane, Punctual, LogSane, Balanced, EarliestOf, ExpireStep;
      ghost var st := View();
      AdvanceKeeps(st, ns);
      AdvanceExact(st, ns);
      LaterSane(st, ns);
      nsSinceBoot := nsSinceBoot + ns;
      assert View() == st.(now := st.now + ns);
      if nextWakeupNs != 0 && nextWakeupNs <= nsSinceBoot {
        DoWakeups();
      } else {
        SleeperOn(threads, sleepers, firstWaitingTimer, 0);
        NobodyDue(threads, sleepers, View(), nextWakeupNs);
      }
      assert View() == AdvanceStep(st, ns);
    }

    // ---- Semaphores ----

    /** AbandonSem: everyone waiting for s is woken with EABANDONED. */
    method AbandonSem(s: nat)
      requires Valid() && s < |sems|
      modifies this
      ensures Valid() && View() == AbandonStep(old(View()), s)
    {
      hide Linked, Timed, Sane, Punctual, LogSane, Balanced, EarliestOf, AbandonStep, Wake;
      ghost var st := View();
      AbandonKeeps(st, s);
      FrontOf(s);
      while sems[s].start != NoWaiter
        invariant Settled() && nextWakeupNs == EarliestOf(threads, sleepers) && s < |sems| && s < |queues|
        invariant AbandonStep(View(), s) == AbandonStep(st, s)
        invariant sems[s].start == NoWaiter <==> queues[s] == []
        decreases |queues[s]|
      {
        FrontOf(s);
        AbandonOnce(View(), s);
        var head := sems[s].start;
        WakeWaiter(head.thr, EABANDONED);
        FrontOf(s);
      }
      AbandonNone(View(), s);
    }

    /** What the head of a queue says about it. */
    lemma FrontOf(s: nat)
      requires Settled() && s < |sems|
      ensures s < |queues| && (sems[s].start == NoWaiter <==> queues[s] == [])
      ensures queues[s] != [] ==>
                var t := queues[s][0];
                sems[s].start.thr == t < |threads| && sems[s].start == Item(threads[t], t) && threads[t].blocked
                && s in WaitSet(threads[t]) && ClotOk(threads[t])
    {
      hide Queued, Sane, Inv, ClotOk, WaitSet;
      QueueOf(threads, sems, queues, s);
      ItemOn(threads, sems[s], s, queues[s], 0);
      if queues[s] != [] {
        var t := queues[s][0];
        HeadWaits(View(), s);
        HeadBlocked(View(), t);
        assert ClotOk(threads[t]);
      }
    }

    /** ReleaseSem: hands the unit over, or puts it back. */
    method ReleaseSem(s: nat)
      requires Valid() && s < |sems|
      modifies this
      ensures Valid() && View() == ReleaseStep(old(View()), s)
      ensures s < |old(queues)| && (old(queues)[s] == [] ==>
                var counts := old(Counts(sems));
                && s < |counts| && Counts(sems) == counts[s := counts[s] - 1]
                && queues == old(queues) && States(threads) == old(States(threads)) && sleepers == old(sleepers))
    {
      hide AllQueued, ClotsOk, Timed, Sane, Punctual, LogSane, Balanced, EarliestOf, Wake, Counts, Maxes, States;
      ghost var st := View();
      ReleaseKeeps(st, s);
      FrontOf(s);
      CountsAt(sems, s);
      log := log + [Gave(s)];
      NotedSane(st, View());
      if sems[s].count == sems[s].max {
        if sems[s].start == NoWaiter {
          sems := sems[s := sems[s].(count := sems[s].count - 1)];
          CountChanged(threads, old(sems), sems, queues, s);
        } else {
          var hdr := sems[s].start;
          if hdr.ThreadItem? {
            HandedSingle(threads[hdr.thr], hdr, s);
            WakeWaiter(hdr.thr, 0);
          } else {
            var index := LookupClotIndex(threads[hdr.thr].waitingOn.sems, s);
            WakeWaiter(hdr.thr, -index);
          }
          log := log + [Took(hdr.thr, s)];
        }
      } else {
        sems := sems[s := sems[s].(count := sems[s].count - 1)];
        CountChanged(threads, old(sems), sems, queues, s);
      }
    }

    // ---- Waiting ----

    /** BlockThread: the running thread stops running. */
    method BlockThread(thr: nat)
      requires Linked() && Timed() && thr < |threads|
      modifies this`threads
      ensures Linked() && Timed()
          && threads == old(threads)[thr := old(threads)[thr].(blocked := true, blockReturn := 0)]
      ensures EarliestOf(threads, sleepers) == old(EarliestOf(threads, sleepers))
    {
      hide AllQueued, ClotsOk, TimerLinked, Distinct, EarliestOf;
      ghost var threads0 := threads;
      threads := threads[thr := threads[thr].(blocked := true, blockReturn := 0)];
      LinkedKept(threads0, threads, sems, queues);
      TimedKept(threads0, threads, sleepers, firstWaitingTimer, thr);
      EarliestKept(threads0, threads, sleepers);
    }

    /** Puts the running thread to sleep until a time, unless that is past. */
    method AddThreadToSleepQueue(thr: nat, relative: bool, time: int) returns (added: bool)
      requires Settled() && nextWakeupNs == EarliestOf(threads, sleepers) && thr < |threads|
      requires relative || time >= 0
      requires (if relative then Deadline(nsSinceBoot, time) else time) > nsSinceBoot ==> !threads[thr].blocked
      modifies this`threads, this`sleepers, this`firstWaitingTimer, this`nextWakeupNs
      ensures added <==>
                (if relative then (nsSinceBoot + time) % 0x1_0000_0000_0000_0000 else time) > nsSinceBoot
      ensures !added ==> unchanged(this)
      ensures added ==> Linked() && Timed() && nextWakeupNs == EarliestOf(threads, sleepers)
      ensures added ==>
                var ns := if relative then Deadline(nsSinceBoot, time) else time;
                && sleepers == Insert(States(old(threads)), old(sleepers), thr, ns)
                && PutByTime(States(old(threads)), old(sleepers), sleepers, thr, ns) && |threads| == |old(threads)|
                && threads[thr].waitingOn == old(threads)[thr].waitingOn
                && States(threads) == States(old(threads))[thr := ThreadState(WaitSet(threads[thr]), ns, true, 0)]
    {
      hide AllQueued, ClotsOk, TimerLinked, Distinct, Sane, EarliestOf, Insert, States, WaitSet;
      var ns := if relative then Deadline(nsSinceBoot, time) else time;
      if ns <= nsSinceBoot {
        return false;
      }
      ghost var threads0, sleepers0 := threads, sleepers;
      AwakeThread(View(), thr);
      assert States(threads)[thr] == StateOf(threads[thr]) by { StatesAt(threads, thr); }
      NextAfter(threads, sleepers, View(), thr, ns, nextWakeupNs);
      SleepersOrdered(View());
      InsertExact(States(threads), sleepers, thr, ns);
      hide PutByTime;
      if nextWakeupNs == 0 || ns < nextWakeupNs {
        nextWakeupNs := ns;
      }
      InsertTimer(thr, ns);
      LinkedKept(threads0, threads, sems, queues);
      InsertEarliest(threads0, threads, sleepers0, thr, ns);
      ghost var threads1 := threads;
      BlockThread(thr);
      StatesBlocked(threads0, threads1, threads, thr, ns);
      return true;
    }

    /** SleepUntil and SleepNano. */
    method Sleep(thr: nat, relative: bool, time: int)
      requires Valid() && thr < |threads| && (relative || time >= 0)
      requires (if relative then Deadline(nsSinceBoot, time) else time) > nsSinceBoot ==> !threads[thr].blocked
      modifies this
      ensures Valid() && View() ==
          SleepStep(old(View()), thr, if relative then Deadline(old(nsSinceBoot), time) else time)
      ensures var until := if relative then (nsSinceBoot + time) % 0x1_0000_0000_0000_0000 else time;
              nsSinceBoot == old(nsSinceBoot) &&
              if until <= nsSinceBoot then unchanged(this) else Waited(old(View()), View(), thr, [], until)
    {
      hide AllQueued, ClotsOk, TimerLinked, Distinct, Sane, Punctual, LogSane, Balanced, EarliestOf, Insert, States,
           Block;
      ghost var st := View();
      ghost var until: nat := if relative then Deadline(nsSinceBoot, time) else time;
      StatesAt(threads, thr);
      SleepKeeps(st, thr, until);
      BlockExact(st, thr, [], until);
      hide Waited;
      if until > st.now {
        AwakeThread(st, thr);
      }
      var added := AddThreadToSleepQueue(thr, relative, time);
      if added {
        log := log + [Blocked(thr, [], until)];
        assert View() == Block(st, thr, [], until) by { SleepIs(st, View(), thr, until); }
      }
    }

    /** A thread that waits already is not made to wait. */
    ghost predicate CanAcquire(thr: nat, list: seq<nat>, timeout: int)
      requires thr < |threads| && list != [] && Distinct(list) && Below(list, |sems|)
      reads this
    {
      CountsSize(sems);
      StatesAt(threads, thr);
      !WaitsTwice(View(), Acquire(thr, list, timeout))
    }

    /** AcquireSemFromMany, up to where a thread that must wait is switched away from. It takes a unit of the first
        semaphore of the list that has one, and says which that was; fails if there is none and no time to wait, and
        then changes nothing; or waits for all of them, until the timeout has passed. */
    method AcquireSemFromMany(thr: nat, list: seq<nat>, timeout: int) returns (outcome: Outcome)
      requires Valid() && thr < |threads| && list != [] && Distinct(list) && Below(list, |sems|)
      requires CanAcquire(thr, list, timeout)
      modifies this
      ensures Valid() && (View(), outcome) == AcquireStep(old(View()), thr, list, timeout)
      ensures nsSinceBoot == old(nsSinceBoot)
      ensures outcome.Acquired? ==>
                var k := outcome.index;
                && k < |list| && old(sems)[list[k]].count < old(sems)[list[k]].max
                && (forall j :: 0 <= j < k ==> old(sems)[list[j]].count >= old(sems)[list[j]].max)
                && sems == old(sems)[list[k] := old(sems)[list[k]].(count := old(sems)[list[k]].count + 1)]
                && threads == old(threads) && queues == old(queues) && sleepers == old(sleepers)
                && nextWakeupNs == old(nextWakeupNs) && firstWaitingTimer == old(firstWaitingTimer)
      ensures outcome == WouldBlock <==>
                && (forall j :: 0 <= j < |list| ==> old(sems)[list[j]].count >= old(sems)[list[j]].max)
                && (|| timeout == 0
                    || (timeout != -1 && (nsSinceBoot + timeout) % 0x1_0000_0000_0000_0000 <= nsSinceBoot))
      ensures outcome == WouldBlock ==> unchanged(this)
      ensures outcome == Waiting ==>
                && (forall j :: 0 <= j < |list| ==> old(sems)[list[j]].count >= old(sems)[list[j]].max)
                && Waited(old(View()), View(), thr, list,
                          if timeout == -1 then 0 else (nsSinceBoot + timeout) % 0x1_0000_0000_0000_0000)
    {
      hide AllQueued, ClotsOk, TimerLinked, Distinct, Sane, Punctual, LogSane, Balanced, EarliestOf, Insert, States,
           Block, Counts, Maxes;
      ghost var st := View();
      StatesAt(threads, thr);
      CountsSize(sems);
      AcquireKeeps(st, thr, list, timeout);
      hide Waited, WaitSet, StateOf;
      for i := 0 to |list|
        invariant unchanged(this)
        invariant forall j :: 0 <= j < i ==> sems[list[j]].count >= sems[list[j]].max
      {
        if sems[list[i]].count < sems[list[i]].max {
          FirstFreeIs(st, sems, list, i);
          sems := sems[list[i] := sems[list[i]].(count := sems[list[i]].count + 1)];
          CountChanged(threads, old(sems), sems, queues, list[i]);
          CountsAt(old(sems), list[i]);
          log := log + [Took(thr, list[i])];
          return Acquired(i);
        }
      }
      outcome := WaitForMany(thr, list, timeout);
    }

    /** ... once no semaphore of the list has been found to have a unit. */
    method WaitForMany(thr: nat, list: seq<nat>, timeout: int) returns (outcome: Outcome)
      requires Valid() && thr < |threads| && list != [] && Distinct(list) && Below(list, |sems|)
      requires CanAcquire(thr, list, timeout)
      requires forall j :: 0 <= j < |list| ==> sems[list[j]].count >= sems[list[j]].max
      modifies this
      ensures Valid() && (View(), outcome) == AcquireStep(old(View()), thr, list, timeout)
      ensures nsSinceBoot == old(nsSinceBoot) && !outcome.Acquired?
      ensures outcome == WouldBlock <==>
                || timeout == 0
                || (timeout != -1 && (nsSinceBoot + timeout) % 0x1_0000_0000_0000_0000 <= nsSinceBoot)
      ensures outcome == WouldBlock ==> unchanged(this)
      ensures outcome == Waiting ==>
                Waited(old(View()), View(), thr, list,
                       if timeout == -1 then 0 else (nsSinceBoot + timeout) % 0x1_0000_0000_0000_0000)
    {
      hide AllQueued, ClotsOk, TimerLinked, Distinct, Sane, Punctual, LogSane, Balanced, EarliestOf, Insert, States,
           Block, Counts, Maxes;
      ghost var st := View();
      StatesAt(threads, thr);
      CountsSize(sems);
      AcquireKeeps(st, thr, list, timeout);
      BlockExact(st, thr, list, if timeout == TIMEOUT_INFINITE then 0 else Deadline(st.now, timeout));
      FirstFreeIs(st, sems, list, |list|);
      hide Waited;
      if timeout == TIMEOUT_INSTANT {
        return WouldBlock;
      }
      if timeout != TIMEOUT_INFINITE {
        var added := AddThreadToSleepQueue(thr, true, timeout);
        if !added {
          return WouldBlock;
        }
        StatesAt(threads, thr);
      }
      AwakeThread(st, thr);
      WaitOn(st, thr, list, if timeout == TIMEOUT_INFINITE then 0 else Deadline(st.now, timeout));
      return Waiting;
    }

    /** Queues the thread on its semaphores and stops it. */
    method WaitOn(ghost st: State, thr: nat, list: seq<nat>, ghost deadline: nat)
      requires Linked() && Timed() && Sane(st) && nextWakeupNs == EarliestOf(threads, sleepers)
      requires thr < |threads| == |st.threads| && !st.threads[thr].blocked && WaitSet(threads[thr]) == []
      requires list != [] && Distinct(list) && Below(list, |sems|)
      requires st.counts == Counts(sems) && st.maxes == Maxes(sems) && st.queues == queues
      requires st.initial == initial && st.now == nsSinceBoot && st.log == log
      requires sleepers == if deadline > 0 then Insert(st.threads, st.sleepers, thr, deadline) else st.sleepers
      requires forall t :: 0 <= t < |threads| && t != thr ==> States(threads)[t] == st.threads[t]
      requires threads[thr].wakeupTime == deadline
      modifies this
      ensures Linked() && Timed() && nextWakeupNs == EarliestOf(threads, sleepers)
      ensures View() == Block(st, thr, list, deadline)
    {
      hide AllQueued, ClotsOk, TimerLinked, Distinct, Sane, EarliestOf, Insert, Join, States, Counts, Maxes, LinksOnly,
           WaitSet;
      AwakeThread(st, thr);
      NowhereQueued(st, thr);
      ghost var threads0 := threads;
      AddThreadToSemQueues(thr, list);
      TimedKept(threads0, threads, sleepers, firstWaitingTimer, thr);
      EarliestLinks(threads0, threads, sleepers, thr);
      CountsKept(old(sems), sems);
      ghost var threads1 := threads;
      BlockThread(thr);
      StatesWaiting(st.threads, threads0, threads1, threads, thr, list, deadline);
      log := log + [Blocked(thr, list, deadline)];
    }
  }

  lemma StatesAt(threads: Threads, t: nat)
    requires t < |threads|
    ensures |States(threads)| == |threads| && States(threads)[t] == StateOf(threads[t])
  {
  }

  lemma CountsSize(sems: seq<Sem>)
    ensures |Counts(sems)| == |Maxes(sems)| == |sems|
  {
  }

  /** A running thread waits for nothing. */
  lemma AwakeThread(st: State, thr: nat)
    requires Sane(st) && thr < |st.threads| && !st.threads[thr].blocked
    ensures st.threads[thr].waits == [] && st.threads[thr].wakeup == 0 && thr !in st.sleepers
  {
    hide CountsSane, QueuesSane, Distinct;
  }

  lemma SleepersOrdered(st: State)
    requires Sane(st)
    ensures InOrder(st.sleepers, st.threads)
  {
    hide CountsSane, QueuesSane, Distinct, InOrder;
  }

  lemma NowhereQueued(st: State, thr: nat)
    requires Sane(st) && thr < |st.threads| && st.threads[thr].waits == []
    ensures forall s :: 0 <= s < |st.queues| ==> thr !in st.queues[s]
  {
    hide SleepersSane, BlockedSane, Distinct;
    forall s | 0 <= s < |st.queues|
      ensures thr !in st.queues[s]
    {
      assert OnQueue(st.queues, s, thr) <==> WaitsOn(st.threads, thr, s);
    }
  }

  /** The next wake-up time, before the new thread is put on the list. */
  lemma NextAfter(threads: Threads, sleepers: seq<nat>, st: State, thr: nat, ns: nat, next: nat)
    requires Sane(st) && st.threads == States(threads) && st.sleepers == sleepers
        && next == EarliestOf(threads, sleepers)
    ensures sleepers == [] <==> next == 0
    ensures sleepers != [] ==> sleepers[0] < |threads| && next == threads[sleepers[0]].wakeupTime
  {
    hide CountsSane, QueuesSane, BlockedSane, Distinct;
    if sleepers != [] {
      assert sleepers[0] in sleepers;
    }
  }

  lemma InsertEarliest(threads: Threads, threads': Threads, sleepers: seq<nat>, thr: nat, ns: nat)
    requires thr < |threads| == |threads'| && thr !in sleepers && threads'[thr].wakeupTime == ns
    requires forall t :: 0 <= t < |threads| && t != thr ==> TimersOnly(threads[t], threads'[t])
    requires sleepers != [] ==> sleepers[0] < |threads|
    ensures EarliestOf(threads', Insert(States(threads), sleepers, thr, ns))
         == if sleepers == [] || ns < threads[sleepers[0]].wakeupTime then ns else threads[sleepers[0]].wakeupTime
  {
    if sleepers != [] {
      assert sleepers[0] in sleepers;
    }
  }

  lemma StatesBlocked(threads: Threads, threads1: Threads, threads': Threads, thr: nat, ns: nat)
    requires thr < |threads| == |threads1|
    requires forall t :: 0 <= t < |threads| && t != thr ==> TimersOnly(threads[t], threads1[t])
    requires threads1[thr] == threads[thr].(wakeupTime := ns, nextWaitingTimer := threads1[thr].nextWaitingTimer)
    requires threads' == threads1[thr := threads1[thr].(blocked := true, blockReturn := 0)]
    ensures States(threads') == States(threads)[thr := ThreadState(WaitSet(threads'[thr]), ns, true, 0)]
  {
    forall t | 0 <= t < |threads|
      ensures States(threads')[t] == States(threads)[thr := ThreadState(WaitSet(threads'[thr]), ns, true, 0)][t]
    {
    }
  }

  lemma SleepIs(st: State, st': State, thr: nat, until: nat)
    requires Sane(st) && thr < |st.threads| && until > 0
    requires st'.threads == st.threads[thr := ThreadState([], until, true, 0)]
    requires st'.sleepers == Insert(st.threads, st.sleepers, thr, until)
        && st'.log == st.log + [Blocked(thr, [], until)]
    requires st'.counts == st.counts && st'.maxes == st.maxes && st'.initial == st.initial && st'.now == st.now
    requires st'.queues == st.queues
    ensures st' == Block(st, thr, [], until)
  {
    assert Join(st.queues, [], thr) == st.queues;
  }

  lemma FirstFreeIs(st: State, sems: seq<Sem>, list: seq<nat>, i: nat)
    requires st.counts == Counts(sems) && st.maxes == Maxes(sems) && Below(list, |sems|) && i <= |list|
    requires forall j :: 0 <= j < i ==> sems[list[j]].count >= sems[list[j]].max
    requires i < |list| ==> sems[list[i]].count < sems[list[i]].max
    ensures |st.counts| == |st.maxes| == |sems| && FirstFree(st, list) == i
  {
    var f := FirstFree(st, list);
    assert f < |list| ==> sems[list[f]].count < sems[list[f]].max;
  }

  lemma EarliestLinks(threads: Threads, threads': Threads, sleepers: seq<nat>, thr: nat)
    requires |threads'| == |threads| && forall t :: 0 <= t < |threads| && t != thr ==>
        LinksOnly(threads[t], threads'[t])
    requires thr < |threads| && threads'[thr].wakeupTime == threads[thr].wakeupTime
    ensures EarliestOf(threads', sleepers) == EarliestOf(threads, sleepers)
  {
  }

  lemma StatesWaiting(states: seq<ThreadState>, threads: Threads, threads1: Threads, threads': Threads, thr: nat,
                      list: seq<nat>, deadline: nat)
    requires thr < |threads| == |threads1| == |states|
    requires forall t :: 0 <= t < |threads| && t != thr ==>
        States(threads)[t] == states[t] && LinksOnly(threads[t], threads1[t])
    requires WaitSet(threads1[thr]) == list && threads1[thr].wakeupTime == deadline
    requires threads' == threads1[thr := threads1[thr].(blocked := true, blockReturn := 0)]
    ensures States(threads') == states[thr := ThreadState(list, deadline, true, 0)]
  {
    forall t | 0 <= t < |threads|
      ensures States(threads')[t] == states[thr := ThreadState(list, deadline, true, 0)][t]
    {
      if t != thr {
        assert StateOf(threads1[t]) == StateOf(threads[t]);
      }
    }
  }

  lemma InQueues(threads: Threads, sems: seq<Sem>, queues: seq<seq<nat>>, sleepers: seq<nat>, st: State, thr: nat)
    requires Sane(st) && st.threads == States(threads) && st.queues == queues && st.sleepers == sleepers
        && thr < |threads|
    ensures Registered(queues, threads[thr], thr) && (thr in sleepers <==> threads[thr].wakeupTime > 0)
  {
    hide CountsSane, BlockedSane, Distinct;
    var list := WaitSet(threads[thr]);
    forall s: nat
      ensures OnQueue(queues, s, thr) <==> s in list
    {
      assert OnQueue(queues, s, thr) <==> WaitsOn(st.threads, thr, s);
    }
    forall i | 0 <= i < |list|
      ensures list[i] < |queues|
    {
      assert OnQueue(queues, list[i], thr);
    }
  }

  lemma WakeIs(st: State, st': State, thr: nat, retv: int)
    requires thr < |st.threads| && st'.queues == Leave(st.queues, thr) && st'.sleepers == Minus(st.sleepers, thr)
    requires st'.threads == st.threads[thr := ThreadState([], 0, false, retv)]
    requires st'.counts == st.counts && st'.maxes == st.maxes && st'.initial == st.initial && st'.now == st.now
    requires st'.log == st.log + [Woken(thr, retv, st.now)]
    ensures st' == Wake(st, thr, retv)
  {
    hide Minus, Leave;
  }

  lemma EarliestUnless(threads: Threads, threads': Threads, sleepers: seq<nat>, sleepers': seq<nat>, thr: nat,
      retv: int)
    requires thr < |threads| && States(threads') == States(threads)[thr := ThreadState([], 0, false, retv)]
    requires thr in sleepers <==> threads[thr].wakeupTime > 0
    requires sleepers' == Minus(sleepers, thr)
    ensures threads[thr].wakeupTime == 0 ==> EarliestOf(threads', sleepers') == EarliestOf(threads, sleepers)
  {
    hide Minus;
    assert |States(threads')| == |States(threads)|;
    if threads[thr].wakeupTime == 0 {
      MinusNone(sleepers, thr);
      if sleepers != [] && sleepers[0] < |threads| {
        assert States(threads')[sleepers[0]].wakeup == States(threads)[sleepers[0]].wakeup;
      }
    }
  }

  /** The head of the timer list taken off, the rest is still a timer list, and the queues are as they were. */
  lemma PopSleeper(threads: Threads, threads': Threads, sems: seq<Sem>, queues: seq<seq<nat>>, sleepers: seq<nat>,
      t: nat)
    requires AllQueued(threads, sems, queues) && ClotsOk(threads) && sleepers != [] && sleepers[0] == t < |threads|
    requires TimerLinked(threads, sleepers, Sleeper(t)) && Distinct(sleepers)
    requires threads' == threads[t := threads[t].(wakeupTime := 0)] && Registered(queues, threads[t], t)
    ensures AllQueued(threads', sems, queues) && ClotsOk(threads') && Distinct(sleepers[1..]) && t !in sleepers[1..]
    ensures TimerLinked(threads', sleepers[1..], threads[t].nextWaitingTimer)
    ensures Registered(queues, threads'[t], t)
  {
    LinkedKept(threads, threads', sems, queues);
    SleeperOn(threads, sleepers, Sleeper(t), 0);
    hide AllQueued, ClotsOk;
    forall k | 0 <= k < |sleepers[1..]|
      ensures TimerLinkAt(threads', sleepers[1..], k)
    {
      assert TimerLinkAt(threads, sleepers, k + 1);
    }
    assert WaitSet(threads'[t]) == WaitSet(threads[t]);
  }

  lemma PoppedWake(st: State, threads: Threads, t: nat)
    requires st.threads == States(threads) && t < |threads| && st.sleepers != [] && st.sleepers[0] == t
        && t !in st.sleepers[1..]
    ensures Minus(st.sleepers[1..], t) == Minus(st.sleepers, t)
    ensures States(threads[t := threads[t].(wakeupTime := 0)])[t := ThreadState([], 0, false, ETIMEDOUT)]
         == st.threads[t := ThreadState([], 0, false, ETIMEDOUT)]
  {
    MinusNone(st.sleepers[1..], t);
  }

  lemma ExpireOnce(st: State)
    requires Sane(st) && st.sleepers != [] && st.now >= WakeupOf(st.threads, st.sleepers[0])
    ensures st.sleepers[0] < |st.threads| && Sane(Wake(st, st.sleepers[0], ETIMEDOUT))
    ensures ExpireStep(st) == ExpireStep(Wake(st, st.sleepers[0], ETIMEDOUT))
  {
    assert st.sleepers[0] in st.sleepers;
    WakeSane(st, st.sleepers[0], ETIMEDOUT);
  }

  lemma LaterSane(st: State, ns: nat)
    requires Sane(st)
    ensures Sane(st.(now := st.now + ns))
  {
  }

  lemma NobodyDue(threads: Threads, sleepers: seq<nat>, st: State, next: nat)
    requires Sane(st) && st.threads == States(threads) && st.sleepers == sleepers
        && next == EarliestOf(threads, sleepers)
    requires next == 0 || next > st.now
    ensures ExpireStep(st) == st
  {
    hide CountsSane, QueuesSane, BlockedSane;
    if sleepers != [] {
      assert sleepers[0] in sleepers;
    }
  }

  lemma HeadBlocked(st: State, t: nat)
    requires Sane(st) && t < |st.threads| && st.threads[t].waits != []
    ensures st.threads[t].blocked
  {
  }

  lemma AbandonOnce(st: State, s: nat)
    requires Sane(st) && s < |st.counts| && s < |st.queues| && st.queues[s] != []
    ensures st.queues[s][0] < |st.threads| && Sane(Wake(st, st.queues[s][0], EABANDONED))
    ensures AbandonStep(st, s) == AbandonStep(Wake(st, st.queues[s][0], EABANDONED), s)
    ensures |Wake(st, st.queues[s][0], EABANDONED).queues[s]| < |st.queues[s]|
  {
    HeadWaits(st, s);
    WakeSane(st, st.queues[s][0], EABANDONED);
  }

  lemma AbandonNone(st: State, s: nat)
    requires Sane(st) && s < |st.counts| && s < |st.queues| && st.queues[s] == []
    ensures AbandonStep(st, s) == st
  {
  }

  lemma NotedSane(st: State, st': State)
    requires Sane(st) && st' == st.(log := st'.log)
    ensures Sane(st')
  {
  }

  lemma CountsAt(sems: seq<Sem>, s: nat)
    requires s < |sems|
    ensures |Counts(sems)| == |Maxes(sems)| == |sems| && Counts(sems)[s] == sems[s].count
        && Maxes(sems)[s] == sems[s].max
  {
  }

  /** Changing one count changes that count, and no queue. */
  lemma CountChanged(threads: Threads, sems: seq<Sem>, sems': seq<Sem>, queues: seq<seq<nat>>, s: nat)
    requires AllQueued(threads, sems, queues) && s < |sems| == |sems'|
    requires sems' == sems[s := sems[s].(count := sems'[s].count)]
    ensures AllQueued(threads, sems', queues)
    ensures Counts(sems') == Counts(sems)[s := sems'[s].count] && Maxes(sems') == Maxes(sems)
  {
    hide LinksIn, Tail, ItemAt, Distinct;
    forall r | 0 <= r < |sems'|
      ensures Queued(threads, sems'[r], r, queues[r])
    {
      assert Queued(threads, sems[r], r, queues[r]);
    }
  }

  lemma HandedSingle(th: Thread, hdr: Waiter, s: nat)
    requires hdr.ThreadItem? && hdr == Item(th, hdr.thr) && s in WaitSet(th)
    ensures IndexOf(WaitSet(th), s) == 0
  {
  }

  lemma NotWaiting(threads: Threads, sems: seq<Sem>, queues: seq<seq<nat>>, thr: nat)
    requires thr < |threads| && threads[thr].waitingOn == Nothing && Registered(queues, threads[thr], thr)
    ensures Leave(queues, thr) == queues
  {
    hide Minus;
    forall s | 0 <= s < |queues|
      ensures Minus(queues[s], thr) == queues[s]
    {
      assert !OnQueue(queues, s, thr);
      MinusNone(queues[s], thr);
    }
  }

  /** The timer list does not depend on queue links or results. */
  lemma TimedKept(threads: Threads, threads': Threads, sleepers: seq<nat>, first: Sleeper, thr: nat)
    requires |threads'| == |threads| && thr < |threads|
    requires forall t :: 0 <= t < |threads| && t != thr ==>
        LinksOnly(threads[t], threads'[t]) || threads'[t] == threads[t]
    requires threads'[thr].nextWaitingTimer == threads[thr].nextWaitingTimer
    requires TimerLinked(threads, sleepers, first)
    ensures TimerLinked(threads', sleepers, first)
  {
    hide WaitSet;
    forall k | 0 <= k < |sleepers|
      ensures TimerLinkAt(threads', sleepers, k)
    {
      assert TimerLinkAt(threads, sleepers, k);
    }
  }

  /** The queues do not depend on timers or results. */
  lemma LinkedKept(threads: Threads, threads': Threads, sems: seq<Sem>, queues: seq<seq<nat>>)
    requires AllQueued(threads, sems, queues) && ClotsOk(threads) && |threads'| == |threads|
    requires forall t :: 0 <= t < |threads| ==>
               threads'[t].waitingOn == threads[t].waitingOn && threads'[t].nextWaitingSem == threads[t].nextWaitingSem
    ensures AllQueued(threads', sems, queues) && ClotsOk(threads')
  {
    forall t | 0 <= t < |threads|
      ensures ClotOk(threads'[t])
    {
      assert ClotOk(threads[t]);
    }
    hide Queued, ClotOk;
    forall s | 0 <= s < |sems|
      ensures Queued(threads', sems[s], s, queues[s])
    {
      QueuedKept(threads, threads', sems[s], s, queues[s]);
    }
  }

  lemma QueuedKept(threads: Threads, threads': Threads, sem: Sem, s: nat, q: seq<nat>)
    requires Queued(threads, sem, s, q) && |threads'| == |threads|
    requires forall t :: 0 <= t < |threads| ==>
               threads'[t].waitingOn == threads[t].waitingOn && threads'[t].nextWaitingSem == threads[t].nextWaitingSem
    ensures Queued(threads', sem, s, q)
  {
    ItemsKept(threads, threads', q);
    forall k | 0 <= k < |q|
      ensures LinkAt(threads', s, q, k)
    {
      assert LinkAt(threads, s, q, k);
      SameNext(threads[q[k]], threads'[q[k]], s);
    }
  }

  lemma SameNext(th: Thread, th': Thread, s: nat)
    requires th'.waitingOn == th.waitingOn && th'.nextWaitingSem == th.nextWaitingSem && WaitsFor(th, s)
    ensures WaitsFor(th', s) && NextIn(th', s) == NextIn(th, s)
  {
  }

  lemma StatesWoken(threads: Threads, threads1: Threads, threads': Threads, thr: nat, retv: int)
    requires thr < |threads| == |threads1| == |threads'|
    requires forall t :: 0 <= t < |threads| && t != thr ==>
               (LinksOnly(threads[t], threads1[t]) || threads1[t] == threads[t])
                   && (TimersOnly(threads1[t], threads'[t]) || threads'[t] == threads1[t])
    requires threads'[thr].waitingOn == Nothing && threads'[thr].wakeupTime == 0
    requires threads'[thr].blockReturn == retv && !threads'[thr].blocked
    ensures States(threads') == States(threads)[thr := ThreadState([], 0, false, retv)]
  {
    forall t | 0 <= t < |threads|
      ensures States(threads')[t] == States(threads)[thr := ThreadState([], 0, false, retv)][t]
    {
      if t != thr {
        assert StateOf(threads'[t]) == StateOf(threads1[t]) == StateOf(threads[t]);
      }
    }
  }

  lemma CountsKept(sems: seq<Sem>, sems': seq<Sem>)
    requires SameCounts(sems, sems')
    ensures Counts(sems') == Counts(sems) && Maxes(sems') == Maxes(sems)
  {
  }

  lemma EarliestKept(threads: Threads, threads': Threads, sleepers: seq<nat>)
    requires |threads'| == |threads| && forall t :: 0 <= t < |threads| ==>
        threads'[t].wakeupTime == threads[t].wakeupTime
    ensures EarliestOf(threads', sleepers) == EarliestOf(threads, sleepers)
  {
  }

  /** The queues once thread thr has left those of the list. */
  function LeaveThose(queues: seq<seq<nat>>, list: seq<nat>, thr: nat): (queues': seq<seq<nat>>)
    ensures |queues'| == |queues|
    ensures forall s :: 0 <= s < |queues| ==> queues'[s] == if Has(list, s) then Minus(queues[s], thr) else queues[s]
  {
    seq(|queues|, s requires 0 <= s < |queues| => if Has(list, s) then Minus(queues[s], thr) else queues[s])
  }

  /** Thread thr is on exactly the queues its record says. */
  ghost predicate Registered(queues: seq<seq<nat>>, th: Thread, thr: nat) {
    && Below(WaitSet(th), |queues|)
    && forall s: nat {:trigger OnQueue(queues, s, thr)} :: OnQueue(queues, s, thr) <==> s in WaitSet(th)
  }

  predicate TimersOnly(th: Thread, th': Thread) {
    th' == th.(nextWaitingTimer := th'.nextWaitingTimer)
  }

  lemma LeaveNext(queues: seq<seq<nat>>, list: seq<nat>, i: nat, thr: nat)
    requires i < |list| && list[i] < |queues| && list[i] !in list[..i]
    ensures LeaveThose(queues, list[..i], thr)[list[i]] == queues[list[i]]
    ensures LeaveThose(queues, list[..i + 1], thr) ==
        LeaveThose(queues, list[..i], thr)[list[i] := Minus(queues[list[i]], thr)]
  {
    hide Minus;
    assert list[..i + 1] == list[..i] + [list[i]];
  }

  lemma QueuesDistinct(threads: Threads, sems: seq<Sem>, queues: seq<seq<nat>>)
    requires AllQueued(threads, sems, queues)
    ensures forall s :: 0 <= s < |queues| ==> Distinct(queues[s])
  {
    hide Distinct;
  }

  lemma LeaveAll(queues: seq<seq<nat>>, list: seq<nat>, thr: nat)
    requires forall s: nat {:trigger OnQueue(queues, s, thr)} :: OnQueue(queues, s, thr) <==> s in list
    requires forall s :: 0 <= s < |queues| ==> Distinct(queues[s])
    ensures LeaveThose(queues, list, thr) == Leave(queues, thr)
    ensures forall s :: 0 <= s < |queues| ==> thr !in Leave(queues, thr)[s]
  {
    hide Minus, Distinct;
    forall s | 0 <= s < |queues|
      ensures LeaveThose(queues, list, thr)[s] == Minus(queues[s], thr) && thr !in Minus(queues[s], thr)
    {
      assert OnQueue(queues, s, thr) <==> s in list;
      MinusMembers(queues[s], thr);
      if s !in list { MinusNone(queues[s], thr); }
    }
  }

  lemma RegisteredList(threads: Threads, queues: seq<seq<nat>>, thr: nat)
    requires thr < |threads| && Registered(queues, threads[thr], thr) && ClotsOk(threads)
    ensures Distinct(WaitSet(threads[thr]))
    ensures forall i :: 0 <= i < |WaitSet(threads[thr])| ==> OnQueue(queues, WaitSet(threads[thr])[i], thr)
  {
    assert ClotOk(threads[thr]);
    var list := WaitSet(threads[thr]);
    forall i | 0 <= i < |list|
      ensures OnQueue(queues, list[i], thr)
    {
      assert list[i] in list;
    }
  }

  lemma KeptFacts(threads: Threads, threads': Threads, t: nat)
    requires ThreadsKept(threads, threads') && t < |threads|
    ensures |threads'| == |threads| && forall x :: 0 <= x < |threads| ==> LinksOnly(threads[x], threads'[x])
  {
  }

  lemma SleeperOn(threads: Threads, sleepers: seq<nat>, first: Sleeper, k: nat)
    requires TimerLinked(threads, sleepers, first)
    ensures first == SleeperAt(sleepers, 0) && (first == NoSleeper <==> sleepers == [])
    ensures k < |sleepers| ==>
              && sleepers[k] < |threads| && TimerLinkAt(threads, sleepers, k)
              && threads[sleepers[k]].nextWaitingTimer == SleeperAt(sleepers, k + 1)
  {
    if k < |sleepers| {
      assert TimerLinkAt(threads, sleepers, k);
    }
  }

  /** The timer list with its k-th thread linked past. */
  lemma TimerRemove(threads: Threads, threads': Threads, sleepers: seq<nat>, k: nat)
    requires k < |sleepers| && TimerLinked(threads, sleepers, SleeperAt(sleepers, 0)) && Distinct(sleepers)
    requires sleepers[k] < |threads| == |threads'|
    requires k == 0 ==> threads' == threads
    requires k > 0 ==> var e := sleepers[k - 1];
                       e < |threads| && threads' ==
                           threads[e := threads[e].(nextWaitingTimer := threads[sleepers[k]].nextWaitingTimer)]
    ensures var q := sleepers[..k] + sleepers[k + 1..]; var thr := sleepers[k];
            && Distinct(q) && TimerLinked(
                  threads'[thr := threads'[thr].(nextWaitingTimer := NoSleeper, wakeupTime := 0)], q, SleeperAt(q, 0))
            && SleeperAt(q, 0) == (if k == 0 then threads[thr].nextWaitingTimer else SleeperAt(sleepers, 0))
  {
    var q, thr := sleepers[..k] + sleepers[k + 1..], sleepers[k];
    var after := threads'[thr := threads'[thr].(nextWaitingTimer := NoSleeper, wakeupTime := 0)];
    SleeperOn(threads, sleepers, SleeperAt(sleepers, 0), k);
    forall j | 0 <= j < |q|
      ensures TimerLinkAt(after, q, j)
    {
      var j' := if j < k then j else j + 1;
      SleeperOn(threads, sleepers, SleeperAt(sleepers, 0), j');
      DistinctPair(sleepers, j', k);
      if k > 0 && j' != k - 1 { DistinctPair(sleepers, j', k - 1); }
    }
    DistinctSplit(sleepers, k);
  }

  lemma DistinctSplit(q: seq<nat>, k: nat)
    requires Distinct(q) && k < |q|
    ensures Distinct(q[..k] + q[k + 1..])
  {
  }

  /** The k-th thread of the timer list, seen while thr is being put on it. */
  lemma NextSleeper(threads: Threads, threads1: Threads, sleepers: seq<nat>, first: Sleeper, k: nat, thr: nat)
    requires TimerLinked(threads, sleepers, first) && k < |sleepers| && thr < |threads| && thr !in sleepers
    requires |threads1| == |threads| && forall t :: 0 <= t < |threads| && t != thr ==> threads1[t] == threads[t]
    ensures var t := sleepers[k];
            && t < |threads| && t != thr && threads1[t].nextWaitingTimer == SleeperAt(sleepers, k + 1)
            && WakeupOf(States(threads), t) == threads1[t].wakeupTime
    ensures k + 1 < |sleepers| ==> sleepers[k + 1] < |threads| && sleepers[k + 1] != thr
    ensures first == SleeperAt(sleepers, 0)
  {
    hide TimerLinked;
    SleeperOn(threads, sleepers, first, k);
    if k + 1 < |sleepers| {
      SleeperOn(threads, sleepers, first, k + 1);
      assert sleepers[k + 1] in sleepers;
    }
    assert sleepers[k] in sleepers;
  }

  lemma {:induction false} InsertAt(threads: seq<ThreadState>, sleepers: seq<nat>, t: nat, deadline: nat, k: nat)
    requires k <= |sleepers| && forall j :: 0 <= j < k ==> WakeupOf(threads, sleepers[j]) <= deadline
    requires k < |sleepers| ==> deadline < WakeupOf(threads, sleepers[k])
    ensures Insert(threads, sleepers, t, deadline) == sleepers[..k] + [t] + sleepers[k..]
  {
    if k == 0 {
      assert sleepers[..0] + [t] + sleepers[0..] == [t] + sleepers;
    } else {
      InsertAt(threads, sleepers[1..], t, deadline, k - 1);
      assert sleepers[..k] + [t] + sleepers[k..] ==
          [sleepers[0]] + (sleepers[1..][..k - 1] + [t] + sleepers[1..][k - 1..]);
    }
  }

  /** The timer list with a thread linked in as its k-th. */
  lemma TimerInsert(threads: Threads, threads': Threads, sleepers: seq<nat>, thr: nat, k: nat, ns: nat)
    requires k <= |sleepers| && TimerLinked(threads, sleepers, SleeperAt(sleepers, 0)) && Distinct(sleepers)
    requires thr < |threads| == |threads'| && thr !in sleepers
    requires forall t :: 0 <= t < |threads| && t != thr && (k > 0 ==> t != sleepers[k - 1]) ==>
        threads'[t] == threads[t]
    requires threads'[thr] == threads[thr].(wakeupTime := ns, nextWaitingTimer := SleeperAt(sleepers, k))
    requires k > 0 ==> sleepers[k - 1] < |threads|
                       && threads'[sleepers[k - 1]] == threads[sleepers[k - 1]].(nextWaitingTimer := Sleeper(thr))
    ensures var q := sleepers[..k] + [thr] + sleepers[k..];
            TimerLinked(threads', q, if k == 0 then Sleeper(thr) else SleeperAt(sleepers, 0))
  {
    var q := sleepers[..k] + [thr] + sleepers[k..];
    forall j | 0 <= j < |q|
      ensures TimerLinkAt(threads', q, j)
    {
      if j != k {
        var j' := if j < k then j else j - 1;
        SleeperOn(threads, sleepers, SleeperAt(sleepers, 0), j');
        assert q[j] == sleepers[j'] && sleepers[j'] in sleepers;
        if k > 0 && j' != k - 1 { DistinctPair(sleepers, j', k - 1); }
      }
    }
  }

  // ---- What one queue says ----

  lemma QueuesFit(threads: Threads, sems: seq<Sem>, queues: seq<seq<nat>>)
    requires AllQueued(threads, sems, queues)
    ensures |queues| == |sems|
  {
  }

  lemma QueueOf(threads: Threads, sems: seq<Sem>, queues: seq<seq<nat>>, s: nat)
    requires AllQueued(threads, sems, queues) && s < |sems|
    ensures |queues| == |sems| && Queued(threads, sems[s], s, queues[s])
  {
    hide Queued;
    assert queues[s] == queues[s];
  }

  lemma ItemOn(threads: Threads, sem: Sem, s: nat, q: seq<nat>, k: nat)
    requires Queued(threads, sem, s, q) && k <= |q|
    ensures sem.start == ItemAt(threads, q, 0) && sem.end == (if q == [] then NoWaiter else ItemAt(threads, q, |q| - 1))
    ensures ItemAt(threads, q, k) == NoWaiter <==> k == |q|
    ensures k < |q| ==>
              && q[k] < |threads| && ItemAt(threads, q, k) == Item(threads[q[k]], q[k])
                  && ItemAt(threads, q, k).thr == q[k]
              && WaitsFor(threads[q[k]], s) && NextIn(threads[q[k]], s) == ItemAt(threads, q, k + 1)
                  && LinkAt(threads, s, q, k)
  {
    hide WaitSet, NextIn, WaitsFor;
    if k < |q| {
      assert LinkAt(threads, s, q, k);
    }
  }

  lemma LastItem(threads: Threads, sem: Sem, s: nat, q: seq<nat>, k: nat)
    requires Queued(threads, sem, s, q) && k < |q|
    ensures ItemAt(threads, q, k) == sem.end <==> k == |q| - 1
  {
    hide ItemAt, NextIn, WaitsFor;
    ItemOn(threads, sem, s, q, k);
    ItemOn(threads, sem, s, q, |q| - 1);
  }

  /** What a queue's semaphore must read once the k-th waiter is gone. */
  lemma RemovedAt(threads: Threads, threads': Threads, sem: Sem, s: nat, q: seq<nat>, k: nat)
    requires Queued(threads, sem, s, q) && k < |q| && q[k] < |threads| && WaitsFor(threads[q[k]], s)
    requires forall j :: 0 <= j < k ==> q[j] != q[k]
    requires k == 0 ==> threads' == threads
    requires k > 0 ==> var e := q[k - 1];
                       e < |threads| && WaitsFor(threads[e], s)
                           && threads' == threads[e := SetNext(threads[e], s, NextIn(threads[q[k]], s))]
    ensures var next := NextIn(threads[q[k]], s);
            var sem' := sem.(start := if k == 0 then next else sem.start,
                             end := if |q| == 1 then NoWaiter else if k == |q| - 1 then ItemAt(threads, q, k - 1)
                                 else sem.end);
            Queued(threads', sem', s, Minus(q, q[k]))
  {
    hide ItemAt, NextIn, WaitsFor, SetNext, Queued;
    ItemOn(threads, sem, s, q, k);
    MinusAt(q, k);
    QueuedRemove(threads, threads', sem, s, q, k, Minus(q, q[k]));
  }

  // ---- The other queues ----

  ghost predicate OthersQueued(threads: Threads, sems: seq<Sem>, queues: seq<seq<nat>>, s: nat) {
    |queues| == |sems| && forall r {:trigger queues[r]} :: 0 <= r < |sems| && r != s ==>
        Queued(threads, sems[r], r, queues[r])
  }

  lemma KeptAll(threads: Threads)
    ensures ThreadsKept(threads, threads)
  {
  }

  lemma KeptTrans(threads: Threads, threads1: Threads, threads2: Threads)
    requires ThreadsKept(threads, threads1) && ThreadsKept(threads1, threads2)
    ensures ThreadsKept(threads, threads2)
  {
    hide WaitSet;
    forall t | 0 <= t < |threads|
      ensures LinksOnly(threads[t], threads2[t])
    {
      assert LinksOnly(threads[t], threads1[t]) && LinksOnly(threads1[t], threads2[t]);
    }
  }

  lemma KeptSame(threads: Threads, sems: seq<Sem>, queues: seq<seq<nat>>, s: nat)
    requires AllQueued(threads, sems, queues) && ClotsOk(threads)
    ensures ThreadsKept(threads, threads) && OthersQueued(threads, sems, queues, s)
  {
    hide Queued, ClotOk;
  }

  /** Changing one link for semaphore s leaves every other queue, and everything else, as it was. */
  lemma Relink(threads: Threads, sems: seq<Sem>, queues: seq<seq<nat>>, e: nat, s: nat, w: Waiter)
    requires AllQueued(threads, sems, queues) && ClotsOk(threads) && e < |threads| && WaitsFor(threads[e], s)
    ensures var threads' := threads[e := SetNext(threads[e], s, w)];
            && ThreadsKept(threads, threads') && ClotsOk(threads') && OthersQueued(threads', sems, queues, s)
  {
    hide Queued, ClotOk, WaitSet, NextIn, SetNext, WaitsFor;
    var threads' := threads[e := SetNext(threads[e], s, w)];
    SetNextIs(threads[e], s, w, s);
    forall r | 0 <= r < |sems| && r != s
      ensures Queued(threads', sems[r], r, queues[r])
    {
      QueuedSetNext(threads, sems[r], r, queues[r], e, s, w);
    }
  }

  lemma PutQueue(threads: Threads, sems: seq<Sem>, queues: seq<seq<nat>>, s: nat, sem: Sem, q: seq<nat>)
    requires s < |sems| && OthersQueued(threads, sems, queues, s) && Queued(threads, sem, s, q)
    ensures AllQueued(threads, sems[s := sem], queues[s := q])
  {
    hide Queued;
  }

  // ---- Starting to wait ----

  lemma FreshWaiter(th: Thread, list: seq<nat>)
    requires list != [] && Distinct(list) && th.nextWaitingSem == NoWaiter
    requires th.waitingOn == if |list| > 1 then Clot(list, seq(|list|, _ => NoWaiter)) else OneSem(list[0])
    ensures ClotOk(th) && WaitSet(th) == list
    ensures forall i :: 0 <= i < |list| ==> WaitsFor(th, list[i]) && NextIn(th, list[i]) == NoWaiter
  {
  }

  lemma StartWaiting(threads: Threads, sems: seq<Sem>, queues: seq<seq<nat>>, thr: nat, th: Thread)
    requires AllQueued(threads, sems, queues) && ClotsOk(threads) && thr < |threads| && ClotOk(th)
    requires forall s :: 0 <= s < |queues| ==> thr !in queues[s]
    ensures AllQueued(threads[thr := th], sems, queues) && ClotsOk(threads[thr := th])
  {
    hide Queued, ClotOk;
    forall s | 0 <= s < |sems|
      ensures Queued(threads[thr := th], sems[s], s, queues[s])
    {
      QueuedOther(threads, sems[s], s, queues[s], thr, th);
    }
  }

  lemma NotBefore(list: seq<nat>, i: nat)
    requires Distinct(list) && i < |list|
    ensures list[i] !in list[..i]
  {
  }

  lemma JoinNext(queues: seq<seq<nat>>, list: seq<nat>, i: nat, thr: nat)
    requires i < |list| && list[i] < |queues| && list[i] !in list[..i]
    ensures Join(queues, list[..i], thr)[list[i]] == queues[list[i]]
    ensures Join(queues, list[..i + 1], thr) == Join(queues, list[..i], thr)[list[i] := queues[list[i]] + [thr]]
  {
    assert list[..i + 1] == list[..i] + [list[i]];
  }
}
