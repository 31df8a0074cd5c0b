/** Semaphore queues as the kernel links them: a waiting thread is queued itself when it waits for one semaphore,
    and through a clot, with one link for each semaphore, when it waits for any of several. */
module WaitQueues {
  import opened Sequences

  datatype Waiter = NoWaiter | ThreadItem(thr: nat) | ClotItem(thr: nat)

  datatype WaitingOn = Nothing | OneSem(sem: nat) | Clot(sems: seq<nat>, nexts: seq<Waiter>)

  datatype Sleeper = NoSleeper | Sleeper(thr: nat)

  datatype Thread = Thread(
    waitingOn: WaitingOn, nextWaitingSem: Waiter, wakeupTime: nat, nextWaitingTimer: Sleeper, blocked: bool,
    blockReturn: int)

  datatype Sem = Sem(count: int, max: int, start: Waiter, end: Waiter)

  /** The semaphores a thread waits for. */
  function WaitSet(th: Thread): seq<nat> {
    match th.waitingOn
    case Nothing => []
    case OneSem(s) => [s]
    case Clot(sems, _) => sems
  }

  predicate ClotOk(th: Thread) {
    th.waitingOn.Clot? ==> |th.waitingOn.nexts| == |th.waitingOn.sems| > 1 && Distinct(th.waitingOn.sems)
  }

  /** What represents thread t on the queues. */
  function Item(th: Thread, t: nat): Waiter {
    if th.waitingOn.Clot? then ClotItem(t) else ThreadItem(t)
  }

  function IndexOf(sems: seq<nat>, s: nat): (i: nat)
    requires s in sems
    ensures i < |sems| && sems[i] == s
    ensures forall j :: 0 <= j < i ==> sems[j] != s
  {
    if sems[0] == s then 0 else 1 + IndexOf(sems[1..], s)
  }

  predicate WaitsFor(th: Thread, s: nat) {
    ClotOk(th) && s in WaitSet(th)
  }

  /** The link from this thread to whoever waits behind it for semaphore s. */
  function NextIn(th: Thread, s: nat): Waiter
    requires WaitsFor(th, s)
  {
    if th.waitingOn.Clot? then th.waitingOn.nexts[IndexOf(th.waitingOn.sems, s)] else th.nextWaitingSem
  }

  function SetNext(th: Thread, s: nat, w: Waiter): Thread
    requires WaitsFor(th, s)
  {
    if th.waitingOn.Clot?
    then th.(waitingOn := Clot(th.waitingOn.sems, th.waitingOn.nexts[IndexOf(th.waitingOn.sems, s) := w]))
    else th.(nextWaitingSem := w)
  }

  /** Setting one link sets that link, and no other link of the thread. */
  lemma SetNextIs(th: Thread, s: nat, w: Waiter, r: nat)
    requires WaitsFor(th, s)
    ensures var th' := SetNext(th, s, w);
            && th' == th.(waitingOn := th'.waitingOn, nextWaitingSem := th'.nextWaitingSem)
            && WaitSet(th') == WaitSet(th) && ClotOk(th') && (th'.waitingOn.Clot? <==> th.waitingOn.Clot?)
            && WaitsFor(th', s) && NextIn(th', s) == w
            && (WaitsFor(th, r) && r != s ==> WaitsFor(th', r) && NextIn(th', r) == NextIn(th, r))
  {
  }

  type Threads = seq<Thread>

  function ItemAt(threads: Threads, q: seq<nat>, k: nat): Waiter {
    if k < |q| && q[k] < |threads| then Item(threads[q[k]], q[k]) else NoWaiter
  }

  predicate LinkAt(threads: Threads, s: nat, q: seq<nat>, k: nat)
    requires k < |q|
  {
    q[k] < |threads| && WaitsFor(threads[q[k]], s) && NextIn(threads[q[k]], s) == ItemAt(threads, q, k + 1)
  }

  predicate LinksIn(threads: Threads, s: nat, q: seq<nat>) {
    forall k {:trigger LinkAt(threads, s, q, k)} :: 0 <= k < |q| ==> LinkAt(threads, s, q, k)
  }

  function Tail(threads: Threads, q: seq<nat>): Waiter {
    if q == [] then NoWaiter else ItemAt(threads, q, |q| - 1)
  }

  /** Semaphore s queues exactly q, in order, with the right tail. */
  predicate Queued(threads: Threads, sem: Sem, s: nat, q: seq<nat>) {
    Distinct(q) && LinksIn(threads, s, q) && sem.start == ItemAt(threads, q, 0) && sem.end == Tail(threads, q)
  }

  /** Queue s is not touched by a change to a thread that is not on it. */
  lemma QueuedOther(threads: Threads, sem: Sem, s: nat, q: seq<nat>, t: nat, th: Thread)
    requires Queued(threads, sem, s, q) && t < |threads| && t !in q
    ensures Queued(threads[t := th], sem, s, q)
  {
    hide ClotOk, WaitSet, NextIn;
    var threads' := threads[t := th];
    forall k | 0 <= k < |q|
      ensures LinkAt(threads', s, q, k)
    {
      assert LinkAt(threads, s, q, k);
      assert q[k] != t && (k + 1 < |q| ==> q[k + 1] != t);
    }
  }

  /** Queue r is not touched by a change of a link for semaphore s. */
  lemma QueuedSetNext(threads: Threads, sem: Sem, r: nat, q: seq<nat>, t: nat, s: nat, w: Waiter)
    requires Queued(threads, sem, r, q) && t < |threads| && WaitsFor(threads[t], s) && r != s
    ensures Queued(threads[t := SetNext(threads[t], s, w)], sem, r, q)
  {
    hide ClotOk, WaitSet, NextIn, SetNext;
    var threads' := threads[t := SetNext(threads[t], s, w)];
    SetNextIs(threads[t], s, w, r);
    ItemsKept(threads, threads', q);
    forall k | 0 <= k < |q|
      ensures LinkAt(threads', r, q, k)
    {
      assert LinkAt(threads, r, q, k);
    }
  }

  /** Queue items do not change while no thread turns from a thread item into a clot or back. */
  lemma ItemsKept(threads: Threads, threads': Threads, q: seq<nat>)
    requires |threads'| == |threads|
    requires forall t :: 0 <= t < |threads| ==> (threads'[t].waitingOn.Clot? <==> threads[t].waitingOn.Clot?)
    ensures forall k {:trigger ItemAt(threads', q, k)} :: 0 <= k ==> ItemAt(threads', q, k) == ItemAt(threads, q, k)
    ensures Tail(threads', q) == Tail(threads, q)
  {
  }

  // ---- Joining a queue ----

  /** The thread at the tail now links to t, which becomes the tail. */
  lemma QueuedAppend(threads: Threads, threads': Threads, sem: Sem, s: nat, q: seq<nat>, t: nat)
    requires Queued(threads, sem, s, q) && t < |threads| && t !in q && WaitsFor(threads[t], s)
    requires NextIn(threads[t], s) == NoWaiter
    requires q == [] ==> threads' == threads
    requires q != [] ==> var e := q[|q| - 1];
                         e < |threads| && WaitsFor(threads[e], s)
                             && threads' == threads[e := SetNext(threads[e], s, Item(threads[t], t))]
    ensures var sem' := sem.(end := Item(threads[t], t), start := if q == [] then Item(threads[t], t) else sem.start);
            Queued(threads', sem', s, q + [t])
  {
    hide ClotOk, WaitSet, NextIn, SetNext, WaitsFor;
    var q' := q + [t];
    if q != [] {
      SetNextIs(threads[q[|q| - 1]], s, Item(threads[t], t), s);
    }
    ItemsKept(threads, threads', q');
    forall k | 0 <= k < |q'|
      ensures LinkAt(threads', s, q', k)
    {
      if k < |q| {
        assert LinkAt(threads, s, q, k);
        assert ItemAt(threads, q', k + 1) == if k + 1 < |q| then ItemAt(threads, q, k + 1) else Item(threads[t], t);
        assert k < |q| - 1 ==> q[k] != q[|q| - 1];
      }
    }
  }

  // ---- Leaving a queue ----

  /** q without thread t. */
  function Minus(q: seq<nat>, t: nat): seq<nat> {
    if q == [] then []
    else if q[0] == t then q[1..]
    else [q[0]] + Minus(q[1..], t)
  }

  lemma {:induction false} MinusAt(q: seq<nat>, k: nat)
    requires k < |q| && forall j :: 0 <= j < k ==> q[j] != q[k]
    ensures Minus(q, q[k]) == q[..k] + q[k + 1..]
  {
    if k > 0 {
      MinusAt(q[1..], k - 1);
      assert q[1..][k - 1] == q[k];
      assert q[..k] + q[k + 1..] == [q[0]] + (q[1..][..k - 1] + q[1..][k..]);
    } else {
      assert q[..0] + q[1..] == q[1..];
    }
  }

  lemma {:induction false} MinusNone(q: seq<nat>, t: nat)
    requires t !in q
    ensures Minus(q, t) == q
  {
    if q != [] {
      MinusNone(q[1..], t);
      assert [q[0]] + q[1..] == q;
    }
  }

  lemma {:induction false} MinusMembers(q: seq<nat>, t: nat)
    requires Distinct(q)
    ensures Distinct(Minus(q, t))
    ensures forall x :: x in Minus(q, t) <==> x in q && x != t
  {
    if q != [] {
      assert q == [q[0]] + q[1..];
      if q[0] != t {
        MinusMembers(q[1..], t);
        assert q[0] !in Minus(q[1..], t);
      } else {
        assert t !in q[1..];
      }
    }
  }

  predicate SplitAt(q: seq<nat>, k: nat, q': seq<nat>) {
    k < |q| && q' == q[..k] + q[k + 1..]
  }

  /** The thread before the k-th now links past it; head and tail move if it was one. */
  lemma QueuedRemove(threads: Threads, threads': Threads, sem: Sem, s: nat, q: seq<nat>, k: nat, q': seq<nat>)
    requires Queued(threads, sem, s, q) && SplitAt(q, k, q')
    requires LinkAt(threads, s, q, k)
    requires k == 0 ==> threads' == threads
    requires k > 0 ==> var e := q[k - 1];
                       e < |threads| && WaitsFor(threads[e], s)
                           && threads' == threads[e := SetNext(threads[e], s, NextIn(threads[q[k]], s))]
    ensures var next := NextIn(threads[q[k]], s);
            var sem' := sem.(start := if k == 0 then next else sem.start,
                             end := if |q| == 1 then NoWaiter else if k == |q| - 1 then ItemAt(threads, q, k - 1)
                                 else sem.end);
            Queued(threads', sem', s, q')
  {
    hide ClotOk, WaitSet, NextIn, SetNext, WaitsFor;
    if k > 0 {
      SetNextIs(threads[q[k - 1]], s, NextIn(threads[q[k]], s), s);
    }
    ItemsKept(threads, threads', q');
    ItemsSplit(threads, q, k, q');
    assert Distinct(q');
    forall j | 0 <= j < |q'|
      ensures LinkAt(threads', s, q', j)
    {
      assert LinkAt(threads, s, q, if j < k then j else j + 1);
      assert k > 0 && j != k - 1 ==> q'[j] != q[k - 1];
    }
  }

  lemma ItemsSplit(threads: Threads, q: seq<nat>, k: nat, q': seq<nat>)
    requires SplitAt(q, k, q')
    ensures forall j {:trigger ItemAt(threads, q', j)} :: 0 <= j ==>
              ItemAt(threads, q', j) == ItemAt(threads, q, if j < k then j else j + 1)
    ensures Tail(threads, q') == if |q| == 1 then NoWaiter
        else ItemAt(threads, q, if k == |q| - 1 then k - 1 else |q| - 1)
  {
  }
}
