/** Any number of posters, getters and peekers on one mailbox, in any interleaving. */
module MessageRuns {
  import opened MessageBoxes

  datatype Compare = Always | IfTail(msg: Msg)

  /** Where a caller is. A poster takes a unit of the empty semaphore, the mutex, fills the slot at the end, moves
      the end on, lets the mutex go, and gives a unit to the filled semaphore; a getter or peeker goes the other way
      round. */
  datatype Phase =
    | Idle
    | HasEmpty(msg: Msg, compare: Compare)
    | Writing(msg: Msg, compare: Compare)
    | Placed(msg: Msg)
    | WroteLocked(replaced: bool)
    | Wrote(replaced: bool)
    | HasFilled(remove: bool)
    | Reading(remove: bool)
    | Copied(msg: Msg, remove: bool)
    | ReadLocked(remove: bool)
    | Read(remove: bool)

  datatype Lock = Free | HeldBy(actor: nat)

  datatype State = State(
    ring: Ring, empty: nat, filled: nat, lock: Lock, actors: seq<Phase>, posted: seq<Msg>, delivered: seq<Msg>)

  predicate Locked(p: Phase) {
    p.Writing? || p.Placed? || p.WroteLocked? || p.Reading? || p.Copied? || p.ReadLocked?
  }

  datatype Kind = EmptyUnit | FilledUnit

  /** Units of a semaphore a caller has taken and neither used up in the ring nor given back; a message written but
      not yet announced counts as a filled unit. */
  function Weight(kind: Kind, p: Phase): nat {
    match kind
    case EmptyUnit =>
      if p.HasEmpty? || p.Writing? || p.Placed? || (p.WroteLocked? && p.replaced) || (p.Wrote? && p.replaced)
         || (p.ReadLocked? && p.remove) || (p.Read? && p.remove) then 1 else 0
    case FilledUnit =>
      if p.HasFilled? || p.Reading? || p.Copied? || (p.WroteLocked? && !p.replaced) || (p.Wrote? && !p.replaced)
         || (p.ReadLocked? && !p.remove) || (p.Read? && !p.remove) then 1 else 0
  }

  function Out(kind: Kind, actors: seq<Phase>): nat {
    if actors == [] then 0 else Out(kind, actors[..|actors| - 1]) + Weight(kind, actors[|actors| - 1])
  }

  lemma {:induction false} OutUpdate(kind: Kind, actors: seq<Phase>, i: nat, p: Phase)
    requires i < |actors|
    ensures Out(kind, actors[i := p]) + Weight(kind, actors[i]) == Out(kind, actors) + Weight(kind, p)
    ensures Out(kind, actors) >= Weight(kind, actors[i])
  {
    hide Weight;
    var n := |actors| - 1;
    if i == n {
      assert actors[i := p][..n] == actors[..n];
    } else {
      OutUpdate(kind, actors[..n], i, p);
      assert actors[i := p][..n] == actors[..n][i := p];
    }
  }

  // ---- Steps ----

  datatype Op =
    | TakeEmpty(actor: nat, msg: Msg, compare: Compare)
    | TakeFilled(actor: nat, remove: bool)
    | TakeLock(actor: nat)
    | LockFails(actor: nat)
    | Barge(actor: nat)
    | Copy(actor: nat)
    | Advance(actor: nat)
    | DropLock(actor: nat)
    | Finish(actor: nat)

  /** A semaphore can be taken while it has units, the mutex while nobody holds it. An interrupt posts with the
      scheduler locked, so that it does not wait for the mutex: it barges in whether or not somebody holds it. */
  predicate Allowed(st: State, op: Op) {
    op.actor < |st.actors| &&
    var p := st.actors[op.actor];
    match op
    case TakeEmpty(_, _, _) => p.Idle? && st.empty > 0
    case TakeFilled(_, _) => p.Idle? && st.filled > 0
    case TakeLock(_) => (p.HasEmpty? || p.HasFilled?) && st.lock.Free?
    case LockFails(_) => p.HasEmpty? || p.HasFilled?
    case Barge(_) => p.HasEmpty?
    case Copy(_) => p.Writing? || p.Reading?
    case Advance(_) => p.Placed? || p.Copied?
    case DropLock(_) => p.WroteLocked? || p.ReadLocked?
    case Finish(_) => p.Wrote? || p.Read?
  }

  function Tail(r: Ring): nat
    requires |r.data| > 0
  {
    (r.end + |r.data| - 1) % |r.data|
  }

  predicate Replaces(r: Ring, compare: Compare)
    requires |r.data| > 0
  {
    compare.IfTail? && r.count != 0 && r.data[Tail(r)] == compare.msg
  }

  /** The message is copied in or out, or over the newest one. */
  function CopyStep(st: State, i: nat): State
    requires RingOk(st.ring) && i < |st.actors| && (st.actors[i].Writing? || st.actors[i].Reading?)
  {
    var r := st.ring;
    match st.actors[i]
    case Writing(msg, compare) =>
      if Replaces(r, compare) then
        st.(ring := r.(data := r.data[Tail(r) := msg]), actors := st.actors[i := WroteLocked(true)],
            posted := if st.posted == [] then [] else st.posted[|st.posted| - 1 := msg])
      else st.(ring := r.(data := r.data[r.end := msg]), actors := st.actors[i := Placed(msg)])
    case Reading(remove) => st.(actors := st.actors[i := Copied(r.data[r.start], remove)])
  }

  /** The ring's ends move: this is when a message counts as posted or delivered. */
  function AdvanceStep(st: State, i: nat): State
    requires RingOk(st.ring) && i < |st.actors| && (st.actors[i].Placed? || st.actors[i].Copied?)
  {
    var r := st.ring;
    match st.actors[i]
    case Placed(msg) =>
      st.(ring := Ring(r.data, r.start, (r.end + 1) % |r.data|, r.count + 1),
          actors := st.actors[i := WroteLocked(false)],
          posted := st.posted + [msg])
    case Copied(msg, remove) =>
      if remove then
        st.(ring := Ring(r.data, (r.start + 1) % |r.data|, r.end, if r.count > 0 then r.count - 1 else 0),
            actors := st.actors[i := ReadLocked(true)], delivered := st.delivered + [msg])
      else st.(actors := st.actors[i := ReadLocked(false)])
  }

  function Step(st: State, op: Op): State
    requires RingOk(st.ring) && Allowed(st, op)
  {
    var i := op.actor;
    var p := st.actors[i];
    match op
    case TakeEmpty(_, msg, compare) => st.(empty := st.empty - 1, actors := st.actors[i := HasEmpty(msg, compare)])
    case TakeFilled(_, remove) => st.(filled := st.filled - 1, actors := st.actors[i := HasFilled(remove)])
    case TakeLock(_) =>
      st.(lock := HeldBy(i),
          actors := st.actors[i := if p.HasEmpty? then Writing(p.msg, p.compare) else Reading(p.remove)])
    case LockFails(_) =>
      if p.HasEmpty? then st.(empty := st.empty + 1, actors := st.actors[i := Idle])
      else st.(filled := st.filled + 1, actors := st.actors[i := Idle])
    case Barge(_) =>
      st.(lock := if st.lock == Free then HeldBy(i) else st.lock, actors := st.actors[i := Writing(p.msg, p.compare)])
    case Copy(_) => CopyStep(st, i)
    case Advance(_) => AdvanceStep(st, i)
    case DropLock(_) =>
      st.(lock := if st.lock == HeldBy(i) then Free else st.lock,
          actors := st.actors[i := if p.WroteLocked? then Wrote(p.replaced) else Read(p.remove)])
    case Finish(_) =>
      if (p.Wrote? && p.replaced) || (p.Read? && p.remove)
      then st.(empty := st.empty + 1, actors := st.actors[i := Idle])
      else st.(filled := st.filled + 1, actors := st.actors[i := Idle])
  }

  // ---- What always holds ----

  /** Every slot and every unit of both semaphores is accounted for. */
  predicate UnitsOk(st: State) {
    && st.empty + Out(EmptyUnit, st.actors) + st.ring.count == |st.ring.data|
    && st.filled + Out(FilledUnit, st.actors) == st.ring.count
  }

  ghost predicate LockOk(st: State) {
    && (st.lock.HeldBy? ==> st.lock.actor < |st.actors|)
    && forall i :: 0 <= i < |st.actors| ==> (Locked(st.actors[i]) <==> st.lock == HeldBy(i))
  }

  /** What was posted is what was delivered, then what is unread, in that order. */
  predicate OrderOk(st: State) {
    RingOk(st.ring) && st.posted == st.delivered + Unread(st.ring)
  }

  /** A caller between its copy and moving the ends on finds the message where the ends say. */
  predicate HandOk(r: Ring, p: Phase)
    requires RingOk(r)
  {
    && (p.Placed? ==> r.end < |r.data| && r.data[r.end] == p.msg)
    && (p.Copied? ==> r.data[r.start] == p.msg)
  }

  ghost predicate HandsOk(st: State)
    requires RingOk(st.ring)
  {
    forall i {:trigger HandOk(st.ring, st.actors[i])} :: 0 <= i < |st.actors| ==> HandOk(st.ring, st.actors[i])
  }

  ghost predicate Inv(st: State) {
    OrderOk(st) && UnitsOk(st) && LockOk(st) && HandsOk(st)
  }

  lemma Moved(st: State, st': State, i: nat, p: Phase)
    requires i < |st.actors| && st'.actors == st.actors[i := p]
    ensures Out(EmptyUnit, st'.actors) + Weight(EmptyUnit, st.actors[i]) ==
        Out(EmptyUnit, st.actors) + Weight(EmptyUnit, p)
    ensures Out(FilledUnit, st'.actors) + Weight(FilledUnit, st.actors[i]) ==
        Out(FilledUnit, st.actors) + Weight(FilledUnit, p)
    ensures Out(EmptyUnit, st.actors) >= Weight(EmptyUnit, st.actors[i])
    ensures Out(FilledUnit, st.actors) >= Weight(FilledUnit, st.actors[i])
  {
    OutUpdate(EmptyUnit, st.actors, i, p);
    OutUpdate(FilledUnit, st.actors, i, p);
  }

  lemma LockMoves(st: State, st': State, i: nat, p: Phase)
    requires LockOk(st) && i < |st.actors| && st'.actors == st.actors[i := p]
    requires st.lock == Free || st.lock == HeldBy(i) || !(Locked(p) || Locked(st.actors[i]))
    requires st'.lock == if Locked(p) then HeldBy(i) else if Locked(st.actors[i]) then Free else st.lock
    ensures LockOk(st')
  {
    assert Locked(st.actors[i]) <==> st.lock == HeldBy(i);
  }

  /** A writer has a free slot to write to, a reader has a message to read, and each has the mutex. */
  lemma CopySafe(st: State, i: nat)
    requires Inv(st) && i < |st.actors|
    ensures st.actors[i].Writing? || st.actors[i].Placed? ==> st.ring.count < |st.ring.data| && st.lock == HeldBy(i)
    ensures st.actors[i].Reading? || st.actors[i].Copied? ==> st.ring.count > 0 && st.lock == HeldBy(i)
  {
    Moved(st, st, i, st.actors[i]);
    assert Locked(st.actors[i]) <==> st.lock == HeldBy(i);
  }

  /** Nobody but the holder of the mutex is between copy and move. */
  lemma HandsStay(st: State, st': State, i: nat, p: Phase)
    requires Inv(st) && i < |st.actors| && st.lock == HeldBy(i) && st'.actors == st.actors[i := p]
    requires RingOk(st'.ring) && HandOk(st'.ring, p)
    ensures HandsOk(st')
  {
    forall j | 0 <= j < |st'.actors|
      ensures HandOk(st'.ring, st'.actors[j])
    {
      assert Locked(st.actors[j]) <==> st.lock == HeldBy(j);
    }
  }

  lemma CopyKeeps(st: State, i: nat)
    requires Inv(st) && i < |st.actors| && (st.actors[i].Writing? || st.actors[i].Reading?)
    ensures Inv(CopyStep(st, i))
  {
    CopySafe(st, i);
    var st' := CopyStep(st, i);
    Moved(st, st', i, st'.actors[i]);
    LockMoves(st, st', i, st'.actors[i]);
    CopyOrder(st, i);
    HandsStay(st, st', i, st'.actors[i]);
  }

  lemma CopyOrder(st: State, i: nat)
    requires OrderOk(st) && i < |st.actors| && (st.actors[i].Writing? || st.actors[i].Reading?)
    requires st.actors[i].Writing? ==> st.ring.count < |st.ring.data|
    ensures OrderOk(CopyStep(st, i)) && HandOk(CopyStep(st, i).ring, CopyStep(st, i).actors[i])
  {
    var r, st' := st.ring, CopyStep(st, i);
    EndInside(r);
    if st.actors[i].Writing? {
      if Replaces(r, st.actors[i].compare) {
        TailUnread(r, Tail(r));
        ReplaceKeeps(r, st'.ring, Tail(r), st.actors[i].msg);
      } else {
        FillKeeps(r, st'.ring, st.actors[i].msg);
      }
    }
  }

  /** The slot at the end of a ring that is not full is not one of the unread. */
  lemma FillKeeps(r: Ring, r': Ring, msg: Msg)
    requires RingOk(r) && r.count < |r.data| && r.end < |r.data| && r' == r.(data := r.data[r.end := msg])
    ensures RingOk(r') && Unread(r') == Unread(r)
  {
    forall i | 0 <= i < r.count
      ensures Unread(r')[i] == Unread(r)[i]
    {
      SlotsDiffer(r.start, i, r.count, |r.data|);
    }
  }

  lemma AdvanceOrder(st: State, i: nat)
    requires OrderOk(st) && i < |st.actors| && (st.actors[i].Placed? || st.actors[i].Copied?)
    requires HandOk(st.ring, st.actors[i])
    requires st.actors[i].Placed? ==> st.ring.count < |st.ring.data|
    requires st.actors[i].Copied? ==> st.ring.count > 0
    ensures OrderOk(AdvanceStep(st, i)) && HandOk(AdvanceStep(st, i).ring, AdvanceStep(st, i).actors[i])
  {
    var r, st' := st.ring, AdvanceStep(st, i);
    if st.actors[i].Placed? {
      assert r.data[r.end := st.actors[i].msg] == r.data;
      PutKeeps(r, st'.ring, st.actors[i].msg);
      assert st'.posted == st.delivered + (Unread(r) + [st.actors[i].msg]);
    } else if st.actors[i].remove {
      FirstUnread(r);
      GetKeeps(r, st'.ring);
      assert st.delivered + Unread(r) == st.delivered + [Unread(r)[0]] + Unread(r)[1..];
    }
  }

  lemma AdvanceKeeps(st: State, i: nat)
    requires Inv(st) && i < |st.actors| && (st.actors[i].Placed? || st.actors[i].Copied?)
    ensures Inv(AdvanceStep(st, i))
  {
    CopySafe(st, i);
    assert HandOk(st.ring, st.actors[i]);
    var st' := AdvanceStep(st, i);
    Moved(st, st', i, st'.actors[i]);
    LockMoves(st, st', i, st'.actors[i]);
    AdvanceOrder(st, i);
    HandsStay(st, st', i, st'.actors[i]);
  }

  lemma EndInside(r: Ring)
    requires RingOk(r)
    ensures r.end < |r.data|
  {
  }

  /** An interrupt's post finds the mutex held. */
  predicate BargesIn(st: State, op: Op) {
    op.Barge? && st.lock != Free
  }

  lemma StepKeeps(st: State, op: Op)
    requires Inv(st) && Allowed(st, op) && !BargesIn(st, op)
    ensures Inv(Step(st, op))
  {
    var i := op.actor;
    if op.Copy? {
      CopyKeeps(st, i);
    } else if op.Advance? {
      AdvanceKeeps(st, i);
    } else {
      var st' := Step(st, op);
      Moved(st, st', i, st'.actors[i]);
      assert Locked(st.actors[i]) <==> st.lock == HeldBy(i);
      LockMoves(st, st', i, st'.actors[i]);
      forall j | 0 <= j < |st'.actors| ensures HandOk(st'.ring, st'.actors[j]) {
        assert HandOk(st.ring, st.actors[j]);
      }
    }
  }

  /** Two callers are inside at once. */
  predicate Crowded(st: State) {
    exists i, j :: 0 <= i < j < |st.actors| && Locked(st.actors[i]) && Locked(st.actors[j])
  }

  lemma InvAlone(st: State)
    requires LockOk(st)
    ensures !Crowded(st)
  {
    forall i, j | 0 <= i < j < |st.actors|
      ensures !(Locked(st.actors[i]) && Locked(st.actors[j]))
    {
      assert Locked(st.actors[i]) <==> st.lock == HeldBy(i);
    }
  }

  /** Exclusion and order are kept exactly if an interrupt's post finds the mutex free; else two callers are inside
      at once. */
  lemma StepKeepsIff(st: State, op: Op)
    requires Inv(st) && Allowed(st, op)
    ensures Inv(Step(st, op)) <==> !BargesIn(st, op)
    ensures Crowded(Step(st, op)) <==> BargesIn(st, op)
  {
    if BargesIn(st, op) {
      var st' := Step(st, op);
      var h := st.lock.actor;
      assert Locked(st.actors[h]) && !Locked(st.actors[op.actor]);
      assert Locked(st'.actors[h]) && Locked(st'.actors[op.actor]);
      assert Crowded(st') by {
        if h < op.actor { assert Locked(st'.actors[h]) && Locked(st'.actors[op.actor]); }
      }
      if LockOk(st') { InvAlone(st'); }
    } else {
      StepKeeps(st, op);
      InvAlone(Step(st, op));
    }
  }

  // ---- What a step does to the messages ----

  /** A post given a message to compare with writes over the newest unread one, and only if that equals it; any other
      post changes nothing yet. */
  lemma CopyExact(st: State, i: nat)
    requires Inv(st) && i < |st.actors| && st.actors[i].Writing?
    ensures var st', unread, msg := CopyStep(st, i), Unread(st.ring), st.actors[i].msg;
            var compare := st.actors[i].compare;
            var overwrites := compare.IfTail? && unread != [] && unread[|unread| - 1] == compare.msg;
            && RingOk(st'.ring) && st'.delivered == st.delivered
            && st'.actors[i] == (if overwrites then WroteLocked(true) else Placed(msg))
            && Unread(st'.ring) == (if overwrites then unread[..|unread| - 1] + [msg] else unread)
            && (overwrites ==> st.posted != [] && st.posted[|st.posted| - 1] == compare.msg)
            && st'.posted == (if overwrites then st.posted[..|st.posted| - 1] + [msg] else st.posted)
  {
    CopySafe(st, i);
    EndInside(st.ring);
    var r, r' := st.ring, CopyStep(st, i).ring;
    if r.count > 0 {
      TailUnread(r, Tail(r));
    }
    if Replaces(r, st.actors[i].compare) {
      ReplaceKeeps(r, r', Tail(r), st.actors[i].msg);
      assert Unread(r)[r.count - 1 := st.actors[i].msg] == Unread(r)[..r.count - 1] + [st.actors[i].msg];
    } else {
      FillKeeps(r, r', st.actors[i].msg);
    }
  }

  /** Moving the end on posts the message last; moving the start on delivers the oldest unread one, and a peeker, which
      reads that one too, leaves it unread. */
  lemma AdvanceExact(st: State, i: nat)
    requires Inv(st) && i < |st.actors| && (st.actors[i].Placed? || st.actors[i].Copied?)
    ensures var st', unread, p := AdvanceStep(st, i), Unread(st.ring), st.actors[i];
            && RingOk(st'.ring)
            && (p.Copied? ==> unread != [] && p.msg == unread[0])
            && st'.posted == (if p.Placed? then st.posted + [p.msg] else st.posted)
            && st'.delivered == (if p.Copied? && p.remove then st.delivered + [unread[0]] else st.delivered)
            && Unread(st'.ring) == (if p.Placed? then unread + [p.msg] else if p.remove then unread[1..] else unread)
  {
    CopySafe(st, i);
    assert HandOk(st.ring, st.actors[i]);
    var r, r' := st.ring, AdvanceStep(st, i).ring;
    if st.actors[i].Placed? {
      assert r.data[r.end := st.actors[i].msg] == r.data;
      PutKeeps(r, r', st.actors[i].msg);
    } else {
      FirstUnread(r);
      if st.actors[i].remove {
        GetKeeps(r, r');
      }
    }
  }

  // ---- Runs ----

  ghost predicate Initial(st: State) {
    && RingOk(st.ring) && st.ring.count == 0 && st.empty == |st.ring.data| && st.filled == 0 && st.lock == Free
    && st.posted == [] && st.delivered == [] && forall i :: 0 <= i < |st.actors| ==> st.actors[i] == Idle
  }

  lemma {:induction false} NobodyOut(kind: Kind, actors: seq<Phase>)
    requires forall i :: 0 <= i < |actors| ==> actors[i] == Idle
    ensures Out(kind, actors) == 0
  {
    if actors != [] {
      NobodyOut(kind, actors[..|actors| - 1]);
    }
  }

  predicate Reaches(st: State, ops: seq<Op>, st': State)
    decreases |ops|
  {
    if ops == [] then st' == st
    else RingOk(st.ring) && Allowed(st, ops[0]) && Reaches(Step(st, ops[0]), ops[1..], st')
  }

  /** Every interrupt's post of the run finds the mutex free. */
  predicate PostsFindFree(st: State, ops: seq<Op>)
    decreases |ops|
  {
    ops == []
    || (RingOk(st.ring) && Allowed(st, ops[0]) && !BargesIn(st, ops[0]) && PostsFindFree(Step(st, ops[0]), ops[1..]))
  }

  ghost predicate Throughout(st: State, ops: seq<Op>)
    decreases |ops|
  {
    Inv(st) && (ops == [] || (Allowed(st, ops[0]) && Throughout(Step(st, ops[0]), ops[1..])))
  }

  lemma InvRing(st: State)
    requires Inv(st)
    ensures RingOk(st.ring)
  {
  }

  /** Over a whole run exclusion and order hold at every point if and only if every interrupt's post finds the mutex
      free. */
  lemma {:induction false} RunKeeps(st: State, ops: seq<Op>, st': State)
    requires Inv(st) && Reaches(st, ops, st')
    ensures Throughout(st, ops) <==> PostsFindFree(st, ops)
    ensures PostsFindFree(st, ops) ==> Inv(st') && |st'.ring.data| == |st.ring.data| && st.delivered <= st'.delivered
    decreases |ops|
  {
    if ops != [] {
      StepKeepsIff(st, ops[0]);
      DeliveryStays(st, ops[0]);
      InvRing(st);
      hide Inv, Step, BargesIn;
      if Inv(Step(st, ops[0])) {
        RunKeeps(Step(st, ops[0]), ops[1..], st');
      }
    }
  }

  lemma DeliveryStays(st: State, op: Op)
    requires RingOk(st.ring) && Allowed(st, op)
    ensures st.delivered <= Step(st, op).delivered && |Step(st, op).ring.data| == |st.ring.data|
  {
  }

  /** In every interleaving in which an interrupt's posts find the mutex free: what has been delivered is a prefix of
      what was posted, in the order of posting and each message once; what is posted and not delivered is unread in
      the ring; nobody writes unless a slot is free or reads unless a message is there; and at most one caller is
      inside. */
  lemma DeliveredInOrder(st: State, ops: seq<Op>, st': State, i: nat)
    requires Initial(st) && Reaches(st, ops, st') && PostsFindFree(st, ops) && i < |st'.actors|
    ensures RingOk(st'.ring) && st'.posted == st'.delivered + Unread(st'.ring)
    ensures |st'.ring.data| == |st.ring.data|
    ensures st'.empty + Out(EmptyUnit, st'.actors) + st'.ring.count == |st.ring.data|
    ensures st'.filled + Out(FilledUnit, st'.actors) == st'.ring.count
    ensures st'.actors[i].Writing? || st'.actors[i].Placed? ==> st'.ring.count < |st.ring.data|
    ensures st'.actors[i].Reading? || st'.actors[i].Copied? ==> st'.ring.count > 0
    ensures Locked(st'.actors[i]) ==> forall j :: 0 <= j < |st'.actors| && j != i ==> !Locked(st'.actors[j])
  {
    NobodyOut(EmptyUnit, st.actors);
    NobodyOut(FilledUnit, st.actors);
    assert Inv(st);
    hide Reaches, Out, PostsFindFree, Throughout;
    RunKeeps(st, ops, st');
    CopySafe(st', i);
  }

  // ---- An interrupt that does not wait ----

  /** Two callers, one about to post and one an interrupt, on an empty box of two slots. */
  function EmptyBox(): State {
    State(Ring([[], []], 0, 0, 0), 2, 0, Free, [Idle, Idle], [], [])
  }

  const FIRST: Msg := [1]
  const SECOND: Msg := [2]

  const OVERWRITE := [TakeEmpty(0, FIRST, Always), TakeLock(0), Copy(0), TakeEmpty(1, SECOND, Always), Barge(1),
      Copy(1),
                      Advance(1), Advance(0)]

  lemma {:induction false} ReachesOn(st: State, ops: seq<Op>, mid: State, more: seq<Op>, st': State)
    requires Reaches(st, ops, mid) && Reaches(mid, more, st')
    ensures Reaches(st, ops + more, st')
    decreases |ops|
  {
    hide Allowed, Step;
    if ops == [] {
      assert ops + more == more;
    } else {
      ReachesOn(Step(st, ops[0]), ops[1..], mid, more, st');
      assert (ops + more)[0] == ops[0] && (ops + more)[1..] == ops[1..] + more;
    }
  }

  predicate Leads(st: State, op: Op, st': State) {
    RingOk(st.ring) && Allowed(st, op) && Step(st, op) == st'
  }

  lemma ReachesThree(st: State, op1: Op, st1: State, op2: Op, st2: State, op3: Op, st3: State)
    requires Leads(st, op1, st1) && Leads(st1, op2, st2) && Leads(st2, op3, st3)
    ensures Reaches(st, [op1, op2, op3], st3)
  {
    hide Allowed, Step, RingOk;
    assert [op1, op2, op3][1..] == [op2, op3] && [op2, op3][1..] == [op3] && [op3][1..] == [];
    assert Reaches(st2, [op3], st3);
    assert Reaches(st1, [op2, op3], st3);
  }

  lemma PostBegun(st: State)
    requires st == EmptyBox()
    ensures Reaches(st, [TakeEmpty(0, FIRST, Always), TakeLock(0), Copy(0)],
                    State(Ring([FIRST, []], 0, 0, 0), 1, 0, HeldBy(0), [Placed(FIRST), Idle], [], []))
  {
    var s1 := Step(st, TakeEmpty(0, FIRST, Always));
    assert s1 == State(Ring([[], []], 0, 0, 0), 1, 0, Free, [HasEmpty(FIRST, Always), Idle], [], []);
    var s2 := Step(s1, TakeLock(0));
    assert s2 == State(Ring([[], []], 0, 0, 0), 1, 0, HeldBy(0), [Writing(FIRST, Always), Idle], [], []);
    var s3 := Step(s2, Copy(0));
    assert s3 == State(Ring([FIRST, []], 0, 0, 0), 1, 0, HeldBy(0), [Placed(FIRST), Idle], [], []);
    ReachesThree(st, TakeEmpty(0, FIRST, Always), s1, TakeLock(0), s2, Copy(0), s3);
  }

  lemma InterruptPosts(st: State)
    requires st == State(Ring([FIRST, []], 0, 0, 0), 1, 0, HeldBy(0), [Placed(FIRST), Idle], [], [])
    ensures Reaches(st, [TakeEmpty(1, SECOND, Always), Barge(1), Copy(1)],
                    State(Ring([SECOND, []], 0, 0, 0), 0, 0, HeldBy(0), [Placed(FIRST), Placed(SECOND)], [], []))
  {
    var s1 := Step(st, TakeEmpty(1, SECOND, Always));
    assert s1 == State(Ring([FIRST, []], 0, 0, 0), 0, 0, HeldBy(0), [Placed(FIRST), HasEmpty(SECOND, Always)], [], []);
    var s2 := Step(s1, Barge(1));
    assert s2 == State(Ring([FIRST, []], 0, 0, 0), 0, 0, HeldBy(0), [Placed(FIRST), Writing(SECOND, Always)], [], []);
    var s3 := Step(s2, Copy(1));
    assert s3 == State(Ring([SECOND, []], 0, 0, 0), 0, 0, HeldBy(0), [Placed(FIRST), Placed(SECOND)], [], []);
    ReachesThree(st, TakeEmpty(1, SECOND, Always), s1, Barge(1), s2, Copy(1), s3);
  }

  lemma BothAdvance(st: State)
    requires st == State(Ring([SECOND, []], 0, 0, 0), 0, 0, HeldBy(0), [Placed(FIRST), Placed(SECOND)], [], [])
    ensures Reaches(st, [Advance(1), Advance(0)],
                    State(Ring([SECOND, []], 0, 0, 2), 0, 0, HeldBy(0), [WroteLocked(false), WroteLocked(false)],
                          [SECOND, FIRST], []))
  {
    var s1 := Step(st, Advance(1));
    assert s1 == State(Ring([SECOND, []], 0, 1, 1), 0, 0, HeldBy(0), [Placed(FIRST), WroteLocked(false)], [SECOND], []);
    var s2 := Step(s1, Advance(0));
    assert [SECOND] + [FIRST] == [SECOND, FIRST];
    assert s2 == State(Ring([SECOND, []], 0, 0, 2), 0, 0, HeldBy(0), [WroteLocked(false), WroteLocked(false)],
                       [SECOND, FIRST], []);
  }

  /** An interrupt that posts while a poster is between its copy and moving the end on overwrites that message: both
      count as posted, one slot holds the interrupt's and the next holds neither. */
  lemma PostOverwritten()
    ensures Initial(EmptyBox())
    ensures exists st' :: Reaches(EmptyBox(), OVERWRITE, st') && Lost(st', FIRST)
  {
    var st1 := State(Ring([FIRST, []], 0, 0, 0), 1, 0, HeldBy(0), [Placed(FIRST), Idle], [], []);
    var st2 := State(Ring([SECOND, []], 0, 0, 0), 0, 0, HeldBy(0), [Placed(FIRST), Placed(SECOND)], [], []);
    var st3 := State(Ring([SECOND, []], 0, 0, 2), 0, 0, HeldBy(0), [WroteLocked(false), WroteLocked(false)],
                     [SECOND, FIRST], []);
    PostBegun(EmptyBox());
    InterruptPosts(st1);
    BothAdvance(st2);
    LostFirst(st3);
    var ops1 := [TakeEmpty(0, FIRST, Always), TakeLock(0), Copy(0)];
    var ops2 := [TakeEmpty(1, SECOND, Always), Barge(1), Copy(1)];
    var ops3 := [Advance(1), Advance(0)];
    assert ops1 + ops2 + ops3 == OVERWRITE;
    hide *;
    ReachesOn(EmptyBox(), ops1, st1, ops2, st2);
    ReachesOn(EmptyBox(), ops1 + ops2, st2, ops3, st3);
  }

  /** A message counts as posted, and is neither delivered nor unread. */
  predicate Lost(st: State, msg: Msg) {
    RingOk(st.ring) && msg in st.posted && msg !in st.delivered + Unread(st.ring)
  }

  lemma LostFirst(st: State)
    requires st.ring == Ring([SECOND, []], 0, 0, 2) && st.posted == [SECOND, FIRST] && st.delivered == []
    ensures Lost(st, FIRST)
  {
    assert Unread(st.ring) == [SECOND, []];
    assert FIRST == st.posted[1] && FIRST[0] != SECOND[0];
  }
}
