/** The queue interrupt handlers post messages to: 32 slots and two bitmaps changed by compare-and-swap, no lock. */
module IrqQueue {

  const SLOTS := 32

  type Msg = seq<int>

  /** Where a caller is: a producer claims a slot's bit, stores the message, and sets the filled bit; a consumer wins
      the filled bit, copies the message out, and clears the claimed bit. */
  datatype Phase =
    | Idle | Claimed(slot: nat, msg: Msg) | Stored(slot: nat) | Won(slot: nat) | Copied(slot: nat, msg: Msg)

  /** Whose a slot is. */
  datatype Owner = NoOne | By(actor: nat) | Full

  /** `id[s]` numbers the message slot s was claimed for: the position in `posted`. */
  datatype State = State(
    claimed: seq<bool>, filled: seq<bool>, data: seq<Msg>, actors: seq<Phase>,
    owner: seq<Owner>, id: seq<nat>, posted: seq<Msg>, delivered: seq<(nat, Msg)>)

  /** The first bit with this value, as counting trailing zeros finds it; past the end if there is none. */
  function FirstBit(bits: seq<bool>, value: bool): (k: nat)
    ensures k <= |bits| && (k < |bits| ==> bits[k] == value)
    ensures forall j :: 0 <= j < k ==> bits[j] != value
  {
    if bits == [] || bits[0] == value then 0 else 1 + FirstBit(bits[1..], value)
  }

  datatype Op =
    | Claim(actor: nat, msg: Msg) | Store(actor: nat) | Publish(actor: nat)
    | Win(actor: nat) | Copy(actor: nat) | Clear(actor: nat)

  /** A swap that fails changes nothing, so a step is a swap that succeeds, or one of the writes around it. A full queue
      turns producers away (ENOBUFS), an empty one consumers (EAGAIN). */
  predicate Allowed(st: State, op: Op) {
    op.actor < |st.actors| &&
    var p := st.actors[op.actor];
    match op
    case Claim(_, _) => p.Idle? && FirstBit(st.claimed, false) < |st.claimed|
    case Store(_) => p.Claimed?
    case Publish(_) => p.Stored?
    case Win(_) => p.Idle? && FirstBit(st.filled, true) < |st.filled|
    case Copy(_) => p.Won?
    case Clear(_) => p.Copied?
  }

  predicate Sized(st: State) {
    && |st.claimed| == |st.filled| == |st.data| == |st.owner| == |st.id| == SLOTS
    && forall i :: 0 <= i < |st.actors| && !st.actors[i].Idle? ==> st.actors[i].slot < SLOTS
  }

  function Step(st: State, op: Op): State
    requires Sized(st) && Allowed(st, op)
  {
    var i := op.actor;
    var p := st.actors[i];
    match op
    case Claim(_, msg) =>
      var s := FirstBit(st.claimed, false);
      st.(claimed := st.claimed[s := true], actors := st.actors[i := Claimed(s, msg)], owner := st.owner[s := By(i)],
          id := st.id[s := |st.posted|], posted := st.posted + [msg])
    case Store(_) => st.(data := st.data[p.slot := p.msg], actors := st.actors[i := Stored(p.slot)])
    case Publish(_) =>
      st.(filled := st.filled[p.slot := true], actors := st.actors[i := Idle], owner := st.owner[p.slot := Full])
    case Win(_) =>
      var s := FirstBit(st.filled, true);
      st.(filled := st.filled[s := false], actors := st.actors[i := Won(s)], owner := st.owner[s := By(i)])
    case Copy(_) => st.(actors := st.actors[i := Copied(p.slot, st.data[p.slot])])
    case Clear(_) =>
      st.(claimed := st.claimed[p.slot := false], actors := st.actors[i := Idle], owner := st.owner[p.slot := NoOne],
          delivered := st.delivered + [(st.id[p.slot], p.msg)])
  }

  // ---- What always holds ----

  /** A caller in the middle of something owns the slot it works on, and sees the message the slot was claimed for. */
  predicate Working(st: State, s: nat, i: nat)
    requires Sized(st) && s < SLOTS && st.id[s] < |st.posted|
  {
    i < |st.actors| && !st.actors[i].Idle? && st.actors[i].slot == s &&
    var msg := st.posted[st.id[s]];
    match st.actors[i]
    case Claimed(_, m) => m == msg
    case Stored(_) => st.data[s] == msg
    case Won(_) => st.data[s] == msg
    case Copied(_, m) => m == msg
  }

  /** The bits of a slot say whose it is. */
  predicate SlotOk(st: State, s: nat)
    requires Sized(st) && s < SLOTS
  {
    match st.owner[s]
    case NoOne => !st.claimed[s] && !st.filled[s]
    case By(i) => st.claimed[s] && !st.filled[s] && st.id[s] < |st.posted| && Working(st, s, i)
    case Full => st.claimed[s] && st.filled[s] && st.id[s] < |st.posted| && st.data[s] == st.posted[st.id[s]]
  }

  ghost predicate SlotsOk(st: State)
    requires Sized(st)
  {
    && (forall s {:trigger SlotOk(st, s)} :: 0 <= s < SLOTS ==> SlotOk(st, s))
    && (forall i :: 0 <= i < |st.actors| && !st.actors[i].Idle? ==> st.owner[st.actors[i].slot] == By(i))
  }

  /** Message k is in slot s. */
  predicate InSlot(st: State, k: nat, s: nat)
    requires Sized(st)
  {
    s < SLOTS && st.owner[s] != NoOne && st.id[s] == k
  }

  predicate WasDelivered(st: State, k: nat, d: nat) {
    d < |st.delivered| && st.delivered[d].0 == k
  }

  /** No message is in two slots, delivered twice, or both delivered and in a slot, and each is delivered as it was
      posted. */
  ghost predicate OnceAtMost(st: State)
    requires Sized(st)
  {
    && (forall k: nat, s: nat, t: nat :: InSlot(st, k, s) && InSlot(st, k, t) ==> s == t)
    && (forall k: nat, d: nat, e: nat :: WasDelivered(st, k, d) && WasDelivered(st, k, e) ==> d == e)
    && (forall k: nat, s: nat, d: nat :: InSlot(st, k, s) ==> !WasDelivered(st, k, d))
    && (forall k: nat, s: nat :: InSlot(st, k, s) ==> k < |st.posted|)
    && (forall d :: 0 <= d < |st.delivered| ==>
          st.delivered[d].0 < |st.posted| && st.delivered[d].1 == st.posted[st.delivered[d].0])
  }

  /** No message is lost. */
  ghost predicate Present(st: State, k: nat)
    requires Sized(st)
  {
    (exists s: nat :: InSlot(st, k, s)) || (exists d: nat :: WasDelivered(st, k, d))
  }

  ghost predicate OnceAtLeast(st: State)
    requires Sized(st)
  {
    forall k {:trigger Present(st, k)} :: 0 <= k < |st.posted| ==> Present(st, k)
  }

  ghost predicate Inv(st: State) {
    Sized(st) && SlotsOk(st) && OnceAtMost(st) && OnceAtLeast(st)
  }

  /** The slot an operation works on. */
  function SlotOf(st: State, op: Op): nat
    requires Sized(st) && Allowed(st, op)
  {
    match op
    case Claim(_, _) => FirstBit(st.claimed, false)
    case Win(_) => FirstBit(st.filled, true)
    case Store(i) => st.actors[i].slot
    case Publish(i) => st.actors[i].slot
    case Copy(i) => st.actors[i].slot
    case Clear(i) => st.actors[i].slot
  }

  lemma SlotKnown(st: State, op: Op)
    requires Inv(st) && Allowed(st, op)
    ensures var s := SlotOf(st, op);
            && s < SLOTS && SlotOk(st, s)
            && (op.Claim? ==> st.owner[s] == NoOne) && (op.Win? ==> st.owner[s] == Full)
            && (!op.Claim? && !op.Win? ==> st.owner[s] == By(op.actor) && Working(st, s, op.actor))
  {
    hide OnceAtMost, OnceAtLeast;
    assert SlotOk(st, SlotOf(st, op));
  }

  lemma SlotsKept(st: State, op: Op)
    requires Inv(st) && Allowed(st, op)
    ensures Sized(Step(st, op)) && SlotsOk(Step(st, op))
  {
    hide OnceAtMost, OnceAtLeast;
    SlotKnown(st, op);
    var st' := Step(st, op);
    forall s | 0 <= s < SLOTS
      ensures SlotOk(st', s)
    {
      assert SlotOk(st, s);
    }
  }

  lemma MostKept(st: State, op: Op)
    requires Inv(st) && Allowed(st, op) && Sized(Step(st, op))
    ensures OnceAtMost(Step(st, op))
  {
    hide OnceAtLeast, SlotsOk;
    SlotKnown(st, op);
    var st', x := Step(st, op), SlotOf(st, op);
    SlotMoves(st, op);
    if op.Clear? {
      forall k: nat, d: nat
        ensures WasDelivered(st', k, d) <==> WasDelivered(st, k, d) || (d == |st.delivered| && InSlot(st, k, x))
      {
      }
    } else {
      forall k: nat, d: nat
        ensures WasDelivered(st', k, d) <==> WasDelivered(st, k, d)
      {
      }
      forall d: nat | d < |st.delivered| ensures WasDelivered(st, st.delivered[d].0, d) {}
    }
    hide SlotOk, Working, InSlot, WasDelivered;
    DeliveredKept(st, op);
  }

  lemma SlotMoves(st: State, op: Op)
    requires Inv(st) && Allowed(st, op) && Sized(Step(st, op))
    ensures var x := SlotOf(st, op);
            forall k: nat, s: nat {:trigger InSlot(Step(st, op), k, s)} ::
              InSlot(Step(st, op), k, s) <==>
              if s == x && op.Claim? then k == |st.posted| else if s == x && op.Clear? then false else InSlot(st, k, s)
    ensures op.Claim? ==> forall s: nat, d: nat :: !InSlot(st, |st.posted|, s) && !WasDelivered(st, |st.posted|, d)
  {
    hide OnceAtLeast;
    SlotKnown(st, op);
    hide SlotsOk, Working;
  }

  lemma DeliveredKept(st: State, op: Op)
    requires Inv(st) && Allowed(st, op)
    ensures var st' := Step(st, op);
            forall d :: 0 <= d < |st'.delivered| ==>
              st'.delivered[d].0 < |st'.posted| && st'.delivered[d].1 == st'.posted[st'.delivered[d].0]
  {
    SlotKnown(st, op);
    hide OnceAtLeast, SlotsOk;
  }

  lemma LeastKept(st: State, op: Op)
    requires Inv(st) && Allowed(st, op) && Sized(Step(st, op))
    ensures OnceAtLeast(Step(st, op))
  {
    hide OnceAtMost, SlotsOk;
    SlotKnown(st, op);
    SlotMoves(st, op);
    var st', x := Step(st, op), SlotOf(st, op);
    forall k | 0 <= k < |st'.posted|
      ensures Present(st', k)
    {
      if op.Claim? && k == |st.posted| {
        assert InSlot(st', k, x);
      } else {
        assert Present(st, k);
        if d: nat :| WasDelivered(st, k, d) {
          assert WasDelivered(st', k, d);
        } else {
          var s: nat :| InSlot(st, k, s);
          if op.Clear? && s == x {
            assert WasDelivered(st', k, |st.delivered|);
          } else {
            assert InSlot(st', k, s);
          }
        }
      }
    }
  }

  lemma StepKeeps(st: State, op: Op)
    requires Inv(st) && Allowed(st, op)
    ensures Inv(Step(st, op))
  {
    hide SlotsOk, OnceAtMost, OnceAtLeast, Step;
    SlotsKept(st, op);
    MostKept(st, op);
    LeastKept(st, op);
  }

  // ---- Runs ----

  ghost predicate Initial(st: State) {
    && Sized(st) && st.posted == [] && st.delivered == []
    && (forall s :: 0 <= s < SLOTS ==> !st.claimed[s] && !st.filled[s] && st.owner[s] == NoOne)
    && forall i :: 0 <= i < |st.actors| ==> st.actors[i] == Idle
  }

  ghost predicate Reaches(st: State, ops: seq<Op>, st': State)
    decreases |ops|
  {
    if ops == [] then st' == st
    else Inv(st) && Allowed(st, ops[0]) && Reaches(Step(st, ops[0]), ops[1..], st')
  }

  lemma {:induction false} RunKeeps(st: State, ops: seq<Op>, st': State)
    requires Inv(st) && Reaches(st, ops, st')
    ensures Inv(st')
    decreases |ops|
  {
    assert Sized(st);
    hide Inv, Step;
    if ops != [] {
      StepKeeps(st, ops[0]);
      RunKeeps(Step(st, ops[0]), ops[1..], st');
    }
  }

  /** In every interleaving of interrupt handlers and consumers, each posted message is in exactly one slot until it is
      delivered, is delivered at most once, and is delivered as it was posted. */
  lemma DeliveredOnce(st: State, ops: seq<Op>, st': State, k: nat, d: nat, e: nat)
    requires Initial(st) && Reaches(st, ops, st') && k < |st'.posted|
    ensures Sized(st') && Present(st', k)
    ensures WasDelivered(st', k, d) ==> st'.delivered[d].1 == st'.posted[k]
    ensures WasDelivered(st', k, d) && WasDelivered(st', k, e) ==> d == e
    ensures WasDelivered(st', k, d) ==> !InSlot(st', k, e)
  {
    InitialInv(st);
    hide Initial, Reaches, SlotsOk;
    RunKeeps(st, ops, st');
  }

  lemma InitialInv(st: State)
    requires Initial(st)
    ensures Inv(st)
  {
    forall s | 0 <= s < SLOTS
      ensures SlotOk(st, s)
    {
    }
  }
}
