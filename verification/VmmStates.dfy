/** Demand paging as steps: one for each stretch of code that runs under a lock, and one for each write that code
    without the lock can see. Any number of threads fault, discard, release and wire at once; each is an actor with a
    place in its code. */
module VmmStates {

  datatype Link = None | Some(id: nat)

  /** Where a virtual page is: waiting for its origin, present on a frame, present on a fixed address, or freed. */
  datatype Where = Absent(origin: nat) | On(frame: nat) | OnFixed | Gone

  /** `own` is the origin minted with the page, `home` the mapping slot it was put in. */
  datatype Vp = Vp(place: Where, fixed: bool, own: nat, home: nat, busy: nat)

  datatype Origin = Origin(phys: Link, fixed: bool, file: bool, mutex: Link)

  /** `owner` is the actor that alone knows of the frame: it is loading it, or about to free it. `covered` while a
      critical section has its user marked busy. */
  datatype Frame = Frame(taken: bool, origin: Link, user: Link, wired: nat, dirty: bool, lock: Link, owner: Link,
      covered: bool)

  /** Where an actor is. F: handling a fault on slot s; D: discarding frame f; R: releasing slot s; W and U: wiring. */
  datatype Phase =
    | Idle
    | FHas(s: nat, o: nat)
    | FLoad(s: nat, o: nat)
    | FLocked(s: nat, o: nat)
    | FFrame(s: nat, o: nat, f: nat)
    | FAdopted(s: nat, o: nat, f: nat)
    | FMap(s: nat, o: nat, f: nat)
    | FEntered(s: nat, o: nat, f: nat)
    | FDone(s: nat, o: nat, f: nat)
    | DEntered(f: nat)
    | DUnmapped(f: nat)
    | DCleared(f: nat)
    | DLeft(f: nat)
    | RHas(s: nat, v: nat, f: nat)
    | REntered(s: nat, v: nat, f: nat)
    | RUnlinked(s: nat, v: nat, f: nat)
    | RDetached(s: nat, v: nat, f: nat, o: nat)
    | RFreed(s: nat, v: nat, f: nat, o: nat)
    | RCleaned(s: nat, v: nat, f: nat, o: nat)
    | WHas(s: nat, v: nat, f: nat)
    | UHas(f: nat)

  datatype State = State(
    slots: seq<Link>, vps: seq<Vp>, origins: seq<Origin>, frames: seq<Frame>, actors: seq<Phase>,
    vpRefs: seq<int>, originRefs: seq<int>)

  // ---- What a place in the code holds ----

  /** The frame whose spinlock the actor holds. */
  function LockHeld(p: Phase): Link {
    match p
    case FEntered(_, _, f) => Some(f)
    case FDone(_, _, f) => Some(f)
    case DEntered(f) => Some(f)
    case DUnmapped(f) => Some(f)
    case DCleared(f) => Some(f)
    case DLeft(f) => Some(f)
    case REntered(_, _, f) => Some(f)
    case RUnlinked(_, _, f) => Some(f)
    case _ => None
  }

  /** The frame whose user the actor has marked busy. */
  function Covers(p: Phase): Link {
    if p.DLeft? || p.RUnlinked? then None else LockHeld(p)
  }

  /** The origin whose mutex the actor holds. */
  function MutexHeld(p: Phase): Link {
    match p
    case FLocked(_, o) => Some(o)
    case FFrame(_, o, _) => Some(o)
    case FAdopted(_, o, _) => Some(o)
    case _ => None
  }

  /** The frame only this actor knows of. */
  function Owns(p: Phase): Link {
    match p
    case FFrame(_, _, f) => Some(f)
    case RDetached(_, _, f, _) => Some(f)
    case _ => None
  }

  /** The origin the actor holds a reference to. */
  function OriginHeld(p: Phase): Link {
    match p
    case FHas(_, o) => Some(o)
    case FLoad(_, o) => Some(o)
    case FLocked(_, o) => Some(o)
    case FFrame(_, o, _) => Some(o)
    case FAdopted(_, o, _) => Some(o)
    case FMap(_, o, _) => Some(o)
    case FEntered(_, o, _) => Some(o)
    case FDone(_, o, _) => Some(o)
    case RDetached(_, _, _, o) => Some(o)
    case RFreed(_, _, _, o) => Some(o)
    case RCleaned(_, _, _, o) => Some(o)
    case _ => None
  }

  /** The virtual page the actor holds references to, and how many: one of its own, and once the page is unlinked
      also the slot's and the frame's. */
  function VpHeld(p: Phase): Link {
    match p
    case RHas(_, v, _) => Some(v)
    case REntered(_, v, _) => Some(v)
    case RUnlinked(_, v, _) => Some(v)
    case RDetached(_, v, _, _) => Some(v)
    case RFreed(_, v, _, _) => Some(v)
    case RCleaned(_, v, _, _) => Some(v)
    case WHas(_, v, _) => Some(v)
    case _ => None
  }

  function VpHolds(p: Phase): nat {
    if p.RUnlinked? || p.RDetached? || p.RFreed? || p.RCleaned? then 3 else if VpHeld(p) == None then 0 else 1
  }

  // ---- Small updates ----

  function SetActor(st: State, a: nat, p: Phase): State
    requires a < |st.actors|
  {
    st.(actors := st.actors[a := p])
  }

  function SetFrame(st: State, f: nat, fr: Frame): State
    requires f < |st.frames|
  {
    st.(frames := st.frames[f := fr])
  }

  function SetOrigin(st: State, o: nat, or: Origin): State
    requires o < |st.origins|
  {
    st.(origins := st.origins[o := or])
  }

  function SetVp(st: State, v: nat, vp: Vp): State
    requires v < |st.vps|
  {
    st.(vps := st.vps[v := vp])
  }

  predicate Sized(st: State) {
    |st.vpRefs| == |st.vps| && |st.originRefs| == |st.origins|
  }

  function RefOrigin(st: State, o: nat, n: int): State {
    if o < |st.originRefs| then st.(originRefs := st.originRefs[o := st.originRefs[o] + n]) else st
  }

  function RefVp(st: State, v: nat, n: int): State {
    if v < |st.vpRefs| then st.(vpRefs := st.vpRefs[v := st.vpRefs[v] + n]) else st
  }

  /** DerefObject on a page: at zero it is freed, and with it the reference to an origin it waits for. */
  function DerefVp(st: State, v: nat, n: int): (r: State)
    ensures r.actors == st.actors && r.frames == st.frames && r.slots == st.slots && r.origins == st.origins
  {
    var st1 := RefVp(st, v, -n);
    if v < |st1.vpRefs| && v < |st1.vps| && st1.vpRefs[v] == 0 then
      var st2 := SetVp(st1, v, st1.vps[v].(place := Gone));
      if st1.vps[v].place.Absent? then RefOrigin(st2, st1.vps[v].place.origin, -1) else st2
    else st1
  }

  /** LeaveCriticalVirt's decrement, which asserts that it does not go below zero. */
  function LessBusy(vp: Vp): Vp {
    vp.(busy := if vp.busy > 0 then vp.busy - 1 else 0)
  }

  /** EnterCriticalVirt on a frame's user. */
  function EnterUser(st: State, user: Link): State {
    if user.Some? && user.id < |st.vps| then SetVp(st, user.id, st.vps[user.id].(busy := st.vps[user.id].busy + 1))
        else st
  }

  /** LeaveCriticalVirt on a frame's user. */
  function LeaveUser(st: State, user: Link): State {
    if user.Some? && user.id < |st.vps| then SetVp(st, user.id, LessBusy(st.vps[user.id])) else st
  }

  /** Acquires a frame's lock and marks its user busy. */
  function Enter(st: State, a: nat, f: nat, p: Phase): State
    requires a < |st.actors| && f < |st.frames|
  {
    SetActor(SetFrame(EnterUser(st, st.frames[f].user), f, st.frames[f].(lock := Some(a), covered := true)), a, p)
  }

  /** The user is no longer busy, and the lock is let go. */
  function LeaveAndUnlock(st: State, a: nat, f: nat): State
    requires a < |st.actors| && f < |st.frames|
  {
    SetActor(SetFrame(LeaveUser(st, st.frames[f].user), f, st.frames[f].(lock := None, covered := false)), a, Idle)
  }

  // ---- Steps ----

  datatype Op =
    | Create(s: nat, fixed: bool, file: bool)
    | Fault(a: nat, s: nat) | FixedFault(a: nat) | PeekPhys(a: nat) | LockOrigin(a: nat) | AllocFrame(a: nat, f: nat)
    | Adopt(a: nat) | Publish(a: nat) | EnterMap(a: nat) | Commit(a: nat) | LeaveMap(a: nat)
    | DiscardEnter(a: nat, f: nat) | DiscardGiveUp(a: nat) | DiscardUnmap(a: nat) | DiscardClear(a: nat)
    | DiscardLeave(a: nat) | DiscardFree(a: nat)
    | Release(a: nat, s: nat) | ReleaseEnter(a: nat) | ReleaseUnlink(a: nat) | ReleaseDetach(a: nat)
    | ReleaseFree(a: nat) | ReleaseClean(a: nat) | ReleaseReset(a: nat)
    | Wire(a: nat, s: nat) | WireFrame(a: nat) | Unwire(a: nat, s: nat) | UnwireFrame(a: nat)
    | Touch(f: nat)

  /** Slot s names page v. */
  predicate Names(st: State, s: nat, v: nat) {
    s < |st.slots| && st.slots[s] == Some(v) && v < |st.vps|
  }

  /** Slot s still names the page that waits for origin o. */
  predicate Waits(st: State, s: nat, o: nat) {
    s < |st.slots| && st.slots[s].Some? && st.slots[s].id < |st.vps| && st.vps[st.slots[s].id].place == Absent(o)
  }

  predicate FrameFree(st: State, f: nat) {
    f < |st.frames| && st.frames[f].lock == None
  }

  /** What FindDiscardPage asks of a victim, apart from which of them the clock takes. */
  predicate Usable(st: State, f: nat) {
    f < |st.frames| &&
    var fr := st.frames[f];
    && fr.wired == 0 && !fr.dirty && fr.user.Some? && fr.origin.Some? && fr.origin.id < |st.origins|
    && st.origins[fr.origin.id].file
  }

  /** Whether an actor can take this step: it is at that place, and the locks it needs are free. */
  predicate Allowed(st: State, op: Op) {
    match op
    case Create(s, _, _) => s < |st.slots| && st.slots[s] == None
    case Fault(a, s) => a < |st.actors| && st.actors[a].Idle? && s < |st.slots|
    case FixedFault(a) => a < |st.actors| && st.actors[a].FHas? && st.actors[a].o < |st.origins|
        && st.origins[st.actors[a].o].fixed
    case PeekPhys(a) => a < |st.actors| && st.actors[a].FHas? && st.actors[a].o < |st.origins|
        && !st.origins[st.actors[a].o].fixed
    case LockOrigin(a) => a < |st.actors| && st.actors[a].FLoad? && st.actors[a].o < |st.origins|
        && st.origins[st.actors[a].o].mutex == None
    case AllocFrame(a, f) => a < |st.actors| && st.actors[a].FLocked? && FrameFree(st, f) && !st.frames[f].taken
    case Adopt(a) => a < |st.actors| && st.actors[a].FFrame? && FrameFree(st, st.actors[a].f)
        && st.actors[a].o < |st.origins|
    case Publish(a) => a < |st.actors| && st.actors[a].FAdopted? && st.actors[a].o < |st.origins|
    case EnterMap(a) => a < |st.actors| && st.actors[a].FMap? && FrameFree(st, st.actors[a].f)
    case Commit(a) => a < |st.actors| && st.actors[a].FEntered? && st.actors[a].f < |st.frames|
    case LeaveMap(a) => a < |st.actors| && st.actors[a].FDone? && st.actors[a].f < |st.frames|
    case DiscardEnter(a, f) => a < |st.actors| && st.actors[a].Idle? && FrameFree(st, f)
    case DiscardGiveUp(a) => a < |st.actors| && st.actors[a].DEntered? && st.actors[a].f < |st.frames|
    case DiscardUnmap(a) => a < |st.actors| && st.actors[a].DEntered? && Usable(st, st.actors[a].f)
    case DiscardClear(a) => a < |st.actors| && st.actors[a].DUnmapped? && st.actors[a].f < |st.frames|
    case DiscardLeave(a) => a < |st.actors| && st.actors[a].DCleared? && st.actors[a].f < |st.frames|
    case DiscardFree(a) => a < |st.actors| && st.actors[a].DLeft? && st.actors[a].f < |st.frames|
    case Release(a, s) => a < |st.actors| && st.actors[a].Idle? && s < |st.slots| && st.slots[s].Some?
        && st.slots[s].id < |st.vps|
    case ReleaseEnter(a) => a < |st.actors| && st.actors[a].RHas? && FrameFree(st, st.actors[a].f)
    case ReleaseUnlink(a) => a < |st.actors| && st.actors[a].REntered? && st.actors[a].f < |st.frames|
    case ReleaseDetach(a) => a < |st.actors| && st.actors[a].RUnlinked? && st.actors[a].f < |st.frames|
    case ReleaseFree(a) => a < |st.actors| && st.actors[a].RDetached? && st.actors[a].f < |st.frames|
    case ReleaseClean(a) => a < |st.actors| && st.actors[a].RFreed? && st.actors[a].f < |st.frames|
    case ReleaseReset(a) => a < |st.actors| && st.actors[a].RCleaned? && st.actors[a].f < |st.frames|
    case Wire(a, s) => a < |st.actors| && st.actors[a].Idle? && s < |st.slots|
    case WireFrame(a) => a < |st.actors| && st.actors[a].WHas? && FrameFree(st, st.actors[a].f)
    case Unwire(a, s) => a < |st.actors| && st.actors[a].Idle? && s < |st.slots|
    case UnwireFrame(a) => a < |st.actors| && st.actors[a].UHas? && FrameFree(st, st.actors[a].f)
    case Touch(f) => f < |st.frames| && st.frames[f].user.Some?
  }

  /** A new page waits in an empty slot for an origin of its own. */
  function CreateStep(st: State, s: nat, fixed: bool, file: bool): State
    requires s < |st.slots|
  {
    var v, o := |st.vps|, |st.origins|;
    st.(slots := st.slots[s := Some(v)], vps := st.vps + [Vp(Absent(o), fixed, o, s, 0)],
        origins := st.origins + [Origin(None, fixed, file, None)], vpRefs := st.vpRefs + [1],
            originRefs := st.originRefs + [1])
  }

  /** The first look under the address space's lock: an absent page's origin is kept alive across the unlock. */
  function FaultStep(st: State, a: nat, s: nat): State
    requires a < |st.actors| && s < |st.slots|
  {
    if st.slots[s].Some? && st.slots[s].id < |st.vps| && st.vps[st.slots[s].id].place.Absent? then
      var o := st.vps[st.slots[s].id].place.origin;
      RefOrigin(SetActor(st, a, FHas(s, o)), o, 1)
    else st
  }

  function FixedStep(st: State, a: nat, s: nat, o: nat): State
    requires a < |st.actors|
  {
    var st1 := SetActor(st, a, Idle);
    if Waits(st, s, o) then
      var v := st.slots[s].id;
      RefOrigin(SetVp(st1, v, st1.vps[v].(place := OnFixed)), o, -2)
    else RefOrigin(st1, o, -1)
  }

  /** A look at where the origin's frame is, with no lock held. */
  function PeekStep(st: State, a: nat, s: nat, o: nat): State
    requires a < |st.actors| && o < |st.origins|
  {
    var phys := st.origins[o].phys;
    SetActor(st, a, if phys == None then FLoad(s, o) else FMap(s, o, phys.id))
  }

  function LockOriginStep(st: State, a: nat, s: nat, o: nat): State
    requires a < |st.actors| && o < |st.origins|
  {
    if st.origins[o].phys == None then SetActor(SetOrigin(st, o, st.origins[o].(mutex := Some(a))), a, FLocked(s, o))
    else RefOrigin(SetActor(st, a, Idle), o, -1)
  }

  /** AllocPhys, pinned. */
  function AllocStep(st: State, a: nat, s: nat, o: nat, f: nat): State
    requires a < |st.actors| && f < |st.frames|
  {
    SetActor(SetFrame(st, f, st.frames[f].(taken := true, wired := 1, owner := Some(a))), a, FFrame(s, o, f))
  }

  /** The loaded frame becomes its origin's. */
  function AdoptStep(st: State, a: nat, s: nat, o: nat, f: nat): State
    requires a < |st.actors| && f < |st.frames|
  {
    var st1 := SetFrame(st, f, st.frames[f].(origin := Some(o), wired := 0, dirty := false, owner := None));
    RefOrigin(SetActor(st1, a, FAdopted(s, o, f)), o, 1)
  }

  /** The origin names it, and its mutex is let go. */
  function PublishStep(st: State, a: nat, o: nat, f: nat): State
    requires a < |st.actors| && o < |st.origins|
  {
    RefOrigin(SetActor(SetOrigin(st, o, st.origins[o].(phys := Some(f), mutex := None)), a, Idle), o, -1)
  }

  /** The commit: only if the frame still belongs to the origin and the slot still names the waiting page. */
  function CommitStep(st: State, a: nat, s: nat, o: nat, f: nat): State
    requires a < |st.actors| && f < |st.frames|
  {
    var st1 := SetActor(st, a, FDone(s, o, f));
    if st.frames[f].origin == Some(o) && Waits(st, s, o) then
      var v := st.slots[s].id;
      var st2 := SetVp(st1, v, st1.vps[v].(place := On(f), busy := st1.vps[v].busy + 1));
      RefVp(RefOrigin(SetFrame(st2, f, st2.frames[f].(user := Some(v))), o, -1), v, 1)
    else st1
  }

  /** DiscardVirt: the page waits for its origin again. */
  function UnmapStep(st: State, a: nat, f: nat): State
    requires a < |st.actors| && Usable(st, f)
  {
    var st1 := SetActor(st, a, DUnmapped(f));
    var v, o := st.frames[f].user.id, st.frames[f].origin.id;
    if v < |st.vps| then RefOrigin(SetVp(st1, v, st1.vps[v].(place := Absent(o))), o, 1) else st1
  }

  function ClearPhys(st: State, origin: Link): State {
    if origin.Some? && origin.id < |st.origins| then SetOrigin(st, origin.id, st.origins[origin.id].(phys := None))
        else st
  }

  function ClearStep(st: State, a: nat, f: nat): State
    requires a < |st.actors| && f < |st.frames|
  {
    SetActor(ClearPhys(st, st.frames[f].origin), a, DCleared(f))
  }

  /** The page is no longer busy on account of the frame, which still lists it. */
  function LeaveStep(st: State, a: nat, f: nat): State
    requires a < |st.actors| && f < |st.frames|
  {
    SetActor(SetFrame(LeaveUser(st, st.frames[f].user), f, st.frames[f].(covered := false)), a, DLeft(f))
  }

  /** FreeDiscardedPhys; a discard calls it under the frame's lock. */
  function Freed(fr: Frame): Frame {
    fr.(taken := false, origin := None, user := None, wired := 0, dirty := false)
  }

  function DiscardFreeStep(st: State, a: nat, f: nat): State
    requires a < |st.actors| && f < |st.frames|
  {
    var user, origin := st.frames[f].user, st.frames[f].origin;
    var st1 := SetActor(SetFrame(st, f, Freed(st.frames[f]).(lock := None)), a, Idle);
    var st2 := if origin.Some? then RefOrigin(st1, origin.id, -1) else st1;
    if user.Some? then DerefVp(st2, user.id, 1) else st2
  }

  function ReleaseStep(st: State, a: nat, s: nat): State
    requires a < |st.actors| && s < |st.slots| && st.slots[s].Some? && st.slots[s].id < |st.vps|
  {
    var v := st.slots[s].id;
    match st.vps[v].place
    case On(f) => RefVp(SetActor(st, a, RHas(s, v, f)), v, 1)
    case Absent(_) => DerefVp(st.(slots := st.slots[s := None]), v, 1)
    case OnFixed => DerefVp(st.(slots := st.slots[s := None]), v, 1)
    case Gone => DerefVp(st.(slots := st.slots[s := None]), v, 1)
  }

  /** Under both locks: the page leaves its slot and its frame, or the look was stale and is taken again. */
  function UnlinkStep(st: State, a: nat, s: nat, v: nat, f: nat): State
    requires a < |st.actors| && f < |st.frames|
  {
    if Names(st, s, v) && st.vps[v].place == On(f) then
      var st1 := SetActor(st, a, RUnlinked(s, v, f)).(slots := st.slots[s := None]);
      SetFrame(SetVp(st1, v, LessBusy(st1.vps[v])), f, st.frames[f].(user := None, covered := false))
    else DerefVp(LeaveAndUnlock(st, a, f), v, 1)
  }

  /** The frame is taken from its origin, and its lock let go; only this actor knows of it now. */
  function DetachStep(st: State, a: nat, s: nat, v: nat, f: nat): State
    requires a < |st.actors| && f < |st.frames|
  {
    var origin := st.frames[f].origin;
    var st1 := SetFrame(ClearPhys(st, origin), f, st.frames[f].(origin := None, lock := None, owner := Some(a)));
    SetActor(st1, a, RDetached(s, v, f, if origin.Some? then origin.id else 0))
  }

  /** A release calls FreeDiscardedPhys with no lock held. Its first write lets others have the frame, */
  function ReleaseFreeStep(st: State, a: nat, s: nat, v: nat, f: nat, o: nat): State
    requires a < |st.actors| && f < |st.frames|
  {
    SetActor(SetFrame(st, f, st.frames[f].(taken := false, owner := None)), a, RFreed(s, v, f, o))
  }

  /** the next cleans it, whoever has it by now, */
  function ReleaseCleanStep(st: State, a: nat, s: nat, v: nat, f: nat, o: nat): State
    requires a < |st.actors| && f < |st.frames|
  {
    SetActor(SetFrame(st, f, st.frames[f].(dirty := false)), a, RCleaned(s, v, f, o))
  }

  /** and the last unwires it. */
  function ReleaseResetStep(st: State, a: nat, v: nat, f: nat, o: nat): State
    requires a < |st.actors| && f < |st.frames|
  {
    var st1 := SetActor(SetFrame(st, f, st.frames[f].(wired := 0)), a, Idle);
    DerefVp(RefOrigin(st1, o, -1), v, 3)
  }

  function WireStep(st: State, a: nat, s: nat): State
    requires a < |st.actors| && s < |st.slots|
  {
    if st.slots[s].Some? && st.slots[s].id < |st.vps| && st.vps[st.slots[s].id].place.On?
        && st.vps[st.slots[s].id].busy == 0
    then RefVp(SetActor(st, a, WHas(s, st.slots[s].id, st.vps[st.slots[s].id].place.frame)), st.slots[s].id, 1)
    else st
  }

  function WireFrameStep(st: State, a: nat, s: nat, v: nat, f: nat): State
    requires a < |st.actors| && f < |st.frames|
  {
    var st1 := SetActor(st, a, Idle);
    var st2 := if Names(st, s, v) && st.vps[v].place == On(f)
               then SetFrame(st1, f, st1.frames[f].(wired := st1.frames[f].wired + 1)) else st1;
    DerefVp(st2, v, 1)
  }

  function UnwireStep(st: State, a: nat, s: nat): State
    requires a < |st.actors| && s < |st.slots|
  {
    if st.slots[s].Some? && st.slots[s].id < |st.vps| && st.vps[st.slots[s].id].place.On?
    then SetActor(st, a, UHas(st.vps[st.slots[s].id].place.frame)) else st
  }

  function UnwireFrameStep(st: State, a: nat, f: nat): State
    requires a < |st.actors| && f < |st.frames|
  {
    var fr := st.frames[f];
    SetActor(SetFrame(st, f, fr.(wired := if fr.wired > 0 then fr.wired - 1 else 0)), a, Idle)
  }

  predicate Releases(op: Op) {
    op.Release? || op.ReleaseEnter? || op.ReleaseUnlink? || op.ReleaseDetach? || op.ReleaseFree? || op.ReleaseClean?
    || op.ReleaseReset?
  }

  function ReleaseTo(st: State, op: Op): State
    requires Allowed(st, op) && Releases(op)
  {
    match op
    case Release(a, s) => ReleaseStep(st, a, s)
    case ReleaseEnter(a) =>
      Enter(st, a, st.actors[a].f, REntered(st.actors[a].s, st.actors[a].v, st.actors[a].f))
    case ReleaseUnlink(a) => UnlinkStep(st, a, st.actors[a].s, st.actors[a].v, st.actors[a].f)
    case ReleaseDetach(a) => DetachStep(st, a, st.actors[a].s, st.actors[a].v, st.actors[a].f)
    case ReleaseFree(a) =>
      ReleaseFreeStep(st, a, st.actors[a].s, st.actors[a].v, st.actors[a].f, st.actors[a].o)
    case ReleaseClean(a) =>
      ReleaseCleanStep(st, a, st.actors[a].s, st.actors[a].v, st.actors[a].f, st.actors[a].o)
    case ReleaseReset(a) => ReleaseResetStep(st, a, st.actors[a].v, st.actors[a].f, st.actors[a].o)
  }

  function Step(st: State, op: Op): State
    requires Allowed(st, op)
  {
    if Releases(op) then ReleaseTo(st, op) else
    match op
    case Create(s, fixed, file) => CreateStep(st, s, fixed, file)
    case Fault(a, s) => FaultStep(st, a, s)
    case FixedFault(a) => FixedStep(st, a, st.actors[a].s, st.actors[a].o)
    case PeekPhys(a) => PeekStep(st, a, st.actors[a].s, st.actors[a].o)
    case LockOrigin(a) => LockOriginStep(st, a, st.actors[a].s, st.actors[a].o)
    case AllocFrame(a, f) => AllocStep(st, a, st.actors[a].s, st.actors[a].o, f)
    case Adopt(a) => AdoptStep(st, a, st.actors[a].s, st.actors[a].o, st.actors[a].f)
    case Publish(a) => PublishStep(st, a, st.actors[a].o, st.actors[a].f)
    case EnterMap(a) => Enter(st, a, st.actors[a].f, FEntered(st.actors[a].s, st.actors[a].o, st.actors[a].f))
    case Commit(a) => CommitStep(st, a, st.actors[a].s, st.actors[a].o, st.actors[a].f)
    case LeaveMap(a) => RefOrigin(LeaveAndUnlock(st, a, st.actors[a].f), st.actors[a].o, -1)
    case DiscardEnter(a, f) => Enter(st, a, f, DEntered(f))
    case DiscardGiveUp(a) => LeaveAndUnlock(st, a, st.actors[a].f)
    case DiscardUnmap(a) => UnmapStep(st, a, st.actors[a].f)
    case DiscardClear(a) => ClearStep(st, a, st.actors[a].f)
    case DiscardLeave(a) => LeaveStep(st, a, st.actors[a].f)
    case DiscardFree(a) => DiscardFreeStep(st, a, st.actors[a].f)
    case Wire(a, s) => WireStep(st, a, s)
    case WireFrame(a) => WireFrameStep(st, a, st.actors[a].s, st.actors[a].v, st.actors[a].f)
    case Unwire(a, s) => UnwireStep(st, a, s)
    case UnwireFrame(a) => UnwireFrameStep(st, a, st.actors[a].f)
    case Touch(f) => SetFrame(st, f, st.frames[f].(dirty := true))
  }
}
