/** Who names whom in the paging structures, in every state the steps can reach. */
module VmmShape {
  import opened VmmStates

  /** The holder of frame f's lock is past unmapping its user. */
  predicate Unmapping(st: State, f: nat)
    requires f < |st.frames|
  {
    st.frames[f].lock.Some? && st.frames[f].lock.id < |st.actors| &&
    var p := st.actors[st.frames[f].lock.id];
    p == DUnmapped(f) || p == DCleared(f) || p == DLeft(f)
  }

  /** ... or past unlinking it. */
  predicate Unlinking(st: State, f: nat)
    requires f < |st.frames|
  {
    st.frames[f].lock.Some? && st.frames[f].lock.id < |st.actors| &&
    var p := st.actors[st.frames[f].lock.id];
    p.RUnlinked? && p.f == f
  }

  /** ... and past clearing its origin's way to it. */
  predicate Cleared(st: State, f: nat)
    requires f < |st.frames|
  {
    st.frames[f].lock.Some? && st.frames[f].lock.id < |st.actors| &&
    var p := st.actors[st.frames[f].lock.id];
    p == DCleared(f) || p == DLeft(f)
  }

  /** The holder of o's mutex has made frame f its origin's and not published it yet. */
  predicate Adopting(st: State, o: nat, f: nat)
    requires o < |st.origins|
  {
    st.origins[o].mutex.Some? && st.origins[o].mutex.id < |st.actors| &&
    var p := st.actors[st.origins[o].mutex.id];
    p.FAdopted? && p.o == o && p.f == f
  }

  predicate FrameOk(st: State, f: nat)
    requires f < |st.frames|
  {
    var fr := st.frames[f];
    && (fr.lock.Some? ==> fr.lock.id < |st.actors| && LockHeld(st.actors[fr.lock.id]) == Some(f))
    && (fr.lock == None ==> !fr.covered)
    && (fr.owner.Some? ==>
          fr.owner.id < |st.actors| && Owns(st.actors[fr.owner.id]) == Some(f) && fr.taken && fr.origin == None
              && fr.user == None)
    && (!fr.taken ==> fr.origin == None && fr.user == None && fr.owner == None)
    && (fr.user.Some? ==>
          var v := fr.user.id;
          && v < |st.vps| && !st.vps[v].fixed && fr.origin == Some(st.vps[v].own)
          && (st.vps[v].place == On(f) || Unmapping(st, f)))
    && (fr.origin.Some? ==>
          var o := fr.origin.id;
          && o < |st.origins| && !st.origins[o].fixed
          && (st.origins[o].phys == Some(f) || Cleared(st, f) || Adopting(st, o, f)))
  }

  predicate OriginOk(st: State, o: nat)
    requires o < |st.origins|
  {
    var or := st.origins[o];
    && (or.phys.Some? ==>
          or.phys.id < |st.frames| && st.frames[or.phys.id].taken && st.frames[or.phys.id].origin == Some(o))
    && (or.mutex.Some? ==> or.mutex.id < |st.actors| && MutexHeld(st.actors[or.mutex.id]) == Some(o))
    && (or.fixed ==> or.phys == None)
  }

  predicate VpOk(st: State, v: nat)
    requires v < |st.vps|
  {
    var vp := st.vps[v];
    && vp.own < |st.origins| && vp.home < |st.slots| && vp.fixed == st.origins[vp.own].fixed
    && match vp.place
       case Absent(o) => o == vp.own
       case On(f) => !vp.fixed && f < |st.frames| && (st.slots[vp.home] == Some(v) ==> st.frames[f].user == Some(v))
       case OnFixed => vp.fixed
       case Gone => true
  }

  predicate SlotOk(st: State, s: nat)
    requires s < |st.slots|
  {
    st.slots[s].Some? ==>
      var v := st.slots[s].id; v < |st.vps| && st.vps[v].home == s && st.vps[v].place != Gone
  }

  /** What an actor's place in the code says about what it holds. */
  predicate HoldsOk(st: State, a: nat)
    requires a < |st.actors|
  {
    var p := st.actors[a];
    && (LockHeld(p).Some? ==>
          var f := LockHeld(p).id;
          f < |st.frames| && st.frames[f].lock == Some(a) && (st.frames[f].covered <==> Covers(p).Some?))
    && (MutexHeld(p).Some? ==>
          var o := MutexHeld(p).id;
          o < |st.origins| && st.origins[o].mutex == Some(a) && st.origins[o].phys == None)
    && (Owns(p).Some? ==> Owns(p).id < |st.frames| && st.frames[Owns(p).id].owner == Some(a))
    && (OriginHeld(p).Some? ==> OriginHeld(p).id < |st.origins| && (!p.FHas? ==> !st.origins[OriginHeld(p).id].fixed))
    && (VpHeld(p).Some? ==> VpHeld(p).id < |st.vps|)
  }

  predicate PlaceOk(st: State, a: nat)
    requires a < |st.actors|
  {
    match st.actors[a]
    case FAdopted(_, o, f) =>
      f < |st.frames| && st.frames[f].taken && st.frames[f].origin == Some(o) && !Unmapping(st, f) && !Unlinking(st, f)
    case FMap(_, _, f) => f < |st.frames|
    case DUnmapped(f) =>
      f < |st.frames| && Discarding(st, f)
      && st.vps[st.frames[f].user.id].place == Absent(st.vps[st.frames[f].user.id].own)
      && st.origins[st.vps[st.frames[f].user.id].own].phys == Some(f)
    case DCleared(f) =>
      f < |st.frames| && Discarding(st, f) && st.origins[st.vps[st.frames[f].user.id].own].phys != Some(f)
    case DLeft(f) =>
      f < |st.frames| && Discarding(st, f) && st.origins[st.vps[st.frames[f].user.id].own].phys != Some(f)
    case RHas(_, _, f) => f < |st.frames|
    case RUnlinked(_, _, f) =>
      f < |st.frames| && st.frames[f].user == None && st.frames[f].taken
      && st.frames[f].origin.Some? && st.frames[f].origin.id < |st.origins|
      && st.origins[st.frames[f].origin.id].phys == Some(f)
    case RFreed(_, _, f, _) => f < |st.frames|
    case RCleaned(_, _, f, _) => f < |st.frames|
    case WHas(_, _, f) => f < |st.frames|
    case UHas(f) => f < |st.frames|
    case _ => true
  }

  /** A frame being discarded still has its user, which is no longer on it, and is not wired. */
  predicate Discarding(st: State, f: nat)
    requires f < |st.frames|
  {
    && st.frames[f].user.Some? && st.frames[f].user.id < |st.vps| && st.frames[f].wired == 0
    && st.vps[st.frames[f].user.id].own < |st.origins|
    && st.frames[f].origin == Some(st.vps[st.frames[f].user.id].own)
    && st.vps[st.frames[f].user.id].place != On(f)
  }

  ghost predicate FramesOk(st: State) {
    forall f {:trigger FrameOk(st, f)} :: 0 <= f < |st.frames| ==> FrameOk(st, f)
  }

  ghost predicate OriginsOk(st: State) {
    forall o {:trigger OriginOk(st, o)} :: 0 <= o < |st.origins| ==> OriginOk(st, o)
  }

  ghost predicate VpsOk(st: State) {
    forall v {:trigger VpOk(st, v)} :: 0 <= v < |st.vps| ==> VpOk(st, v)
  }

  ghost predicate SlotsOk(st: State) {
    forall s {:trigger SlotOk(st, s)} :: 0 <= s < |st.slots| ==> SlotOk(st, s)
  }

  ghost predicate ActorsOk(st: State) {
    forall a {:trigger HoldsOk(st, a)} {:trigger PlaceOk(st, a)} :: 0 <= a < |st.actors| ==>
        HoldsOk(st, a) && PlaceOk(st, a)
  }

  /** No two pages were minted with the same origin. */
  predicate OwnUnique(vps: seq<Vp>) {
    forall v, w :: 0 <= v < w < |vps| ==> vps[v].own != vps[w].own
  }

  ghost predicate Shape(st: State) {
    FramesOk(st) && OriginsOk(st) && VpsOk(st) && SlotsOk(st) && ActorsOk(st) && OwnUnique(st.vps)
  }
}
