/** Vnodes linked in place: what tree the links show, and what stays shown as they change. */
module VnodeLinks {
  import opened Options
  import opened VnodeTrees

  datatype Vnode = Vnode(key: Key, left: Option<nat>, right: Option<nat>, height: int, refs: nat)

  type Vnodes = seq<Vnode>

  /** What the links from here on show. */
  ghost predicate Shown(nodes: Vnodes, link: Option<nat>, t: Tree)
    decreases t
  {
    match t
    case Leaf => link == None
    case Node(left, e, height, right) =>
      && link == Some(e.id) && e.id < |nodes| && nodes[e.id].key == e.key && nodes[e.id].height == height
      && Shown(nodes, nodes[e.id].left, left) && Shown(nodes, nodes[e.id].right, right)
  }

  function Ids(t: Tree): set<nat> {
    if t.Leaf? then {} else Ids(t.left) + {t.e.id} + Ids(t.right)
  }

  /** No node is in the tree twice. */
  ghost predicate Apart(t: Tree) {
    t.Node? ==>
      && Apart(t.left) && Apart(t.right) && Ids(t.left) !! Ids(t.right)
      && t.e.id !in Ids(t.left) && t.e.id !in Ids(t.right)
  }

  /** Links and heights changed in these nodes only; keys and references nowhere. */
  ghost predicate Kept(was: Vnodes, now: Vnodes, ids: set<nat>) {
    && |now| == |was|
    && forall i :: 0 <= i < |was| ==>
         now[i].key == was[i].key && now[i].refs == was[i].refs && (i !in ids ==> now[i] == was[i])
  }

  /** The table keeps a reference to each. */
  ghost predicate Held(nodes: Vnodes, ids: set<nat>) {
    forall i :: i in ids ==> i < |nodes| && nodes[i].refs > 0
  }

  /** One vnode has so many references more, and all have the keys they had. */
  ghost predicate Referenced(was: Vnodes, now: Vnodes, node: nat, more: int) {
    && |now| == |was|
    && forall i :: 0 <= i < |was| ==>
         now[i].key == was[i].key && now[i].refs == was[i].refs + if i == node then more else 0
  }

  lemma KeptNone(nodes: Vnodes)
    ensures Kept(nodes, nodes, {})
  {
  }

  lemma CountZero(nodes: Vnodes)
    ensures Referenced(nodes, nodes, 0, 0)
  {
  }

  lemma CountSame(was: Vnodes, now: Vnodes, ids: set<nat>, node: nat)
    requires Kept(was, now, ids)
    ensures Referenced(was, now, node, 0)
  {
  }

  lemma CountOn(a: Vnodes, b: Vnodes, c: Vnodes, node: nat, more: int)
    requires Referenced(a, b, node, 0) && Referenced(b, c, node, more)
    ensures Referenced(a, c, node, more)
  {
  }

  lemma HeldStill(was: Vnodes, now: Vnodes, node: nat, more: nat, ids: set<nat>)
    requires Referenced(was, now, node, more) && Held(was, ids)
    ensures Held(now, ids) && (more > 0 && node < |now| ==> Held(now, ids + {node}))
  {
  }

  lemma KeptOn(a: Vnodes, b: Vnodes, c: Vnodes, ids: set<nat>, more: set<nat>, all: set<nat>)
    requires Kept(a, b, ids) && Kept(b, c, more) && ids <= all && more <= all
    ensures Kept(a, c, all)
  {
  }

  /** The links alone are shown. */
  lemma {:induction false} ShownSame(was: Vnodes, now: Vnodes, link: Option<nat>, t: Tree)
    requires Shown(was, link, t) && |now| == |was|
    requires forall i :: 0 <= i < |was| ==> now[i] == was[i].(refs := now[i].refs)
    ensures Shown(now, link, t)
    decreases t
  {
    if t.Node? {
      ShownSame(was, now, was[t.e.id].left, t.left);
      ShownSame(was, now, was[t.e.id].right, t.right);
    }
  }

  lemma {:induction false} ShownKept(was: Vnodes, now: Vnodes, link: Option<nat>, t: Tree, ids: set<nat>)
    requires Shown(was, link, t) && Kept(was, now, ids) && Ids(t) !! ids
    ensures Shown(now, link, t)
    decreases t
  {
    if t.Node? {
      ShownKept(was, now, was[t.e.id].left, t.left, ids);
      ShownKept(was, now, was[t.e.id].right, t.right, ids);
    }
  }

  lemma IdsNode(l: Tree, e: Entry, h: int, r: Tree)
    ensures var t := Node(l, e, h, r);
            && Ids(t) == Ids(l) + {e.id} + Ids(r)
            && (Apart(t) <==> Apart(l) && Apart(r) && Ids(l) !! Ids(r) && e.id !in Ids(l) && e.id !in Ids(r))
  {
  }

  lemma RotateRightIds(t: Tree)
    requires t.Node? && t.left.Node?
    ensures Ids(RotateRight(t)) == Ids(t) && (Apart(t) ==> Apart(RotateRight(t)))
  {
    var x, r := t.left, RotateRight(t);
    RotateRightIs(t);
    hide *;
    IdsNode(t.left, t.e, t.height, t.right);
    IdsNode(x.left, x.e, x.height, x.right);
    IdsNode(r.left, r.e, r.height, r.right);
    IdsNode(r.right.left, r.right.e, r.right.height, r.right.right);
  }

  lemma RotateLeftIds(t: Tree)
    requires t.Node? && t.right.Node?
    ensures Ids(RotateLeft(t)) == Ids(t) && (Apart(t) ==> Apart(RotateLeft(t)))
  {
    var x, r := t.right, RotateLeft(t);
    RotateLeftIs(t);
    hide *;
    IdsNode(t.left, t.e, t.height, t.right);
    IdsNode(x.left, x.e, x.height, x.right);
    IdsNode(r.left, r.e, r.height, r.right);
    IdsNode(r.left.left, r.left.e, r.left.height, r.left.right);
  }

  lemma RebalanceIds(n: Tree)
    requires Leaning(n)
    ensures Ids(Rebalance(n)) == Ids(n) && (Apart(n) ==> Apart(Rebalance(n)))
  {
    HeightPositive(n.left);
    HeightPositive(n.right);
    var t := Update(n.left, n.e, n.right);
    IdsNode(n.left, n.e, n.height, n.right);
    IdsNode(n.left, n.e, t.height, n.right);
    if Balance(t) > 1 {
      HeightPositive(t.left.right);
      RotateRightIds(t);
      if Balance(t.left) < 0 {
        var l := RotateLeft(t.left);
        RotateLeftIds(t.left);
        hide Ids, Apart;
        IdsNode(l, t.e, t.height, t.right);
        RotateRightIds(t.(left := l));
      }
    } else if Balance(t) < -1 {
      HeightPositive(t.right.left);
      RotateLeftIds(t);
      if Balance(t.right) > 0 {
        var r := RotateRight(t.right);
        RotateRightIds(t.right);
        hide Ids, Apart;
        IdsNode(t.left, t.e, t.height, r);
        RotateLeftIds(t.(right := r));
      }
    }
  }

  lemma WithLeftIds(t: Tree, l: Tree)
    requires t.Node? && Apart(t) && Apart(l) && Ids(l) !! Ids(t.right) && t.e.id !in Ids(l)
    ensures Apart(t.(left := l)) && Ids(t.(left := l)) == Ids(l) + {t.e.id} + Ids(t.right)
  {
  }

  lemma WithRightIds(t: Tree, r: Tree)
    requires t.Node? && Apart(t) && Apart(r) && Ids(r) !! Ids(t.left) && t.e.id !in Ids(r)
    ensures Apart(t.(right := r)) && Ids(t.(right := r)) == Ids(t.left) + {t.e.id} + Ids(r)
  {
  }

  lemma {:induction false} InsertIds(t: Tree, e: Entry)
    requires Avl(t) && Apart(t) && Lookup(t, e.key).None? && e.id !in Ids(t)
    ensures Ids(Insert(t, e)) == Ids(t) + {e.id} && Apart(Insert(t, e))
  {
    if t.Node? {
      if Compare(e.key, t.e.key) < 0 {
        InsertIds(t.left, e);
        WithLeftIds(t, Insert(t.left, e));
        RebalanceIds(t.(left := Insert(t.left, e)));
      } else {
        InsertIds(t.right, e);
        WithRightIds(t, Insert(t.right, e));
        RebalanceIds(t.(right := Insert(t.right, e)));
      }
    }
  }

  lemma {:induction false} DetachMinIds(t: Tree)
    requires Avl(t) && Apart(t) && t.Node?
    ensures var (rest, min) := DetachMin(t);
            Ids(rest) == Ids(t) - {min.id} && min.id in Ids(t) && Apart(rest)
  {
    if t.left.Node? {
      DetachMinIds(t.left);
      WithLeftIds(t, DetachMin(t.left).0);
      RebalanceIds(t.(left := DetachMin(t.left).0));
    }
  }

  lemma ReplacementIds(t: Tree)
    requires Avl(t) && Apart(t) && t.Node?
    ensures Ids(Replacement(t)) == Ids(t) - {t.e.id} && Apart(Replacement(t))
  {
    IdsNode(t.left, t.e, t.height, t.right);
    hide Ids, Apart, Height, Rebalance;
    if t.left.Node? && t.right.Node? {
      var (rest, min) := DetachMin(t.right);
      DetachMinIds(t.right);
      IdsNode(t.left, min, 0, rest);
      RebalanceIds(Node(t.left, min, 0, rest));
    }
  }

  lemma {:induction false} RemoveIds(t: Tree, e: Entry)
    requires Avl(t) && Apart(t)
    ensures Ids(Remove(t, e)) <= Ids(t) && Apart(Remove(t, e))
  {
    if t.Node? {
      if Compare(e.key, t.e.key) < 0 {
        RemoveIds(t.left, e);
        WithLeftIds(t, Remove(t.left, e));
        RebalanceIds(t.(left := Remove(t.left, e)));
      } else if Compare(e.key, t.e.key) > 0 {
        RemoveIds(t.right, e);
        WithRightIds(t, Remove(t.right, e));
        RebalanceIds(t.(right := Remove(t.right, e)));
      } else {
        ReplacementIds(t);
      }
    }
  }

  /** Rebalancing writes the height over. */
  lemma HeightUnread(l: Tree, e: Entry, h: int, k: int, r: Tree)
    requires Leaning(Node(l, e, h, r))
    ensures Leaning(Node(l, e, k, r)) && Rebalance(Node(l, e, h, r)) == Rebalance(Node(l, e, k, r))
  {
  }

  /** The height by the link. */
  function HeightAt(nodes: Vnodes, link: Option<nat>): int {
    if link.Some? && link.value < |nodes| then nodes[link.value].height else 0
  }

  lemma ShownHeight(nodes: Vnodes, link: Option<nat>, t: Tree)
    requires Shown(nodes, link, t)
    ensures HeightAt(nodes, link) == Height(t) && (link.Some? ==> link.value < |nodes| && link.value in Ids(t))
    ensures link.None? <==> t.Leaf?
  {
  }

  /** Node i alone changed its links. */
  ghost predicate Linked(was: Vnodes, now: Vnodes, i: nat, left: Option<nat>, right: Option<nat>) {
    && |now| == |was| && i < |was|
    && now[i].left == left && now[i].right == right && now[i].key == was[i].key && now[i].refs == was[i].refs
    && (forall j :: 0 <= j < |was| && j != i ==> now[j] == was[j])
  }

  /** Node i was given two trees, and the height they ask for. */
  lemma ShownNode(was: Vnodes, now: Vnodes, i: nat, l: Tree, e: Entry, r: Tree, left: Option<nat>, right: Option<nat>)
    requires Linked(was, now, i, left, right) && e == Entry(i, was[i].key)
    requires Shown(was, left, l) && Shown(was, right, r) && i !in Ids(l) && i !in Ids(r)
    ensures Kept(was, now, {i}) && Shown(now, left, l) && Shown(now, right, r)
    ensures Shown(now, Some(i), Node(l, e, now[i].height, r))
  {
    ShownKept(was, now, left, l, {i});
    ShownKept(was, now, right, r, {i});
  }

  // ---- What the operations do ----

  lemma {:induction false} IdsEntries(nodes: Vnodes, link: Option<nat>, t: Tree, id: nat)
    requires Shown(nodes, link, t)
    ensures id in Ids(t) <==> id < |nodes| && Entry(id, nodes[id].key) in Entries(t)
    ensures forall e :: e in Entries(t) ==> e.id < |nodes| && e.key == nodes[e.id].key
    decreases t
  {
    if t.Node? {
      IdsEntries(nodes, nodes[t.e.id].left, t.left, id);
      IdsEntries(nodes, nodes[t.e.id].right, t.right, id);
    }
  }

  /** A tree with the sides of one node lost, and its height that of a node alone. */
  function Cropped(t: Tree, id: nat): Tree {
    if t.Leaf? then t
    else if t.e.id == id then Node(Leaf, t.e, 1, Leaf)
    else Node(Cropped(t.left, id), t.e, t.height, Cropped(t.right, id))
  }

  lemma {:induction false} CroppedIds(t: Tree, id: nat)
    requires Apart(t)
    ensures Ids(Cropped(t, id)) <= Ids(t) && Apart(Cropped(t, id))
    ensures id !in Ids(t) ==> Cropped(t, id) == t
  {
    if t.Node? && t.e.id != id {
      CroppedIds(t.left, id);
      CroppedIds(t.right, id);
    }
  }

  /** Node id was given no sides: that is what the links show then. */
  lemma {:induction false} ShownCropped(was: Vnodes, now: Vnodes, link: Option<nat>, t: Tree, id: nat)
    requires Shown(was, link, t) && Apart(t) && Kept(was, now, {id}) && id < |now|
    requires now[id].left == None && now[id].right == None && now[id].height == 1
    ensures Shown(now, link, Cropped(t, id))
    decreases t
  {
    if t.Node? && t.e.id != id {
      ShownCropped(was, now, was[t.e.id].left, t.left, id);
      ShownCropped(was, now, was[t.e.id].right, t.right, id);
    }
  }

  lemma {:induction false} EntryIds(t: Tree, e: Entry)
    requires e in Entries(t)
    ensures e.id in Ids(t)
  {
    if e in Entries(t.left) {
      EntryIds(t.left, e);
    } else if e in Entries(t.right) {
      EntryIds(t.right, e);
    }
  }

  lemma {:induction false} LookupCropped(t: Tree, e: Entry)
    requires Ordered(t) && Apart(t) && e in Entries(t)
    ensures Lookup(Cropped(t, e.id), e.key).Some?
  {
    Sides(t, e);
    LessOrders(e.key, t.e.key, e.key);
    if e in Entries(t.left) {
      EntryIds(t.left, e);
      LookupCropped(t.left, e);
    } else if e in Entries(t.right) {
      EntryIds(t.right, e);
      LookupCropped(t.right, e);
    }
  }

  /** The entry is in the tree with nothing below it. */
  ghost predicate Alone(t: Tree, e: Entry) {
    t.Node? && (t == Node(Leaf, e, 1, Leaf) || Alone(t.left, e) || Alone(t.right, e))
  }

  lemma {:induction false} AloneEntry(t: Tree, e: Entry)
    requires Alone(t, e)
    ensures e in Entries(t)
  {
    if Alone(t.left, e) {
      AloneEntry(t.left, e);
    } else if Alone(t.right, e) {
      AloneEntry(t.right, e);
    }
  }

  /** Nothing is lost exactly if the vnode had no sides. */
  lemma {:induction false} CroppedSame(t: Tree, e: Entry)
    requires Ordered(t) && Avl(t) && Apart(t) && e in Entries(t)
    ensures Entries(Cropped(t, e.id)) == Entries(t) <==> Alone(t, e)
  {
    Sides(t, e);
    if Alone(t.left, e) { AloneEntry(t.left, e); }
    if Alone(t.right, e) { AloneEntry(t.right, e); }
    if e in Entries(t.left) {
      EntryIds(t.left, e);
      CroppedIds(t.right, e.id);
      CroppedSame(t.left, e);
      CroppedFewer(t.left, e.id);
      CroppedApart(t, Cropped(t.left, e.id), t.right);
    } else if e in Entries(t.right) {
      EntryIds(t.right, e);
      CroppedIds(t.left, e.id);
      CroppedSame(t.right, e);
      CroppedFewer(t.right, e.id);
      CroppedApart(t, t.left, Cropped(t.right, e.id));
    } else {
      CroppedApart(t, Leaf, Leaf);
      HeightPositive(t);
      NoEntries(t.left);
      NoEntries(t.right);
    }
  }

  lemma NoEntries(t: Tree)
    ensures Entries(t) == {} <==> t.Leaf?
  {
    if t.Node? {
      assert t.e in Entries(t);
    }
  }

  lemma {:induction false} CroppedFewer(t: Tree, id: nat)
    ensures Entries(Cropped(t, id)) <= Entries(t)
  {
    if t.Node? {
      CroppedFewer(t.left, id);
      CroppedFewer(t.right, id);
    }
  }

  /** Fewer entries on the sides are fewer in all. */
  lemma CroppedApart(t: Tree, l: Tree, r: Tree)
    requires t.Node? && Ordered(t) && Entries(l) <= Entries(t.left) && Entries(r) <= Entries(t.right)
    ensures Entries(l) + {t.e} + Entries(r) == Entries(t) <==>
            Entries(l) == Entries(t.left) && Entries(r) == Entries(t.right)
  {
    forall e
      ensures e in Entries(t.left) ==> e !in Entries(t.right) && e != t.e
      ensures e in Entries(t.right) ==> e != t.e
    {
      Sides(t, e);
    }
  }

  /** A vnode that has just been given no sides: if it was in the tree it crops it, else it is ready to go in. */
  ghost predicate Ready(now: Vnodes, root: Option<nat>, t: Tree, e: Entry) {
    var u := Cropped(t, e.id);
    && Shown(now, root, u) && Apart(u) && e.id < |now| && now[e.id].key == e.key
    && (if e.id in Ids(t) then Lookup(u, e.key).Some?
        else u == t && Shown(now, Some(e.id), Node(Leaf, e, 1, Leaf)) && (HasKey(t, e.key) <==> Lookup(t, e.key).Some?))
  }

  lemma CroppedReady(was: Vnodes, now: Vnodes, root: Option<nat>, t: Tree, node: nat)
    requires node < |was| && now == was[node := was[node].(left := None, right := None, height := 1)]
    requires Shown(was, root, t) && Ordered(t) && Apart(t)
    ensures Ready(now, root, t, Entry(node, was[node].key)) && Kept(was, now, {node})
  {
    var e := Entry(node, was[node].key);
    CroppedIds(t, node);
    ShownCropped(was, now, root, t, node);
    IdsEntries(was, root, t, node);
    LookupExact(t, e.key);
    if node in Ids(t) {
      LookupCropped(t, e);
    }
  }

  /** A vnode that is not in the table was not found; one that is, is in it no more. */
  lemma Unlinked(was: Vnodes, now: Vnodes, root: Option<nat>, root': Option<nat>, t: Tree, e: Entry)
    requires Shown(was, root, t) && Avl(t) && Ordered(t) && Apart(t) && Held(was, Ids(t))
    requires e.id < |was| && e.key == was[e.id].key && Shown(now, root', Remove(t, e)) && Kept(was, now, Ids(t))
    ensures Ordered(Remove(t, e)) && Apart(Remove(t, e)) && Held(now, Ids(Remove(t, e)))
    ensures Referenced(was, now, e.id, 0)
    ensures e.id in Ids(t) <==> Lookup(t, e.key) == Some(e)
    ensures Ids(Remove(t, e)) == Ids(t) - {e.id} && Entries(Remove(t, e)) == Entries(t) - {e}
  {
    RemoveExact(t, e);
    RemoveIds(t, e);
    LookupExact(t, e.key);
    forall id: nat
      ensures id in Ids(Remove(t, e)) <==> id in Ids(t) - {e.id}
      ensures id == e.id ==> (id in Ids(t) <==> e in Entries(t))
    {
      IdsEntries(was, root, t, id);
      IdsEntries(now, root', Remove(t, e), id);
    }
  }
}
