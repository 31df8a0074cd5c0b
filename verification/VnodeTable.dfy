/** The table of vnodes: nodes linked in place into a balanced tree, and the references that keep them. */
module VnodeTable {
  import opened Options
  import opened VnodeTrees
  import opened VnodeLinks
  import opened VnodePurging

  class Table {
    var nodes: Vnodes
    var root: Option<nat>
    ghost var tree: Tree

    /** InitVnodeTable, among vnodes that are not in it. */
    constructor (vnodes: Vnodes)
      ensures Valid() && nodes == vnodes && Entries(tree) == {}
    {
      nodes, root, tree := vnodes, None, Leaf;
    }

    method UpdateHeight(n: nat, ghost l: Tree, ghost e: Entry, ghost r: Tree)
      requires n < |nodes| && e == Entry(n, nodes[n].key)
      requires Shown(nodes, nodes[n].left, l) && Shown(nodes, nodes[n].right, r) && n !in Ids(l) && n !in Ids(r)
      modifies this`nodes
      ensures Shown(nodes, Some(n), Update(l, e, r)) && Kept(old(nodes), nodes, {n})
    {
      ShownHeight(nodes, nodes[n].left, l);
      ShownHeight(nodes, nodes[n].right, r);
      var lh, rh := HeightAt(nodes, nodes[n].left), HeightAt(nodes, nodes[n].right);
      nodes := nodes[n := nodes[n].(height := (if lh > rh then lh else rh) + 1)];
      ShownNode(old(nodes), nodes, n, l, e, r, nodes[n].left, nodes[n].right);
    }

    method RotateRight(y: nat, ghost t: Tree) returns (x: nat)
      requires Shown(nodes, Some(y), t) && Apart(t) && t.Node? && t.left.Node?
      modifies this`nodes
      ensures Shown(nodes, Some(x), VnodeTrees.RotateRight(t)) && Kept(old(nodes), nodes, Ids(t))
    {
      ghost var l, ids := t.left, Ids(t);
      x := nodes[y].left.value;
      assert x == l.e.id && y == t.e.id && x != y;
      hide Ids, Apart;
      IdsNode(t.left, t.e, t.height, t.right);
      IdsNode(l.left, l.e, l.height, l.right);
      ghost var n0 := nodes;
      nodes := nodes[y := nodes[y].(left := nodes[x].right)];
      ghost var n1 := nodes;
      ShownNode(n0, n1, y, l.right, t.e, t.right, n0[x].right, n0[y].right);
      ShownKept(n0, n1, n0[x].left, l.left, {y});
      nodes := nodes[x := nodes[x].(right := Some(y))];
      ghost var n2 := nodes;
      assert Kept(n1, n2, {x});
      ShownKept(n1, n2, n0[x].right, l.right, {x});
      ShownKept(n1, n2, n0[y].right, t.right, {x});
      ShownKept(n1, n2, n0[x].left, l.left, {x});
      UpdateHeight(y, l.right, t.e, t.right);
      ghost var n3 := nodes;
      IdsNode(l.right, t.e, Update(l.right, t.e, t.right).height, t.right);
      ShownKept(n2, n3, n0[x].left, l.left, {y});
      UpdateHeight(x, l.left, l.e, Update(l.right, t.e, t.right));
      KeptOn(n0, n1, n2, {y}, {x}, ids);
      KeptOn(n0, n2, n3, ids, {y}, ids);
      KeptOn(n0, n3, nodes, ids, {x}, ids);
    }

    method RotateLeft(x: nat, ghost t: Tree) returns (y: nat)
      requires Shown(nodes, Some(x), t) && Apart(t) && t.Node? && t.right.Node?
      modifies this`nodes
      ensures Shown(nodes, Some(y), VnodeTrees.RotateLeft(t)) && Kept(old(nodes), nodes, Ids(t))
    {
      ghost var r, ids := t.right, Ids(t);
      y := nodes[x].right.value;
      assert y == r.e.id && x == t.e.id && x != y;
      hide Ids, Apart;
      IdsNode(t.left, t.e, t.height, t.right);
      IdsNode(r.left, r.e, r.height, r.right);
      ghost var n0 := nodes;
      nodes := nodes[x := nodes[x].(right := nodes[y].left)];
      ghost var n1 := nodes;
      ShownNode(n0, n1, x, t.left, t.e, r.left, n0[x].left, n0[y].left);
      ShownKept(n0, n1, n0[y].right, r.right, {x});
      nodes := nodes[y := nodes[y].(left := Some(x))];
      ghost var n2 := nodes;
      assert Kept(n1, n2, {y});
      ShownKept(n1, n2, n0[x].left, t.left, {y});
      ShownKept(n1, n2, n0[y].left, r.left, {y});
      ShownKept(n1, n2, n0[y].right, r.right, {y});
      UpdateHeight(x, t.left, t.e, r.left);
      ghost var n3 := nodes;
      IdsNode(t.left, t.e, Update(t.left, t.e, r.left).height, r.left);
      ShownKept(n2, n3, n0[y].right, r.right, {x});
      UpdateHeight(y, Update(t.left, t.e, r.left), r.e, r.right);
      KeptOn(n0, n1, n2, {x}, {y}, ids);
      KeptOn(n0, n2, n3, ids, {x}, ids);
      KeptOn(n0, n3, nodes, ids, {y}, ids);
    }

    method SetLeft(n: nat, link: Option<nat>, ghost t: Tree, ghost l: Tree)
      requires n < |nodes| && t.Node? && t.e == Entry(n, nodes[n].key) && t.height == nodes[n].height
      requires Shown(nodes, link, l) && Shown(nodes, nodes[n].right, t.right) && n !in Ids(l) && n !in Ids(t.right)
      modifies this`nodes
      ensures Shown(nodes, Some(n), t.(left := l)) && Kept(old(nodes), nodes, {n})
    {
      nodes := nodes[n := nodes[n].(left := link)];
      ShownNode(old(nodes), nodes, n, l, t.e, t.right, link, nodes[n].right);
    }

    method SetRight(n: nat, link: Option<nat>, ghost t: Tree, ghost r: Tree)
      requires n < |nodes| && t.Node? && t.e == Entry(n, nodes[n].key) && t.height == nodes[n].height
      requires Shown(nodes, link, r) && Shown(nodes, nodes[n].left, t.left) && n !in Ids(r) && n !in Ids(t.left)
      modifies this`nodes
      ensures Shown(nodes, Some(n), t.(right := r)) && Kept(old(nodes), nodes, {n})
    {
      nodes := nodes[n := nodes[n].(right := link)];
      ShownNode(old(nodes), nodes, n, t.left, t.e, r, nodes[n].left, link);
    }

    method BalanceFactor(n: nat, ghost t: Tree) returns (b: int)
      requires Shown(nodes, Some(n), t)
      ensures t.Node? && b == Balance(t)
    {
      ShownHeight(nodes, nodes[n].left, t.left);
      ShownHeight(nodes, nodes[n].right, t.right);
      b := HeightAt(nodes, nodes[n].left) - HeightAt(nodes, nodes[n].right);
    }

    /** Turns the left side left, so that what hangs off it is on its outside. */
    method TurnLeftSide(n: nat, ghost t: Tree)
      requires Shown(nodes, Some(n), t) && Apart(t) && t.Node? && t.left.Node? && t.left.right.Node?
      modifies this`nodes
      ensures Shown(nodes, Some(n), t.(left := VnodeTrees.RotateLeft(t.left))) && Kept(old(nodes), nodes, Ids(t))
      ensures Apart(t.(left := VnodeTrees.RotateLeft(t.left)))
      ensures Ids(t.(left := VnodeTrees.RotateLeft(t.left))) == Ids(t)
    {
      ghost var n0, l := nodes, VnodeTrees.RotateLeft(t.left);
      RotateLeftIds(t.left);
      hide Ids, Apart;
      IdsNode(t.left, t.e, t.height, t.right);
      IdsNode(l, t.e, t.height, t.right);
      var x := RotateLeft(nodes[n].left.value, t.left);
      ghost var n1 := nodes;
      ShownKept(n0, n1, n0[n].right, t.right, Ids(t.left));
      SetLeft(n, Some(x), t, l);
      KeptOn(n0, n1, nodes, Ids(t.left), {n}, Ids(t));
    }

    method TurnRightSide(n: nat, ghost t: Tree)
      requires Shown(nodes, Some(n), t) && Apart(t) && t.Node? && t.right.Node? && t.right.left.Node?
      modifies this`nodes
      ensures Shown(nodes, Some(n), t.(right := VnodeTrees.RotateRight(t.right))) && Kept(old(nodes), nodes, Ids(t))
      ensures Apart(t.(right := VnodeTrees.RotateRight(t.right)))
      ensures Ids(t.(right := VnodeTrees.RotateRight(t.right))) == Ids(t)
    {
      ghost var n0, r := nodes, VnodeTrees.RotateRight(t.right);
      RotateRightIds(t.right);
      hide Ids, Apart;
      IdsNode(t.left, t.e, t.height, t.right);
      IdsNode(t.left, t.e, t.height, r);
      var x := RotateRight(nodes[n].right.value, t.right);
      ghost var n1 := nodes;
      ShownKept(n0, n1, n0[n].left, t.left, Ids(t.right));
      SetRight(n, Some(x), t, r);
      KeptOn(n0, n1, nodes, Ids(t.right), {n}, Ids(t));
    }

    method Rebalance(n: nat, ghost t: Tree) returns (r: nat)
      requires Shown(nodes, Some(n), t) && Apart(t) && Leaning(t)
      modifies this`nodes
      ensures Shown(nodes, Some(r), VnodeTrees.Rebalance(t)) && Kept(old(nodes), nodes, Ids(t))
    {
      HeightPositive(t.left);
      HeightPositive(t.right);
      ghost var u, n0 := Update(t.left, t.e, t.right), nodes;
      IdsNode(t.left, t.e, t.height, t.right);
      IdsNode(t.left, t.e, u.height, t.right);
      UpdateHeight(n, t.left, t.e, t.right);
      ghost var n1 := nodes;
      var b := BalanceFactor(n, u);
      if b > 1 {
        HeightPositive(t.left.right);
        var inner := BalanceFactor(nodes[n].left.value, t.left);
        if inner < 0 {
          TurnLeftSide(n, u);
        }
        ghost var n2, v := nodes, if inner < 0 then u.(left := VnodeTrees.RotateLeft(u.left)) else u;
        assert Kept(n1, n2, Ids(t));
        r := RotateRight(n, v);
        KeptOn(n0, n1, n2, {n}, Ids(t), Ids(t));
        KeptOn(n0, n2, nodes, Ids(t), Ids(t), Ids(t));
      } else if b < -1 {
        HeightPositive(t.right.left);
        var inner := BalanceFactor(nodes[n].right.value, t.right);
        if inner > 0 {
          TurnRightSide(n, u);
        }
        ghost var n2, v := nodes, if inner > 0 then u.(right := VnodeTrees.RotateRight(u.right)) else u;
        assert Kept(n1, n2, Ids(t));
        r := RotateLeft(n, v);
        KeptOn(n0, n1, n2, {n}, Ids(t), Ids(t));
        KeptOn(n0, n2, nodes, Ids(t), Ids(t), Ids(t));
      } else {
        r := n;
        KeptOn(n0, n0, n1, {}, {n}, Ids(t));
      }
    }

    method InsertNode(sub: Option<nat>, node: nat, ghost t: Tree, ghost e: Entry)
        returns (r: Option<nat>, duplicate: bool)
      requires Shown(nodes, sub, t) && Apart(t) && node < |nodes| && e == Entry(node, nodes[node].key)
      requires Lookup(t, e.key).Some? || (Avl(t) && node !in Ids(t) && Shown(nodes, Some(node), Node(Leaf, e, 1, Leaf)))
      modifies this`nodes
      ensures duplicate == Lookup(t, e.key).Some?
      ensures duplicate ==> r == sub && nodes == old(nodes)
      ensures !duplicate ==> Shown(nodes, r, Insert(t, e)) && Kept(old(nodes), nodes, Ids(t) + {node})
      decreases t
    {
      if sub == None {
        return Some(node), false;
      }
      var s := sub.value;
      ghost var n0 := nodes;
      var c := Compare(nodes[node].key, nodes[s].key);
      if c == 0 {
        return sub, true;
      }
      if c < 0 {
        var link;
        link, duplicate := InsertNode(nodes[s].left, node, t.left, e);
        ghost var n1 := nodes;
        if !duplicate {
          ShownKept(n0, n1, n0[s].right, t.right, Ids(t.left) + {node});
          InsertIds(t.left, e);
          WithLeftIds(t, Insert(t.left, e));
          SetLeft(s, link, t, Insert(t.left, e));
          KeptOn(n0, n1, nodes, Ids(t.left) + {node}, {s}, Ids(t) + {node});
        }
      } else {
        var link;
        link, duplicate := InsertNode(nodes[s].right, node, t.right, e);
        ghost var n1 := nodes;
        if !duplicate {
          ShownKept(n0, n1, n0[s].left, t.left, Ids(t.right) + {node});
          InsertIds(t.right, e);
          WithRightIds(t, Insert(t.right, e));
          SetRight(s, link, t, Insert(t.right, e));
          KeptOn(n0, n1, nodes, Ids(t.right) + {node}, {s}, Ids(t) + {node});
        }
      }
      if duplicate {
        return sub, true;
      }
      ghost var n2, u := nodes, if c < 0 then t.(left := Insert(t.left, e)) else t.(right := Insert(t.right, e));
      var x := Rebalance(s, u);
      KeptOn(n0, n2, nodes, Ids(t) + {node}, Ids(u), Ids(t) + {node});
      r := Some(x);
    }

    method DetachMin(sub: nat, ghost t: Tree) returns (rest: Option<nat>, min: nat)
      requires Shown(nodes, Some(sub), t) && Apart(t) && Avl(t)
      modifies this`nodes
      ensures Shown(nodes, rest, VnodeTrees.DetachMin(t).0) && Kept(old(nodes), nodes, Ids(t))
      ensures min < |nodes| && VnodeTrees.DetachMin(t).1 == Entry(min, nodes[min].key)
      decreases t
    {
      if nodes[sub].left == None {
        return nodes[sub].right, sub;
      }
      ghost var n0, l := nodes, VnodeTrees.DetachMin(t.left).0;
      var link;
      link, min := DetachMin(nodes[sub].left.value, t.left);
      ghost var n1 := nodes;
      ShownKept(n0, n1, n0[sub].right, t.right, Ids(t.left));
      DetachMinIds(t.left);
      WithLeftIds(t, l);
      SetLeft(sub, link, t, l);
      ghost var n2 := nodes;
      KeptOn(n0, n1, n2, Ids(t.left), {sub}, Ids(t));
      var x := Rebalance(sub, t.(left := l));
      KeptOn(n0, n2, nodes, Ids(t), Ids(t.(left := l)), Ids(t));
      rest := Some(x);
    }

    method RemoveNode(sub: Option<nat>, node: nat, ghost t: Tree, ghost e: Entry)
        returns (r: Option<nat>, found: bool)
      requires Shown(nodes, sub, t) && Apart(t) && Avl(t) && node < |nodes| && e == Entry(node, nodes[node].key)
      modifies this`nodes
      ensures Shown(nodes, r, Remove(t, e)) && Kept(old(nodes), nodes, Ids(t))
      ensures found == (Lookup(t, e.key) == Some(e))
      decreases t
    {
      if sub == None {
        return None, false;
      }
      var s := sub.value;
      ghost var n0 := nodes;
      var c := Compare(nodes[node].key, nodes[s].key);
      if c < 0 {
        var link;
        link, found := RemoveNode(nodes[s].left, node, t.left, e);
        ghost var n1, l := nodes, Remove(t.left, e);
        ShownKept(n0, n1, n0[s].right, t.right, Ids(t.left));
        RemoveIds(t.left, e);
        WithLeftIds(t, l);
        SetLeft(s, link, t, l);
        ghost var n2 := nodes;
        KeptOn(n0, n1, n2, Ids(t.left), {s}, Ids(t));
        var x := Rebalance(s, t.(left := l));
        KeptOn(n0, n2, nodes, Ids(t), Ids(t.(left := l)), Ids(t));
        return Some(x), found;
      }
      if c > 0 {
        var link;
        link, found := RemoveNode(nodes[s].right, node, t.right, e);
        ghost var n1, u := nodes, Remove(t.right, e);
        ShownKept(n0, n1, n0[s].left, t.left, Ids(t.right));
        RemoveIds(t.right, e);
        WithRightIds(t, u);
        SetRight(s, link, t, u);
        ghost var n2 := nodes;
        KeptOn(n0, n1, n2, Ids(t.right), {s}, Ids(t));
        var x := Rebalance(s, t.(right := u));
        KeptOn(n0, n2, nodes, Ids(t), Ids(t.(right := u)), Ids(t));
        return Some(x), found;
      }
      if s != node {
        return sub, false;
      }
      r := TakeOut(s, t);
      found := true;
    }

    /** Puts in the place of a node what is left below it, and unlinks it. */
    method TakeOut(s: nat, ghost t: Tree) returns (replacement: Option<nat>)
      requires Shown(nodes, Some(s), t) && Apart(t) && Avl(t)
      modifies this`nodes
      ensures Shown(nodes, replacement, Replacement(t)) && Kept(old(nodes), nodes, Ids(t))
    {
      ghost var n0 := nodes;
      if nodes[s].left == None {
        replacement := nodes[s].right;
      } else if nodes[s].right == None {
        replacement := nodes[s].left;
      } else {
        replacement := Succeed(s, t);
      }
      ghost var n1 := nodes;
      nodes := nodes[s := nodes[s].(left := None, right := None, height := 0)];
      ReplacementIds(t);
      assert Kept(n1, nodes, {s});
      ShownKept(n1, nodes, replacement, Replacement(t), {s});
      assert Kept(n0, n1, Ids(t));
      KeptOn(n0, n1, nodes, Ids(t), {s}, Ids(t));
    }

    /** Puts the successor in the place of a node that has both sides. */
    method Succeed(s: nat, ghost t: Tree) returns (replacement: Option<nat>)
      requires Shown(nodes, Some(s), t) && Apart(t) && Avl(t) && t.left.Node? && t.right.Node?
      modifies this`nodes
      ensures Shown(nodes, replacement, Replacement(t)) && Kept(old(nodes), nodes, Ids(t))
    {
      ghost var n0 := nodes;
      ghost var (rest, min) := VnodeTrees.DetachMin(t.right);
      DetachMinIds(t.right);
      var newRight, successor := DetachMin(nodes[s].right.value, t.right);
      ghost var n1 := nodes;
      ShownKept(n0, n1, n0[s].left, t.left, Ids(t.right));
      nodes := nodes[successor := nodes[successor].(left := nodes[s].left)];
      nodes := nodes[successor := nodes[successor].(right := newRight)];
      ghost var n2, h := nodes, nodes[successor].height;
      ShownNode(n1, n2, successor, t.left, min, rest, n1[s].left, newRight);
      HeightUnread(t.left, min, 0, h, rest);
      IdsNode(t.left, min, h, rest);
      KeptOn(n0, n1, n2, Ids(t.right), {successor}, Ids(t));
      var x := Rebalance(successor, Node(t.left, min, h, rest));
      KeptOn(n0, n2, nodes, Ids(t), Ids(t.left) + {successor} + Ids(rest), Ids(t));
      replacement := Some(x);
    }

    // ---- The operations ----

    /** The links show a balanced, ordered tree of vnodes the table keeps a reference to. */
    ghost predicate Valid()
      reads this
    {
      && Shown(nodes, root, tree) && Avl(tree) && Ordered(tree) && Apart(tree)
      && Held(nodes, Ids(tree))
    }

    /** FindNode; `steps` counts the nodes it looks at. */
    method FindNode(key: Key) returns (r: Option<nat>, ghost steps: nat)
      requires Valid()
      ensures match r
              case Some(i) => i < |nodes| && Entry(i, nodes[i].key) in Entries(tree) && nodes[i].key == key
              case None => !HasKey(tree, key)
      ensures steps <= Height(tree)
    {
      LookupExact(tree, key);
      SearchIsShort(tree, key);
      ghost var t := tree;
      steps := 0;
      r := root;
      while r.Some?
        invariant Shown(nodes, r, t) && Lookup(t, key) == Lookup(tree, key) && steps + Steps(t, key) == Steps(tree, key)
        decreases t
      {
        var c := Compare(key, nodes[r.value].key);
        steps := steps + 1;
        if c == 0 {
          return;
        }
        r, t := if c < 0 then nodes[r.value].left else nodes[r.value].right, if c < 0 then t.left else t.right;
      }
    }

    /** RegisterNewVnode, for a vnode. */
    method RegisterNewVnode(node: nat) returns (exists': bool)
      requires Valid() && node < |nodes|
      modifies this
      ensures var e := Entry(node, old(nodes[node].key));
              if node in old(Ids(tree)) then exists' && Shown(nodes, root, Cropped(old(tree), node))
              else
                && Valid() && exists' == old(HasKey(tree, e.key))
                && Entries(tree) == (if exists' then old(Entries(tree)) else old(Entries(tree)) + {e})
      ensures Referenced(old(nodes), nodes, node, if exists' then 0 else 1)
    {
      ghost var n0, e := nodes, Entry(node, nodes[node].key);
      hide *;
      UnlinkBoth(node);
      ghost var n1 := nodes;
      exists' := InsertAtRoot(node, e);
      CountSame(n0, n1, {node}, node);
      CountOn(n0, n1, nodes, node, 0);
      HeldStill(n0, nodes, node, 0, Ids(tree));
      if !exists' {
        ghost var n2 := nodes;
        RefObject(node, Insert(tree, e));
        InsertIds(tree, e);
        InsertExact(tree, e);
        CountOn(n0, n2, nodes, node, 1);
        HeldStill(n0, nodes, node, 1, Ids(tree));
        tree := Insert(tree, e);
      }
    }

    method UnlinkBoth(node: nat)
      requires node < |nodes| && Shown(nodes, root, tree) && Ordered(tree) && Apart(tree)
      modifies this`nodes
      ensures Ready(nodes, root, tree, Entry(node, old(nodes[node].key))) && Kept(old(nodes), nodes, {node})
    {
      ghost var was := nodes;
      nodes := nodes[node := nodes[node].(left := None, right := None, height := 1)];
      hide *;
      CroppedReady(was, nodes, root, tree, node);
    }

    method InsertAtRoot(node: nat, ghost e: Entry) returns (exists': bool)
      requires Ready(nodes, root, tree, e) && e.id == node && Avl(tree)
      modifies this`nodes, this`root
      ensures node in Ids(tree) ==> exists' && Shown(nodes, root, Cropped(tree, node))
      ensures node !in Ids(tree) ==> exists' == HasKey(tree, e.key) == Lookup(tree, e.key).Some?
      ensures node !in Ids(tree) ==> Shown(nodes, root, if exists' then tree else Insert(tree, e))
      ensures Referenced(old(nodes), nodes, node, 0)
    {
      ghost var was, u := nodes, Cropped(tree, node);
      hide Shown, Apart, Cropped, Lookup, HasKey, Avl, Kept, Insert, Ids, Referenced;
      var link;
      link, exists' := InsertNode(root, node, u, e);
      root := link;
      if exists' {
        CountSame(was, nodes, {}, node) by { assert Kept(was, was, {}) by { KeptNone(was); } }
      } else {
        CountSame(was, nodes, Ids(u) + {node}, node);
      }
    }

    method RefObject(node: nat, ghost t: Tree)
      requires node < |nodes| && Shown(nodes, root, t)
      modifies this`nodes
      ensures Shown(nodes, root, t) && Referenced(old(nodes), nodes, node, 1)
    {
      ghost var was := nodes;
      nodes := nodes[node := nodes[node].(refs := nodes[node].refs + 1)];
      ShownSame(was, nodes, root, t);
    }

    /** TryFindAndReferenceExistingVnode. */
    method TryFindAndReference(key: Key) returns (r: Option<nat>)
      requires Valid()
      modifies this`nodes
      ensures Valid()
      ensures match r
              case Some(i) => i < |nodes| && Entry(i, key) in Entries(tree) && Referenced(old(nodes), nodes, i, 1)
              case None => !HasKey(tree, key) && nodes == old(nodes)
    {
      ghost var steps;
      r, steps := FindNode(key);
      if r.Some? {
        ghost var was := nodes;
        hide *;
        RefObject(r.value, tree);
        HeldStill(was, nodes, r.value, 1, Ids(tree));
      }
    }

    /** Unlinks a vnode that is in the table; its references stay as they are. */
    method Unlink(node: nat) returns (found: bool)
      requires Valid() && node < |nodes|
      modifies this`nodes, this`root, this`tree
      ensures Valid() && found == old(node in Ids(tree)) && Referenced(old(nodes), nodes, node, 0)
      ensures Entries(tree) == old(Entries(tree)) - {Entry(node, nodes[node].key)}
      ensures Ids(tree) == old(Ids(tree)) - {node}
    {
      ghost var was, e := nodes, Entry(node, nodes[node].key);
      hide *;
      var link;
      link, found := RemoveNode(root, node, tree, e);
      root := link;
      Unlinked(was, nodes, old(root), root, tree, e);
      tree := Remove(tree, e);
    }

    method DerefObject(node: nat)
      requires Valid() && node < |nodes| && nodes[node].refs > 0 && node !in Ids(tree)
      modifies this`nodes
      ensures Valid() && Referenced(old(nodes), nodes, node, -1)
    {
      ghost var was := nodes;
      nodes := nodes[node := nodes[node].(refs := nodes[node].refs - 1)];
      ShownSame(was, nodes, root, tree);
    }

    /** UnregisterVnode: takes a vnode out of the table, if it is in it, and drops the table's reference. */
    method UnregisterVnode(node: nat) returns (found: bool)
      requires Valid() && node < |nodes|
      modifies this`nodes, this`root, this`tree
      ensures Valid() && found == old(node in Ids(tree))
      ensures Referenced(old(nodes), nodes, node, if found then -1 else 0)
      ensures Entries(tree) == old(Entries(tree)) - {Entry(node, nodes[node].key)}
    {
      ghost var was := nodes;
      found := Unlink(node);
      if found {
        DerefObject(node);
      }
    }

    method CollectPurgeVictims(sub: Option<nat>, after: Option<Key>, found0: seq<nat>, ghost t: Tree)
        returns (found: seq<nat>)
      requires Shown(nodes, sub, t) && Ordered(t) && |found0| <= PURGE_BATCH
      ensures found == Capped(found0 + Victims(nodes, after, InOrder(t)))
      decreases t
    {
      found := found0;
      if sub == None || |found| >= PURGE_BATCH {
        CappedAlready(nodes, after, t, found0);
        return;
      }
      var s := sub.value;
      ghost var l, m := Victims(nodes, after, InOrder(t.left)), WantedRoot(nodes, after, t);
      CappedSteps(nodes, after, t, found0);
      assert Ordered(t.left) && Ordered(t.right);
      var afterResume := after.None? || Compare(after.value, nodes[s].key) < 0;
      if !afterResume {
        NoneBefore(nodes, after.value, t);
      }
      assert nodes[s].refs == 1 && afterResume <==> m == [s];
      assert m == [] || m == [s];
      hide *;
      if afterResume {
        found := CollectPurgeVictims(nodes[s].left, after, found, t.left);
        if |found| >= PURGE_BATCH {
          return;
        }
        if nodes[s].refs == 1 {
          found := found + [s];
        }
      }
      assert found == found0 + l + m;
      found := CollectPurgeVictims(nodes[s].right, after, found, t.right);
    }

    /** One hold of the lock: the next batch is unlinked, and the key of its last is where to go on from. */
    method PurgeBatch(after: Option<Key>) returns (found: seq<nat>)
      requires Valid()
      modifies this`nodes, this`root, this`tree
      ensures Valid() && found == Capped(Victims(old(nodes), after, InOrder(old(tree))))
      ensures Referenced(old(nodes), nodes, 0, 0) && InRange(found, |nodes|)
      ensures Remaining(old(Entries(tree)), Entries(tree), found) && NoneIn(tree, found)
    {
      ghost var was, entries := nodes, Entries(tree);
      found := CollectPurgeVictims(root, after, [], tree);
      VictimsInRange(nodes, root, tree, after);
      hide *;
      CountZero(nodes);
      LessNone(entries, tree);
      for i := 0 to |found|
        invariant Valid() && Referenced(was, nodes, 0, 0) && InRange(found, |nodes|)
        invariant Remaining(entries, Entries(tree), found[..i]) && NoneIn(tree, found[..i])
      {
        ghost var n, r, t := nodes, root, tree;
        RangeAt(found, |nodes|, i);
        var ok := Unlink(found[i]);
        CountOn(was, n, nodes, 0, 0) by { CountElse(n, nodes, found[i], 0); }
        LessOne(entries, n, r, t, nodes, tree, found, i);
      }
      assert found[..|found|] == found;
    }

    /** Drops the table's reference to each. */
    method DerefAll(found: seq<nat>)
      requires Valid() && InRange(found, |nodes|) && NoneIn(tree, found) && AllOnce(nodes, found)
      modifies this`nodes
      ensures Valid() && Dropped(old(nodes), nodes, found)
    {
      ghost var was := nodes;
      hide *;
      DroppedNone(was);
      for i := 0 to |found|
        invariant Valid() && Dropped(was, nodes, found[..i]) && |nodes| == |was|
      {
        ghost var n := nodes;
        RangeAt(found, |nodes|, i);
        OnceAt(was, n, tree, found, i);
        DerefObject(found[i]);
        DroppedOne(was, n, nodes, found, i);
      }
      assert found[..|found|] == found;
    }

    /** PurgeOldVnodes: exactly the vnodes nothing but the table refers to are taken out and let go. */
    method PurgeOldVnodes() returns (ghost gone: set<nat>)
      requires Valid()
      modifies this
      ensures Valid() && Purged(old(nodes), old(Entries(tree)), nodes, Entries(tree), gone)
      ensures OnceGone(old(nodes), old(Entries(tree)), gone)
    {
      ghost var was, entries := nodes, Entries(tree);
      gone := {};
      var after: Option<Key> := None;
      PurgedNone(nodes, entries);
      IdsEntries(nodes, root, tree, 0);
      assert Keyed(nodes, entries);
      hide *;
      var more := true;
      while more
        invariant Valid() && Purged(was, entries, nodes, Entries(tree), gone)
        invariant if more then AllAfter(nodes, Entries(tree), after) else NoneOnce(nodes, Entries(tree))
        decreases more, |Entries(tree)|
      {
        more, after, gone := PurgeNext(was, entries, gone, after);
      }
      PurgedAll(was, entries, nodes, Entries(tree), gone);
    }

    /** One turn of the loop. */
    method PurgeNext(ghost was: Vnodes, ghost entries: set<Entry>, ghost gone: set<nat>, after: Option<Key>)
        returns (more: bool, after': Option<Key>, ghost gone': set<nat>)
      requires Valid() && Purged(was, entries, nodes, Entries(tree), gone) && AllAfter(nodes, Entries(tree), after)
      modifies this
      ensures Valid() && Purged(was, entries, nodes, Entries(tree), gone')
      ensures more ==> AllAfter(nodes, Entries(tree), after') && |Entries(tree)| < |old(Entries(tree))|
      ensures !more ==> NoneOnce(nodes, Entries(tree))
    {
      ghost var n, r, t := nodes, root, tree;
      after' := after;
      assert Shown(n, r, t) && Ordered(t);
      hide *;
      var found := PurgeBatch(after);
      ghost var n' := nodes;
      BatchOnce(n, r, t, n', after, found);
      more := |found| == PURGE_BATCH;
      if more {
        RangeAt(found, |nodes|, PURGE_BATCH - 1);
        after' := Some(nodes[found[PURGE_BATCH - 1]].key);
      }
      DerefAll(found);
      gone' := gone + set id | id in found;
      BatchPurged(was, entries, n, r, t, n', Entries(tree), nodes, found, gone, after);
    }
  }
}
