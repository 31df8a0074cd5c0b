/** The tree of vnodes as a value: ordered by device and inode, balanced, with a height kept in each node. */
module VnodeTrees {
  import opened Arithmetic
  import opened Options

  datatype Key = Key(dev: nat, ino: nat)

  /** A vnode, by where it is, with what it is found by. */
  datatype Entry = Entry(id: nat, key: Key)

  datatype Tree = Leaf | Node(left: Tree, e: Entry, height: int, right: Tree)

  /** CompareKey. */
  function Compare(a: Key, b: Key): int {
    if a.dev != b.dev then (if a.dev < b.dev then -1 else 1)
    else if a.ino != b.ino then (if a.ino < b.ino then -1 else 1)
    else 0
  }

  predicate Less(a: Key, b: Key) {
    Compare(a, b) < 0
  }

  lemma LessOrders(a: Key, b: Key, c: Key)
    ensures Compare(a, b) == 0 <==> a == b
    ensures Compare(a, b) > 0 <==> Less(b, a)
    ensures Less(a, b) && Less(b, c) ==> Less(a, c)
  {
  }

  function Entries(t: Tree): set<Entry> {
    if t.Leaf? then {} else Entries(t.left) + {t.e} + Entries(t.right)
  }

  ghost predicate AllLess(t: Tree, k: Key) {
    forall e :: e in Entries(t) ==> Less(e.key, k)
  }

  ghost predicate AllMore(t: Tree, k: Key) {
    forall e :: e in Entries(t) ==> Less(k, e.key)
  }

  ghost predicate Ordered(t: Tree) {
    t.Node? ==> Ordered(t.left) && Ordered(t.right) && AllLess(t.left, t.e.key) && AllMore(t.right, t.e.key)
  }

  function Height(t: Tree): int {
    if t.Leaf? then 0 else t.height
  }

  predicate Near(a: int, b: int, n: int) {
    -n <= a - b <= n
  }

  /** The heights kept are those of the tree, and no two sides differ by more than one. */
  predicate Avl(t: Tree) {
    t.Node? ==>
      && Avl(t.left) && Avl(t.right) && t.height == Max(Height(t.left), Height(t.right)) + 1
      && Near(Height(t.left), Height(t.right), 1)
  }

  lemma HeightPositive(t: Tree)
    requires Avl(t)
    ensures Height(t) >= 0 && (Height(t) == 0 <==> t.Leaf?)
  {
  }

  // ---- Rebalancing ----

  function Update(l: Tree, e: Entry, r: Tree): Tree {
    Node(l, e, Max(Height(l), Height(r)) + 1, r)
  }

  function Balance(t: Tree): int
    requires t.Node?
  {
    Height(t.left) - Height(t.right)
  }

  function RotateRight(t: Tree): Tree
    requires t.Node? && t.left.Node?
  {
    Update(t.left.left, t.left.e, Update(t.left.right, t.e, t.right))
  }

  function RotateLeft(t: Tree): Tree
    requires t.Node? && t.right.Node?
  {
    Update(Update(t.left, t.e, t.right.left), t.right.e, t.right.right)
  }

  /** Both sides are balanced, and differ by two at the most. */
  predicate Leaning(t: Tree) {
    t.Node? && Avl(t.left) && Avl(t.right) && Near(Height(t.left), Height(t.right), 2)
  }

  function Rebalance(n: Tree): (r: Tree)
    requires Leaning(n)
    ensures Avl(r) && r.Node?
    ensures Near(Height(n.left), Height(n.right), 1) ==> r == Update(n.left, n.e, n.right)
    ensures var h := Max(Height(n.left), Height(n.right)); h <= Height(r) <= h + 1
  {
    HeightPositive(n.left);
    HeightPositive(n.right);
    var t := Update(n.left, n.e, n.right);
    if Balance(t) > 1 then
      HeightPositive(t.left.right);
      RotateRight(if Balance(t.left) < 0 then t.(left := RotateLeft(t.left)) else t)
    else if Balance(t) < -1 then
      HeightPositive(t.right.left);
      RotateLeft(if Balance(t.right) > 0 then t.(right := RotateRight(t.right)) else t)
    else t
  }

  lemma BoundsOfNode(l: Tree, e: Entry, h: int, r: Tree, k: Key)
    ensures AllLess(Node(l, e, h, r), k) <==> AllLess(l, k) && Less(e.key, k) && AllLess(r, k)
    ensures AllMore(Node(l, e, h, r), k) <==> AllMore(l, k) && Less(k, e.key) && AllMore(r, k)
  {
    hide Less;
    assert e in Entries(Node(l, e, h, r));
  }

  lemma BoundsPass(t: Tree, a: Key, b: Key)
    requires Less(a, b)
    ensures AllLess(t, a) ==> AllLess(t, b)
    ensures AllMore(t, b) ==> AllMore(t, a)
  {
    forall e: Entry
      ensures Less(e.key, a) ==> Less(e.key, b)
      ensures Less(b, e.key) ==> Less(a, e.key)
    {
      LessOrders(e.key, a, b);
      LessOrders(a, b, e.key);
    }
    hide Less;
  }

  lemma RotateRightHolds(t: Tree)
    requires t.Node? && t.left.Node?
    ensures Entries(RotateRight(t)) == Entries(t)
  {
    hide Height, Max;
  }

  lemma RotateLeftHolds(t: Tree)
    requires t.Node? && t.right.Node?
    ensures Entries(RotateLeft(t)) == Entries(t)
  {
    hide Height, Max;
  }

  lemma OrderedNode(l: Tree, e: Entry, h: int, r: Tree)
    ensures Ordered(Node(l, e, h, r)) <==> Ordered(l) && Ordered(r) && AllLess(l, e.key) && AllMore(r, e.key)
  {
  }

  lemma RotateRightSame(t: Tree)
    requires t.Node? && t.left.Node?
    ensures Entries(RotateRight(t)) == Entries(t)
    ensures Ordered(t) ==> Ordered(RotateRight(t))
  {
    RotateRightHolds(t);
    var x, r := t.left, RotateRight(t);
    hide *;
    OrderedNode(t.left, t.e, t.height, t.right);
    OrderedNode(x.left, x.e, x.height, x.right);
    BoundsOfNode(x.left, x.e, x.height, x.right, t.e.key);
    RotateRightIs(t);
    OrderedNode(r.left, r.e, r.height, r.right);
    OrderedNode(r.right.left, r.right.e, r.right.height, r.right.right);
    BoundsOfNode(r.right.left, r.right.e, r.right.height, r.right.right, x.e.key);
    if Ordered(t) {
      BoundsPass(t.right, x.e.key, t.e.key);
    }
  }

  lemma RotateRightIs(t: Tree)
    requires t.Node? && t.left.Node?
    ensures var r := RotateRight(t);
            && r.Node? && r.right.Node? && r.left == t.left.left && r.e == t.left.e
            && r.right.left == t.left.right && r.right.e == t.e && r.right.right == t.right
  {
  }

  lemma RotateLeftSame(t: Tree)
    requires t.Node? && t.right.Node?
    ensures Entries(RotateLeft(t)) == Entries(t)
    ensures Ordered(t) ==> Ordered(RotateLeft(t))
  {
    RotateLeftHolds(t);
    var x, r := t.right, RotateLeft(t);
    hide *;
    OrderedNode(t.left, t.e, t.height, t.right);
    OrderedNode(x.left, x.e, x.height, x.right);
    BoundsOfNode(x.left, x.e, x.height, x.right, t.e.key);
    RotateLeftIs(t);
    OrderedNode(r.left, r.e, r.height, r.right);
    OrderedNode(r.left.left, r.left.e, r.left.height, r.left.right);
    BoundsOfNode(r.left.left, r.left.e, r.left.height, r.left.right, x.e.key);
    if Ordered(t) {
      BoundsPass(t.left, t.e.key, x.e.key);
    }
  }

  lemma RotateLeftIs(t: Tree)
    requires t.Node? && t.right.Node?
    ensures var r := RotateLeft(t);
            && r.Node? && r.left.Node? && r.right == t.right.right && r.e == t.right.e
            && r.left.left == t.left && r.left.e == t.e && r.left.right == t.right.left
  {
  }

  /** Rebalancing moves nothing in or out, and keeps the order. */
  lemma RebalanceSame(n: Tree)
    requires Leaning(n)
    ensures Entries(Rebalance(n)) == Entries(n)
    ensures Ordered(n) ==> Ordered(Rebalance(n))
  {
    HeightPositive(n.left);
    HeightPositive(n.right);
    var t := Update(n.left, n.e, n.right);
    if Balance(t) > 1 {
      HeightPositive(t.left.right);
      if Balance(t.left) < 0 {
        RotateLeftSame(t.left);
        RotateRightSame(t.(left := RotateLeft(t.left)));
      } else {
        RotateRightSame(t);
      }
    } else if Balance(t) < -1 {
      HeightPositive(t.right.left);
      if Balance(t.right) > 0 {
        RotateRightSame(t.right);
        RotateLeftSame(t.(right := RotateRight(t.right)));
      } else {
        RotateLeftSame(t);
      }
    }
  }

  /** A tree that is balanced already stays as it is. */
  lemma RebalanceNothing(t: Tree)
    requires Avl(t) && t.Node?
    ensures Leaning(t) && Rebalance(t) == t
  {
  }

  // ---- Putting in and taking out ----

  function Insert(t: Tree, e: Entry): (r: Tree)
    requires Avl(t)
    ensures Avl(r) && Height(t) <= Height(r) <= Height(t) + 1
  {
    if t.Leaf? then Node(Leaf, e, 1, Leaf)
    else if Compare(e.key, t.e.key) == 0 then t
    else if Compare(e.key, t.e.key) < 0 then Rebalance(t.(left := Insert(t.left, e)))
    else Rebalance(t.(right := Insert(t.right, e)))
  }

  /** The least entry, and the tree without it. */
  function DetachMin(t: Tree): (r: (Tree, Entry))
    requires Avl(t) && t.Node?
    ensures Avl(r.0) && Height(t) - 1 <= Height(r.0) <= Height(t)
  {
    HeightPositive(t.left);
    HeightPositive(t.right);
    if t.left.Leaf? then (t.right, t.e)
    else
      var (rest, min) := DetachMin(t.left);
      (Rebalance(t.(left := rest)), min)
  }

  function Remove(t: Tree, e: Entry): (r: Tree)
    requires Avl(t)
    ensures Avl(r) && Height(t) - 1 <= Height(r) <= Height(t)
  {
    if t.Leaf? then t
    else if Compare(e.key, t.e.key) < 0 then Rebalance(t.(left := Remove(t.left, e)))
    else if Compare(e.key, t.e.key) > 0 then Rebalance(t.(right := Remove(t.right, e)))
    else if t.e != e then t
    else Replacement(t)
  }

  /** What takes the root's place. */
  function Replacement(t: Tree): (r: Tree)
    requires Avl(t) && t.Node?
    ensures Avl(r) && Height(t) - 1 <= Height(r) <= Height(t)
  {
    HeightPositive(t.left);
    HeightPositive(t.right);
    if t.left.Leaf? then t.right
    else if t.right.Leaf? then t.left
    else
      var (rest, successor) := DetachMin(t.right);
      Rebalance(Node(t.left, successor, 0, rest))
  }

  ghost predicate HasKey(t: Tree, k: Key) {
    exists e :: e in Entries(t) && e.key == k
  }

  lemma WithLeft(t: Tree, l: Tree)
    requires t.Node? && Ordered(t) && Ordered(l) && AllLess(l, t.e.key)
    ensures Ordered(t.(left := l)) && Entries(t.(left := l)) == Entries(l) + {t.e} + Entries(t.right)
    ensures Entries(t) == Entries(t.left) + {t.e} + Entries(t.right)
  {
  }

  lemma WithRight(t: Tree, r: Tree)
    requires t.Node? && Ordered(t) && Ordered(r) && AllMore(r, t.e.key)
    ensures Ordered(t.(right := r)) && Entries(t.(right := r)) == Entries(t.left) + {t.e} + Entries(r)
    ensures Entries(t) == Entries(t.left) + {t.e} + Entries(t.right)
  {
  }

  /** An entry is on the side its key says. */
  lemma Sides(t: Tree, e: Entry)
    requires t.Node? && Ordered(t)
    ensures e in Entries(t) <==> e in Entries(t.left) || e == t.e || e in Entries(t.right)
    ensures e in Entries(t.left) ==> Less(e.key, t.e.key) && e != t.e && e !in Entries(t.right)
    ensures e in Entries(t.right) ==> Less(t.e.key, e.key) && e != t.e
  {
    LessOrders(e.key, t.e.key, e.key);
    hide Less;
  }

  lemma KeySides(t: Tree, k: Key)
    requires t.Node? && Ordered(t)
    ensures HasKey(t, k) <==>
            if Compare(k, t.e.key) == 0 then true
            else if Compare(k, t.e.key) < 0 then HasKey(t.left, k) else HasKey(t.right, k)
  {
    LessOrders(k, t.e.key, k);
    assert t.e in Entries(t);
    if e :| e in Entries(t) && e.key == k {
      Sides(t, e);
    }
  }

  /** The bounds hold of a tree with nothing new but an entry they hold of. */
  lemma BoundsOfFew(t: Tree, some: set<Entry>, t': Tree, k: Key)
    requires Entries(t') <= Entries(t) + some
    ensures AllLess(t, k) && (forall e :: e in some ==> Less(e.key, k)) ==> AllLess(t', k)
    ensures AllMore(t, k) && (forall e :: e in some ==> Less(k, e.key)) ==> AllMore(t', k)
  {
    hide Less, Entries;
  }

  /** With the key in the tree nothing changes; else exactly the new entry is added. */
  lemma {:induction false} InsertExact(t: Tree, e: Entry)
    requires Avl(t) && Ordered(t)
    ensures Ordered(Insert(t, e))
    ensures HasKey(t, e.key) ==> Insert(t, e) == t
    ensures !HasKey(t, e.key) ==> Entries(Insert(t, e)) == Entries(t) + {e}
  {
    if t.Node? {
      KeySides(t, e.key);
      LessOrders(e.key, t.e.key, e.key);
      RebalanceNothing(t);
      if Compare(e.key, t.e.key) < 0 {
        var l := Insert(t.left, e);
        hide Less, HasKey, Compare, Rebalance, AllLess, AllMore;
        InsertExact(t.left, e);
        BoundsOfFew(t.left, {e}, l, t.e.key);
        WithLeft(t, l);
        RebalanceSame(t.(left := l));
      } else if Compare(e.key, t.e.key) > 0 {
        var r := Insert(t.right, e);
        hide Less, HasKey, Compare, Rebalance, AllLess, AllMore;
        InsertExact(t.right, e);
        BoundsOfFew(t.right, {e}, r, t.e.key);
        WithRight(t, r);
        RebalanceSame(t.(right := r));
      }
    }
  }

  lemma {:induction false} DetachMinExact(t: Tree)
    requires Avl(t) && Ordered(t) && t.Node?
    ensures var (rest, min) := DetachMin(t);
            && Ordered(rest) && min in Entries(t) && Entries(rest) == Entries(t) - {min} && AllMore(rest, min.key)
  {
    Sides(t, t.e);
    if t.left.Node? {
      var (l, min) := DetachMin(t.left);
      hide Less, Rebalance, Avl, Height;
      DetachMinExact(t.left);
      Sides(t, min);
      WithLeft(t, l);
      RebalanceSame(t.(left := l));
      BoundsPass(t.right, min.key, t.e.key);
    }
  }

  /** Exactly the entry is taken out; without it nothing changes. */
  lemma {:induction false} RemoveExact(t: Tree, e: Entry)
    requires Avl(t) && Ordered(t)
    ensures Ordered(Remove(t, e)) && Entries(Remove(t, e)) == Entries(t) - {e}
    ensures e !in Entries(t) ==> Remove(t, e) == t
  {
    if t.Node? {
      Sides(t, e);
      LessOrders(e.key, t.e.key, e.key);
      RebalanceNothing(t);
      if Compare(e.key, t.e.key) < 0 {
        var l := Remove(t.left, e);
        hide Less, Compare, Rebalance, AllLess, AllMore;
        RemoveExact(t.left, e);
        BoundsOfFew(t.left, {}, l, t.e.key);
        WithLeft(t, l);
        RebalanceSame(t.(left := l));
      } else if Compare(e.key, t.e.key) > 0 {
        var r := Remove(t.right, e);
        hide Less, Compare, Rebalance, AllLess, AllMore;
        RemoveExact(t.right, e);
        BoundsOfFew(t.right, {}, r, t.e.key);
        WithRight(t, r);
        RebalanceSame(t.(right := r));
      } else if t.e == e {
        ReplacementExact(t);
      }
    }
  }

  lemma ReplacementExact(t: Tree)
    requires Avl(t) && Ordered(t) && t.Node?
    ensures Ordered(Replacement(t)) && Entries(Replacement(t)) == Entries(t) - {t.e}
  {
    Sides(t, t.e);
    if t.left.Node? && t.right.Node? {
      DetachMinExact(t.right);
      var (rest, min) := DetachMin(t.right);
      Sides(t, min);
      BoundsPass(t.left, t.e.key, min.key);
      hide Less, Rebalance;
      RebalanceSame(Node(t.left, min, 0, rest));
    }
  }

  // ---- Looking up ----

  function Lookup(t: Tree, k: Key): Option<Entry> {
    if t.Leaf? then None
    else if Compare(k, t.e.key) == 0 then Some(t.e)
    else Lookup(if Compare(k, t.e.key) < 0 then t.left else t.right, k)
  }

  /** The search finds the one entry with the key, if there is one. */
  lemma {:induction false} LookupExact(t: Tree, k: Key)
    requires Ordered(t)
    ensures Lookup(t, k).None? <==> !HasKey(t, k)
    ensures forall e :: e in Entries(t) && e.key == k <==> Lookup(t, k) == Some(e)
  {
    if t.Node? {
      KeySides(t, k);
      LookupExact(if Compare(k, t.e.key) < 0 then t.left else t.right, k);
      forall e
        ensures e in Entries(t) && e.key == k <==> Lookup(t, k) == Some(e)
      {
        Sides(t, e);
        LessOrders(k, t.e.key, k);
      }
    }
  }

  /** How many nodes the search looks at. */
  function Steps(t: Tree, k: Key): nat {
    if t.Leaf? then 0
    else if Compare(k, t.e.key) == 0 then 1
    else 1 + Steps(if Compare(k, t.e.key) < 0 then t.left else t.right, k)
  }

  function Size(t: Tree): nat {
    if t.Leaf? then 0 else Size(t.left) + 1 + Size(t.right)
  }

  function Fib(n: nat): nat {
    if n < 2 then n else Fib(n - 1) + Fib(n - 2)
  }

  /** A search looks at no more nodes than the tree is high. */
  lemma {:induction false} SearchIsShort(t: Tree, k: Key)
    requires Avl(t)
    ensures Steps(t, k) <= Height(t)
  {
    if t.Node? {
      HeightPositive(t);
      SearchIsShort(t.left, k);
      SearchIsShort(t.right, k);
    }
  }

  /** A tree of some height holds as many nodes as Fibonacci's does, or more: the height is logarithmic. */
  lemma {:induction false} HeightIsSmall(t: Tree)
    requires Avl(t)
    ensures Height(t) >= 0 && Fib(Height(t) + 2) <= Size(t) + 1
  {
    HeightPositive(t);
    if t.Node? {
      HeightPositive(t.left);
      HeightPositive(t.right);
      HeightIsSmall(t.left);
      HeightIsSmall(t.right);
      var a, b := Height(t.left), Height(t.right);
      var h := Max(a, b);
      assert t.height == h + 1 && (a == h || b == h) && a >= h - 1 && b >= h - 1;
      FibNext(h + 1);
      FibMonotone(h + 1, a + 2);
      FibMonotone(h + 1, b + 2);
      hide Fib;
    }
  }

  lemma FibNext(n: nat)
    requires n > 0
    ensures Fib(n + 2) == Fib(n + 1) + Fib(n)
  {
  }

  lemma {:induction false} FibGrows(n: nat)
    ensures Fib(n) <= Fib(n + 1)
  {
    if n >= 2 {
      FibGrows(n - 1);
      FibGrows(n - 2);
    }
  }

  lemma {:induction false} FibDoubles(m: nat)
    ensures Fib(2 * m + 2) >= Pow2(m)
  {
    if m > 0 {
      FibDoubles(m - 1);
      FibGrows(2 * m);
    }
  }

  lemma {:induction false} FibMonotone(a: nat, b: nat)
    requires a <= b
    ensures Fib(a) <= Fib(b)
    decreases b - a
  {
    if a < b {
      FibGrows(a);
      FibMonotone(a + 1, b);
    }
  }

  /** With as many nodes as 32 bits can count, the height fits the eight bits it is kept in. */
  lemma HeightFits(t: Tree)
    requires Avl(t) && Size(t) < 0x1_0000_0000
    ensures 0 <= Height(t) < 128
  {
    HeightIsSmall(t);
    hide Fib, Pow2;
    if Height(t) >= 68 {
      FibMonotone(2 * 34 + 2, Height(t) + 2);
      FibDoubles(34);
      Power34();
    }
  }

  lemma Power34()
    ensures Pow2(34) == 0x4_0000_0000
  {
    Pow2Values();
    Pow2Sum(8, 8);
    Pow2Sum(16, 16);
    Pow2Sum(32, 2);
  }

  // ---- In order ----

  function InOrder(t: Tree): seq<Entry> {
    if t.Leaf? then [] else InOrder(t.left) + [t.e] + InOrder(t.right)
  }

  predicate Sorted(es: seq<Entry>) {
    forall i, j :: 0 <= i < j < |es| ==> Less(es[i].key, es[j].key)
  }

  lemma {:induction false} InOrderEntries(t: Tree, e: Entry)
    ensures e in InOrder(t) <==> e in Entries(t)
  {
    if t.Node? {
      InOrderEntries(t.left, e);
      InOrderEntries(t.right, e);
    }
  }

  lemma {:induction false} InOrderSorted(t: Tree)
    requires Ordered(t)
    ensures Sorted(InOrder(t))
  {
    if t.Node? {
      InOrderSorted(t.left);
      InOrderSorted(t.right);
      var l, r := InOrder(t.left), InOrder(t.right);
      forall e
        ensures (e in l <==> e in Entries(t.left)) && (e in r <==> e in Entries(t.right))
      {
        InOrderEntries(t.left, e);
        InOrderEntries(t.right, e);
      }
      JoinSorted(l, t.e, r);
    }
  }

  lemma JoinSorted(l: seq<Entry>, e: Entry, r: seq<Entry>)
    requires Sorted(l) && Sorted(r)
    requires (forall d :: d in l ==> Less(d.key, e.key)) && (forall d :: d in r ==> Less(e.key, d.key))
    ensures Sorted(l + [e] + r)
  {
    var all := l + [e] + r;
    forall i, j | 0 <= i < j < |all|
      ensures Less(all[i].key, all[j].key)
    {
      LessOrders(all[i].key, e.key, all[j].key);
      assert i < |l| ==> all[i] == l[i] && all[i] in l;
      assert j > |l| ==> all[j] == r[j - |l| - 1] && all[j] in r;
    }
  }
}
