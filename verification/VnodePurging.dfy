/** Which vnodes a purge collects, batch by batch. */
module VnodePurging {
  import opened Options
  import opened VnodeTrees
  import opened VnodeLinks

  const PURGE_BATCH := 16

  /** Nothing but the table refers to the vnode, and it comes after the one to go on from. */
  predicate Wanted(nodes: Vnodes, after: Option<Key>, e: Entry) {
    e.id < |nodes| && nodes[e.id].refs == 1 && (after.None? || Less(after.value, e.key))
  }

  function Victims(nodes: Vnodes, after: Option<Key>, es: seq<Entry>): seq<nat> {
    if es == [] then []
    else (if Wanted(nodes, after, es[0]) then [es[0].id] else []) + Victims(nodes, after, es[1..])
  }

  function Capped(ids: seq<nat>): seq<nat> {
    if |ids| <= PURGE_BATCH then ids else ids[..PURGE_BATCH]
  }

  lemma VictimsFirst(nodes: Vnodes, after: Option<Key>, es: seq<Entry>)
    requires es != []
    ensures Victims(nodes, after, es) ==
            (if Wanted(nodes, after, es[0]) then [es[0].id] else []) + Victims(nodes, after, es[1..])
  {
  }

  lemma {:induction false} VictimsJoin(nodes: Vnodes, after: Option<Key>, a: seq<Entry>, b: seq<Entry>)
    ensures Victims(nodes, after, a + b) == Victims(nodes, after, a) + Victims(nodes, after, b)
  {
    hide Wanted;
    if a == [] {
      assert a + b == b;
    } else {
      assert (a + b)[0] == a[0] && (a + b)[1..] == a[1..] + b;
      VictimsJoin(nodes, after, a[1..], b);
      VictimsFirst(nodes, after, a);
      VictimsFirst(nodes, after, a + b);
      hide Victims;
      var first := if Wanted(nodes, after, a[0]) then [a[0].id] else [];
      assert first + (Victims(nodes, after, a[1..]) + Victims(nodes, after, b))
          == first + Victims(nodes, after, a[1..]) + Victims(nodes, after, b);
    }
  }

  lemma {:induction false} NoVictims(nodes: Vnodes, after: Option<Key>, es: seq<Entry>)
    requires forall e :: e in es ==> !Wanted(nodes, after, e)
    ensures Victims(nodes, after, es) == []
  {
    if es != [] {
      NoVictims(nodes, after, es[1..]);
    }
  }

  ghost predicate Climbing(nodes: Vnodes, v: seq<nat>) {
    forall i, j :: 0 <= i < j < |v| && v[i] < |nodes| && v[j] < |nodes| ==> Less(nodes[v[i]].key, nodes[v[j]].key)
  }

  /** Exactly the wanted ones, in order of their keys. */
  lemma {:induction false} VictimsExact(nodes: Vnodes, after: Option<Key>, es: seq<Entry>)
    requires Sorted(es) && forall e :: e in es ==> e.id < |nodes| && e.key == nodes[e.id].key
    ensures var v := Victims(nodes, after, es);
            && (forall id :: id in v ==> id < |nodes| && Entry(id, nodes[id].key) in es)
            && (forall e :: e in es ==> (e.id in v <==> Wanted(nodes, after, e)))
            && Climbing(nodes, v)
  {
    if es != [] {
      var rest := Victims(nodes, after, es[1..]);
      VictimsExact(nodes, after, es[1..]);
      VictimsFirst(nodes, after, es);
      hide Victims, Wanted, Less;
      forall id | id in rest
        ensures id < |nodes| && es[0].id < |nodes| && es[0].id != id && Less(nodes[es[0].id].key, nodes[id].key)
      {
        var j :| 0 <= j < |es[1..]| && es[1..][j] == Entry(id, nodes[id].key);
        assert es[j + 1] == Entry(id, nodes[id].key);
        LessOrders(es[0].key, nodes[id].key, es[0].key);
      }
    }
  }

  /** They are different vnodes that only the table refers to. */
  ghost predicate AllOnce(nodes: Vnodes, ids: seq<nat>) {
    && (forall i :: 0 <= i < |ids| && ids[i] < |nodes| ==> nodes[ids[i]].refs == 1)
    && (forall i, j :: 0 <= i < j < |ids| ==> ids[i] != ids[j])
  }

  /** Each of these has a reference less. */
  ghost predicate Dropped(was: Vnodes, now: Vnodes, ids: seq<nat>) {
    && |now| == |was|
    && forall i :: 0 <= i < |was| ==>
         now[i].key == was[i].key && now[i].refs == was[i].refs - if i in ids then 1 else 0
  }

  lemma DroppedNone(nodes: Vnodes)
    ensures Dropped(nodes, nodes, [])
  {
  }

  lemma OnceAt(was: Vnodes, now: Vnodes, t: Tree, ids: seq<nat>, i: nat)
    requires AllOnce(was, ids) && NoneIn(t, ids) && i < |ids| && ids[i] < |was| && Dropped(was, now, ids[..i])
    ensures |now| == |was| && now[ids[i]].refs == 1 && ids[i] !in Ids(t)
  {
  }

  lemma DroppedOne(was: Vnodes, n: Vnodes, now: Vnodes, ids: seq<nat>, i: nat)
    requires i < |ids| && Dropped(was, n, ids[..i]) && Referenced(n, now, ids[i], -1) && AllOnce(was, ids)
    ensures Dropped(was, now, ids[..i + 1])
  {
    assert ids[..i + 1] == ids[..i] + [ids[i]];
  }

  /** All that only the table refers to are still to come. */
  ghost predicate AllAfter(nodes: Vnodes, left: set<Entry>, after: Option<Key>) {
    forall e :: e in left && e.id < |nodes| && nodes[e.id].refs == 1 ==> Wanted(nodes, after, e)
  }

  ghost predicate NoneOnce(nodes: Vnodes, left: set<Entry>) {
    forall e :: e in left && e.id < |nodes| ==> nodes[e.id].refs != 1
  }

  lemma PurgedNone(nodes: Vnodes, entries: set<Entry>)
    ensures Purged(nodes, entries, nodes, entries, {}) && AllAfter(nodes, entries, None)
  {
  }

  lemma PurgedAll(was: Vnodes, entries: set<Entry>, now: Vnodes, left: set<Entry>, gone: set<nat>)
    requires Purged(was, entries, now, left, gone) && NoneOnce(now, left)
    requires Keyed(was, entries)
    ensures OnceGone(was, entries, gone)
  {
  }

  ghost predicate Keyed(nodes: Vnodes, entries: set<Entry>) {
    forall e :: e in entries ==> e.id < |nodes| && e.key == nodes[e.id].key
  }

  /** Of the vnodes in the table, those are gone that only the table referred to. */
  ghost predicate OnceGone(was: Vnodes, entries: set<Entry>, gone: set<nat>) {
    forall e :: e in entries ==> (e.id in gone <==> e.id < |was| && was[e.id].refs == 1)
  }

  /** A batch purges its vnodes; a full one leaves only later ones to come, and one that is not full leaves none. */
  lemma BatchPurged(was: Vnodes, entries: set<Entry>, n: Vnodes, root: Option<nat>, t: Tree, n': Vnodes,
                    left: set<Entry>, n'': Vnodes, found: seq<nat>, gone: set<nat>, after: Option<Key>)
    requires Purged(was, entries, n, Entries(t), gone) && AllAfter(n, Entries(t), after)
    requires Shown(n, root, t) && Ordered(t) && found == Capped(Victims(n, after, InOrder(t)))
    requires Referenced(n, n', 0, 0) && Remaining(Entries(t), left, found) && Dropped(n', n'', found)
    ensures Purged(was, entries, n'', left, gone + set id | id in found)
    ensures |found| < PURGE_BATCH ==> NoneOnce(n'', left)
    ensures |found| == PURGE_BATCH ==>
              var last := found[PURGE_BATCH - 1];
              last < |n'| && AllAfter(n'', left, Some(n'[last].key)) && |left| < |Entries(t)|
  {
    BatchOnce(n, root, t, n', after, found);
    LastVictim(n, root, t, after, found);
    if |found| == PURGE_BATCH {
      assert found[PURGE_BATCH - 1] in found && found[0] in found;
      FewerLeft(Entries(t), left, Entry(found[0], n[found[0]].key));
    }
    BatchCounts(was, entries, n, t, n', left, n'', found, gone);
    forall e | e in left && e.id < |n''| && n''[e.id].refs == 1
      ensures |found| == PURGE_BATCH && found[PURGE_BATCH - 1] < |n| && Less(n[found[PURGE_BATCH - 1]].key, e.key)
    {
      StillLater(n, root, t, after, found, e);
    }
    hide *;
    LaterLeft(n, n', n'', left, found);
  }

  lemma LaterLeft(n: Vnodes, n': Vnodes, n'': Vnodes, left: set<Entry>, found: seq<nat>)
    requires Referenced(n, n', 0, 0) && Dropped(n', n'', found) && |found| <= PURGE_BATCH
    requires forall e :: e in left && e.id < |n''| && n''[e.id].refs == 1 ==>
               |found| == PURGE_BATCH && found[PURGE_BATCH - 1] < |n| && Less(n[found[PURGE_BATCH - 1]].key, e.key)
    ensures |found| < PURGE_BATCH ==> NoneOnce(n'', left)
    ensures |found| == PURGE_BATCH && found[PURGE_BATCH - 1] < |n| ==>
              AllAfter(n'', left, Some(n'[found[PURGE_BATCH - 1]].key))
  {
    hide Less;
  }

  lemma BatchCounts(was: Vnodes, entries: set<Entry>, n: Vnodes, t: Tree, n': Vnodes, left: set<Entry>, n'': Vnodes,
                    found: seq<nat>, gone: set<nat>)
    requires Purged(was, entries, n, Entries(t), gone) && Referenced(n, n', 0, 0) && Dropped(n', n'', found)
    requires Remaining(Entries(t), left, found) && AllOnce(n', found)
    requires forall id :: id in found ==> id < |n| && Entry(id, n[id].key) in Entries(t)
    ensures Purged(was, entries, n'', left, gone + set id | id in found)
    ensures forall e :: e in left && e.id < |n''| && n''[e.id].refs == 1 ==>
              e in Entries(t) && e.id !in found && n[e.id].refs == 1
  {
    hide Entries;
  }

  /** What is left of the wanted after a batch comes after all of it, and the batch is full. */
  lemma StillLater(n: Vnodes, root: Option<nat>, t: Tree, after: Option<Key>, found: seq<nat>, e: Entry)
    requires Shown(n, root, t) && Ordered(t) && found == Capped(Victims(n, after, InOrder(t)))
    requires e in Entries(t) && e.id !in found && Wanted(n, after, e)
    ensures |found| == PURGE_BATCH && found[PURGE_BATCH - 1] < |n| && Less(n[found[PURGE_BATCH - 1]].key, e.key)
  {
    var v := Victims(n, after, InOrder(t));
    VictimsOf(n, root, t, after);
    IdsEntries(n, root, t, 0);
    hide Victims, InOrder, Shown, Ordered, Entries, Less, Wanted;
    assert e.id in v;
    var j :| 0 <= j < |v| && v[j] == e.id;
    assert |v| > PURGE_BATCH && j >= PURGE_BATCH && v[PURGE_BATCH - 1] in v;
  }

  lemma LastVictim(n: Vnodes, root: Option<nat>, t: Tree, after: Option<Key>, found: seq<nat>)
    requires Shown(n, root, t) && Ordered(t) && found == Capped(Victims(n, after, InOrder(t)))
    ensures forall id :: id in found ==> id < |n| && Entry(id, n[id].key) in Entries(t)
  {
    VictimsOf(n, root, t, after);
    var v := Victims(n, after, InOrder(t));
    forall id | id in found
      ensures id in v
    {
      var i :| 0 <= i < |found| && found[i] == id;
      assert v[i] == id;
    }
  }

  lemma FewerLeft(entries: set<Entry>, left: set<Entry>, e: Entry)
    requires left <= entries && e in entries && e !in left
    ensures |left| < |entries|
  {
    assert entries == left + (entries - left) && e in entries - left;
  }

  lemma BatchOnce(n: Vnodes, root: Option<nat>, t: Tree, n': Vnodes, after: Option<Key>, found: seq<nat>)
    requires Shown(n, root, t) && Ordered(t) && found == Capped(Victims(n, after, InOrder(t)))
    requires Referenced(n, n', 0, 0)
    ensures AllOnce(n', found)
  {
    VictimsOf(n, root, t, after);
    var v := Victims(n, after, InOrder(t));
    forall i | 0 <= i < |v|
      ensures v[i] < |n| && n[v[i]].refs == 1
    {
      assert v[i] in v && Entry(v[i], n[v[i]].key) in Entries(t);
    }
  }

  ghost predicate InRange(ids: seq<nat>, n: nat) {
    forall i :: 0 <= i < |ids| ==> ids[i] < n
  }

  /** What is left is what there was without these. */
  ghost predicate Remaining(entries: set<Entry>, left: set<Entry>, ids: seq<nat>) {
    forall e :: e in left <==> e in entries && e.id !in ids
  }

  ghost predicate NoneIn(t: Tree, ids: seq<nat>) {
    forall id :: id in ids ==> id !in Ids(t)
  }

  lemma RangeAt(ids: seq<nat>, n: nat, i: nat)
    requires InRange(ids, n) && i < |ids|
    ensures ids[i] < n
  {
  }

  lemma CountElse(was: Vnodes, now: Vnodes, node: nat, other: nat)
    requires Referenced(was, now, node, 0)
    ensures Referenced(was, now, other, 0)
  {
  }

  lemma LessNone(entries: set<Entry>, t: Tree)
    ensures Remaining(entries, entries, []) && NoneIn(t, [])
  {
  }

  lemma LessOne(entries: set<Entry>, n: Vnodes, r: Option<nat>, t: Tree, n': Vnodes, t': Tree, ids: seq<nat>, i: nat)
    requires Shown(n, r, t) && i < |ids| && ids[i] < |n| && Referenced(n, n', ids[i], 0)
    requires Remaining(entries, Entries(t), ids[..i]) && NoneIn(t, ids[..i])
    requires Entries(t') == Entries(t) - {Entry(ids[i], n'[ids[i]].key)} && Ids(t') == Ids(t) - {ids[i]}
    ensures Remaining(entries, Entries(t'), ids[..i + 1]) && NoneIn(t', ids[..i + 1])
  {
    IdsEntries(n, r, t, ids[i]);
    assert ids[..i + 1] == ids[..i] + [ids[i]];
  }

  lemma VictimsInRange(nodes: Vnodes, root: Option<nat>, t: Tree, after: Option<Key>)
    requires Shown(nodes, root, t) && Ordered(t)
    ensures var v := Victims(nodes, after, InOrder(t)); InRange(Capped([] + v), |nodes|) && [] + v == v
  {
    VictimsOf(nodes, root, t, after);
    var v := Victims(nodes, after, InOrder(t));
    assert [] + v == v;
    forall i | 0 <= i < |Capped(v)|
      ensures Capped(v)[i] < |nodes|
    {
      assert Capped(v)[i] == v[i] && v[i] in v;
    }
  }

  /** The victims are the vnodes of the table that are wanted, in order of their keys. */
  lemma VictimsOf(nodes: Vnodes, root: Option<nat>, t: Tree, after: Option<Key>)
    requires Shown(nodes, root, t) && Ordered(t)
    ensures var v := Victims(nodes, after, InOrder(t));
            && Climbing(nodes, v)
            && (forall id :: id in v ==> id < |nodes| && Entry(id, nodes[id].key) in Entries(t))
            && (forall e :: e in Entries(t) ==> (e.id in v <==> Wanted(nodes, after, e)))
  {
    InOrderSorted(t);
    forall e
      ensures e in InOrder(t) <==> e in Entries(t)
    {
      InOrderEntries(t, e);
    }
    IdsEntries(nodes, root, t, 0);
    VictimsExact(nodes, after, InOrder(t));
  }

  /** So far exactly the vnodes `gone` have been purged, each one nothing but the table referred to. */
  ghost predicate Purged(was: Vnodes, entries: set<Entry>, now: Vnodes, left: set<Entry>, gone: set<nat>) {
    && |now| == |was|
    && (forall i :: 0 <= i < |was| ==> now[i].key == was[i].key)
    && (forall i :: 0 <= i < |was| ==> now[i].refs == if i in gone then 0 else was[i].refs)
    && (forall i :: i in gone ==> i < |was| && was[i].refs == 1 && Entry(i, was[i].key) in entries)
    && (forall e :: e in left <==> e in entries && e.id !in gone)
  }

  function WantedRoot(nodes: Vnodes, after: Option<Key>, t: Tree): seq<nat>
    requires t.Node?
  {
    if Wanted(nodes, after, t.e) then [t.e.id] else []
  }

  lemma CappedAlready(nodes: Vnodes, after: Option<Key>, t: Tree, found: seq<nat>)
    requires |found| <= PURGE_BATCH && (t.Leaf? || |found| == PURGE_BATCH)
    ensures Capped(found + Victims(nodes, after, InOrder(t))) == found
  {
    if t.Leaf? {
      assert found + [] == found;
    }
  }

  /** Collecting side by side comes to collecting all. */
  lemma CappedSteps(nodes: Vnodes, after: Option<Key>, t: Tree, found: seq<nat>)
    requires t.Node? && |found| < PURGE_BATCH
    ensures var l, m, r := Victims(nodes, after, InOrder(t.left)), WantedRoot(nodes, after, t),
                           Victims(nodes, after, InOrder(t.right));
            var all := Capped(found + Victims(nodes, after, InOrder(t)));
            && (|Capped(found + l)| >= PURGE_BATCH ==> all == Capped(found + l))
            && (|Capped(found + l)| < PURGE_BATCH ==>
                  Capped(found + l) == found + l && |found + l + m| <= PURGE_BATCH)
            && all == Capped(found + l + m + r)
            && (m == [] ==> found + l + m == found + l) && (l == [] ==> found + l == found)
  {
    var l, m, r := Victims(nodes, after, InOrder(t.left)), WantedRoot(nodes, after, t),
                   Victims(nodes, after, InOrder(t.right));
    hide *;
    VictimsParts(nodes, after, t);
    OneRoot(nodes, after, t);
    CappedPart(found + l, m + r);
    Appended(found, l, m, r);
  }

  lemma OneRoot(nodes: Vnodes, after: Option<Key>, t: Tree)
    requires t.Node?
    ensures |WantedRoot(nodes, after, t)| <= 1
  {
  }

  lemma Appended(found: seq<nat>, l: seq<nat>, m: seq<nat>, r: seq<nat>)
    ensures found + (l + m + r) == found + l + m + r == found + l + (m + r)
    ensures m == [] ==> found + l + m == found + l
    ensures l == [] ==> found + l == found
  {
  }

  lemma CappedPart(a: seq<nat>, b: seq<nat>)
    ensures |Capped(a)| >= PURGE_BATCH ==> Capped(a + b) == Capped(a)
    ensures |Capped(a)| < PURGE_BATCH ==> Capped(a) == a
  {
  }

  lemma VictimsParts(nodes: Vnodes, after: Option<Key>, t: Tree)
    requires t.Node?
    ensures Victims(nodes, after, InOrder(t)) ==
            Victims(nodes, after, InOrder(t.left))
            + WantedRoot(nodes, after, t)
            + Victims(nodes, after, InOrder(t.right))
  {
    VictimsJoin(nodes, after, InOrder(t.left) + [t.e], InOrder(t.right));
    VictimsJoin(nodes, after, InOrder(t.left), [t.e]);
  }

  /** To the left of a node that is not after the key nothing is. */
  lemma NoneBefore(nodes: Vnodes, after: Key, t: Tree)
    requires t.Node? && Ordered(t) && !Less(after, t.e.key)
    ensures Victims(nodes, Some(after), InOrder(t.left)) == [] && !Wanted(nodes, Some(after), t.e)
  {
    forall e | e in InOrder(t.left)
      ensures !Wanted(nodes, Some(after), e)
    {
      InOrderEntries(t.left, e);
      LessOrders(after, e.key, t.e.key);
    }
    NoVictims(nodes, Some(after), InOrder(t.left));
  }
}
