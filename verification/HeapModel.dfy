/** The heap's memory as boundary-tagged blocks, and what each kind of edit keeps. */
module HeapModel {
  import opened Sequences
  import opened HeapSizes

  datatype Kind = LeftFence | RightFence | Live | Free | Pending

  /** A block: its whole length in words, tags included, and the chunk it lies in. `Pending` is a block in
      hand: neither on a free list nor given out, so its allocated bit says nothing. */
  datatype Block = Block(words: nat, kind: Kind, chunk: nat) {
    predicate Fence() {
      kind == LeftFence || kind == RightFence
    }

    function Payload(): int {
      4 * words - METADATA_TOTAL
    }
  }

  type Blocks = map<nat, Block>

  // ---- Tags ----

  predicate Tagged(m: seq<int>, s: nat, b: Block) {
    && s > 0 && s + b.words <= |m|
    && b.words % 2 == 0 && b.words >= (if b.Fence() then 2 else 4)
    && m[s] / 8 * 8 == 4 * b.words
    && (b.kind == Live || b.Fence() ==> m[s] % 2 == 1)
    && (b.kind == Free ==> m[s] % 2 == 0)
    && m[s + b.words - 1] == 4 * b.words
  }

  /** Head and tail tags of every block agree with the block map. */
  ghost predicate AllTagged(m: seq<int>, blocks: Blocks) {
    forall s :: s in blocks ==> Tagged(m, s, blocks[s])
  }

  /** No two blocks overlap. */
  ghost predicate Apart(blocks: Blocks) {
    forall s, t :: s in blocks && t in blocks && s < t ==> s + blocks[s].words <= t
  }

  ghost predicate Precedes(blocks: Blocks, p: nat, s: nat) {
    p in blocks && p + blocks[p].words == s
  }

  ghost predicate HasPrev(blocks: Blocks, s: nat) {
    exists p :: Precedes(blocks, p, s)
  }

  /** The block after s and the block before it, where s is not the fence at that end. */
  ghost predicate Neighboured(blocks: Blocks, s: nat)
    requires s in blocks
  {
    && (blocks[s].kind != RightFence ==> s + blocks[s].words in blocks && blocks[s + blocks[s].words].kind != LeftFence)
    && (blocks[s].kind != LeftFence ==> HasPrev(blocks, s))
  }

  /** Blocks follow each other without holes from left fence to right fence. */
  ghost predicate Joined(blocks: Blocks) {
    forall s {:trigger Neighboured(blocks, s)} :: s in blocks ==> Neighboured(blocks, s)
  }

  /** No two free blocks touch. */
  ghost predicate Coalesced(blocks: Blocks) {
    forall s :: s in blocks && blocks[s].kind == Free && s + blocks[s].words in blocks ==>
      blocks[s + blocks[s].words].kind != Free
  }

  ghost predicate Sound(m: seq<int>, blocks: Blocks) {
    AllTagged(m, blocks) && Apart(blocks) && Joined(blocks)
  }

  /** The words handed out to callers are the same in both memories. */
  ghost predicate SamePayloads(m: seq<int>, m': seq<int>, blocks: Blocks) {
    |m'| == |m|
    && forall s, i ::
         s in blocks && blocks[s].kind == Live && s < i < s + blocks[s].words - 1 && i < |m| ==> m'[i] == m[i]
  }

  // ---- Free lists ----

  type Lists = seq<seq<nat>>

  function ListIndex(b: Block): nat {
    if b.Payload() < 0 then 0 else GetInsertionIndex(b.Payload())
  }

  /** Every free block is on exactly the list for its size, once, and nothing else is listed. */
  ghost predicate Listed(blocks: Blocks, lists: Lists) {
    && |lists| == TOTAL_NUM_FREE_LISTS
    && (forall i :: 0 <= i < |lists| ==> Distinct(lists[i]))
    && (forall i, s :: 0 <= i < |lists| && s in lists[i] ==>
        s in blocks && blocks[s].kind == Free && ListIndex(blocks[s]) == i)
    && (forall s :: s in blocks && blocks[s].kind == Free ==>
        ListIndex(blocks[s]) < |lists| && s in lists[ListIndex(blocks[s])])
  }

  function NextOf(l: seq<nat>, k: nat): nat {
    if k + 1 < |l| then l[k + 1] else 0
  }

  function PrevOf(l: seq<nat>, k: nat): nat {
    if 0 < k <= |l| then l[k - 1] else 0
  }

  function HeadOf(l: seq<nat>): nat {
    if l == [] then 0 else l[0]
  }

  predicate LinkedAt(m: seq<int>, l: seq<nat>, k: nat)
    requires k < |l|
  {
    l[k] > 0 && l[k] + 4 <= |m| && m[l[k] + 1] == NextOf(l, k) && m[l[k] + 2] == PrevOf(l, k)
  }

  /** The words of a list's blocks chain them in order, both ways. */
  predicate Linked(m: seq<int>, l: seq<nat>) {
    forall k :: 0 <= k < |l| ==> LinkedAt(m, l, k)
  }

  ghost predicate Chained(m: seq<int>, heads: seq<nat>, bits: seq<bool>, lists: Lists) {
    && |heads| == |bits| == |lists|
    && (forall i :: 0 <= i < |lists| ==> Linked(m, lists[i]) && heads[i] == HeadOf(lists[i]))
    && (forall i :: 0 <= i < |lists| ==> (bits[i] <==> lists[i] != []))
  }

  /** Members of the lists lie at least a smallest block apart. */
  ghost predicate Spread(lists: Lists) {
    && (forall i :: 0 <= i < |lists| ==> Distinct(lists[i]))
    && (forall i, j, s, t ::
          0 <= i < |lists| && 0 <= j < |lists| && s in lists[i] && t in lists[j] && (i != j || s != t) ==>
            s + 4 <= t || t + 4 <= s)
  }

  lemma ListsSpread(m: seq<int>, blocks: Blocks, lists: Lists)
    requires Sound(m, blocks) && Listed(blocks, lists)
    ensures Spread(lists)
  {
    forall i, j, s, t | 0 <= i < |lists| && 0 <= j < |lists| && s in lists[i] && t in lists[j] && (i != j || s != t)
      ensures s + 4 <= t || t + 4 <= s
    {
      assert Tagged(m, s, blocks[s]) && Tagged(m, t, blocks[t]);
    }
  }

  // ---- Unlinking ----

  /** The two words RemoveBlock writes: the neighbours' links around the block. */
  function Unlinked(m: seq<int>, l: seq<nat>, k: nat): seq<int>
    requires k < |l| && Linked(m, l)
  {
    assert k > 0 ==> LinkedAt(m, l, k - 1);
    assert k + 1 < |l| ==> LinkedAt(m, l, k + 1);
    var m1 := if k > 0 then m[l[k - 1] + 1 := NextOf(l, k)] else m;
    if k + 1 < |l| then m1[l[k + 1] + 2 := PrevOf(l, k)] else m1
  }

  predicate Far(l: seq<nat>) {
    forall i, j :: 0 <= i < j < |l| ==> l[i] + 4 <= l[j] || l[j] + 4 <= l[i]
  }

  lemma FarPair(l: seq<nat>, i: nat, j: nat)
    requires Far(l) && i < |l| && j < |l| && i != j
    ensures l[i] + 4 <= l[j] || l[j] + 4 <= l[i]
  {
    var a, b := if i < j then i else j, if i < j then j else i;
    assert l[a] + 4 <= l[b] || l[b] + 4 <= l[a];
  }

  lemma WithoutAt(l: seq<nat>, k: nat, j: nat)
    requires k < |l| && j < |l| - 1
    ensures var i := if j < k then j else j + 1;
            Without(l, k)[j] == l[i]
            && NextOf(Without(l, k), j) == (if i + 1 == k then NextOf(l, k) else NextOf(l, i))
            && PrevOf(Without(l, k), j) == (if i == k + 1 then PrevOf(l, k) else PrevOf(l, i))
  {
  }

  lemma UnlinkKeepsAt(m: seq<int>, l: seq<nat>, k: nat, i: nat)
    requires k < |l| && Linked(m, l) && Far(l) && i < |l| && i != k
    ensures var m' := Unlinked(m, l, k);
            |m'| == |m| && l[i] > 0 && l[i] + 4 <= |m'|
            && m'[l[i] + 1] == (if i + 1 == k then NextOf(l, k) else NextOf(l, i))
            && m'[l[i] + 2] == (if i == k + 1 then PrevOf(l, k) else PrevOf(l, i))
  {
    assert LinkedAt(m, l, i);
    if k > 0 {
      assert LinkedAt(m, l, k - 1);
      if i != k - 1 { FarPair(l, i, k - 1); }
    }
    if k + 1 < |l| {
      assert LinkedAt(m, l, k + 1);
      if i != k + 1 { FarPair(l, i, k + 1); }
      if k > 0 { FarPair(l, k - 1, k + 1); }
    }
  }

  lemma UnlinkKeepsChain(m: seq<int>, l: seq<nat>, k: nat)
    requires k < |l| && Linked(m, l) && Far(l)
    ensures Linked(Unlinked(m, l, k), Without(l, k))
  {
    hide Unlinked, Linked, Far;
    var m', l' := Unlinked(m, l, k), Without(l, k);
    forall j | 0 <= j < |l'|
      ensures LinkedAt(m', l', j)
    {
      WithoutAt(l, k, j);
      UnlinkKeepsAt(m, l, k, if j < k then j else j + 1);
    }
    assert Linked(m', l') by { LinkedIf(m', l'); }
  }

  lemma LinkedIf(m: seq<int>, l: seq<nat>)
    requires forall k :: 0 <= k < |l| ==> LinkedAt(m, l, k)
    ensures Linked(m, l)
  {
  }

  /** Words outside the links of a list's blocks may change freely. */
  lemma LinkedFrame(m: seq<int>, m': seq<int>, l: seq<nat>)
    requires Linked(m, l) && |m'| == |m|
    requires forall k :: 0 <= k < |l| && l[k] + 4 <= |m| ==> m'[l[k] + 1] == m[l[k] + 1] && m'[l[k] + 2] == m[l[k] + 2]
    ensures Linked(m', l)
  {
    forall k | 0 <= k < |l|
      ensures LinkedAt(m', l, k)
    {
      assert LinkedAt(m, l, k);
    }
  }

  // ---- Edits that leave the tags alone ----

  /** m' differs from m at most in the link words of blocks that are not given out. */
  ghost predicate OnlyLinks(m: seq<int>, m': seq<int>, blocks: Blocks) {
    && |m'| == |m|
    && forall i :: 0 <= i < |m| && m'[i] != m[i] ==> exists s :: LinkWord(blocks, s, i)
  }

  ghost predicate LinkWord(blocks: Blocks, s: nat, i: int) {
    s in blocks && (blocks[s].kind == Free || blocks[s].kind == Pending) && (i == s + 1 || i == s + 2)
  }

  lemma LinkWordInside(m: seq<int>, blocks: Blocks, s: nat, t: nat, i: int)
    requires AllTagged(m, blocks) && Apart(blocks) && LinkWord(blocks, s, i) && t in blocks
    ensures i != t && i != t + blocks[t].words - 1
    ensures blocks[t].kind == Live ==> !(t < i < t + blocks[t].words - 1)
  {
    assert Tagged(m, s, blocks[s]) && Tagged(m, t, blocks[t]);
    assert s < t ==> s + blocks[s].words <= t;
    assert t < s ==> t + blocks[t].words <= s;
  }

  lemma LinksKeepTags(m: seq<int>, m': seq<int>, blocks: Blocks)
    requires Sound(m, blocks) && OnlyLinks(m, m', blocks)
    ensures Sound(m', blocks) && SamePayloads(m, m', blocks)
  {
    hide Joined, Tagged, Apart;
    forall t | t in blocks
      ensures Tagged(m', t, blocks[t])
    {
      assert Tagged(m, t, blocks[t]);
      TagsFrame(m, m', blocks, t);
    }
    forall t, i | t in blocks && blocks[t].kind == Live && t < i < t + blocks[t].words - 1 && i < |m|
      ensures m'[i] == m[i]
    {
      if m'[i] != m[i] {
        var s :| LinkWord(blocks, s, i);
        LinkWordInside(m, blocks, s, t, i);
      }
    }
  }

  lemma TagsFrame(m: seq<int>, m': seq<int>, blocks: Blocks, t: nat)
    requires AllTagged(m, blocks) && Apart(blocks) && OnlyLinks(m, m', blocks) && t in blocks
    ensures Tagged(m', t, blocks[t])
  {
    hide Apart, LinkWord, AllTagged;
    assert Tagged(m, t, blocks[t]) by { TagOf(m, blocks, t); }
    var e := t + blocks[t].words - 1;
    if m'[t] != m[t] {
      var s :| LinkWord(blocks, s, t);
      LinkWordInside(m, blocks, s, t, t);
    }
    if m'[e] != m[e] {
      var s :| LinkWord(blocks, s, e);
      LinkWordInside(m, blocks, s, t, e);
    }
  }

  lemma TagOf(m: seq<int>, blocks: Blocks, t: nat)
    requires AllTagged(m, blocks) && t in blocks
    ensures Tagged(m, t, blocks[t])
  {
  }

  // ---- Taking a block off its list ----

  /** The block map and lists once block s is in hand. */
  function InHand(blocks: Blocks, s: nat): Blocks
    requires s in blocks
  {
    blocks[s := blocks[s].(kind := Pending)]
  }

  lemma ListedRemove(blocks: Blocks, lists: Lists, idx: nat, k: nat)
    requires Listed(blocks, lists) && idx < |lists| && k < |lists[idx]|
    ensures lists[idx][k] in blocks
    ensures Listed(InHand(blocks, lists[idx][k]), lists[idx := Without(lists[idx], k)])
  {
    var l := lists[idx];
    assert l[k] in l;
    DistinctWithout(l, k);
  }

  lemma SpreadFar(lists: Lists, idx: nat)
    requires Spread(lists) && idx < |lists|
    ensures Far(lists[idx])
  {
    var l := lists[idx];
    forall i, j | 0 <= i < j < |l|
      ensures l[i] + 4 <= l[j] || l[j] + 4 <= l[i]
    {
      assert l[i] in lists[idx] && l[j] in lists[idx] && l[i] != l[j];
    }
  }

  /** Unlinking in one list does not touch the links of another. */
  lemma UnlinkOther(m: seq<int>, lists: Lists, idx: nat, k: nat, j: nat)
    requires Spread(lists) && idx < |lists| && j < |lists| && j != idx && k < |lists[idx]|
    requires Linked(m, lists[idx]) && Linked(m, lists[j])
    ensures Linked(Unlinked(m, lists[idx], k), lists[j])
  {
    var l := lists[idx];
    var m' := Unlinked(m, l, k);
    assert k > 0 ==> l[k - 1] in lists[idx] && LinkedAt(m, l, k - 1);
    assert k + 1 < |l| ==> l[k + 1] in lists[idx] && LinkedAt(m, l, k + 1);
    forall i | 0 <= i < |lists[j]| && lists[j][i] + 4 <= |m|
      ensures m'[lists[j][i] + 1] == m[lists[j][i] + 1] && m'[lists[j][i] + 2] == m[lists[j][i] + 2]
    {
      assert lists[j][i] in lists[j];
    }
    LinkedFrame(m, m', lists[j]);
  }

  /** The head and bitmap after unlinking block k of list idx. */
  function UnlinkedHeads(heads: seq<nat>, idx: nat, l: seq<nat>, k: nat): seq<nat>
    requires idx < |heads|
  {
    if k == 0 then heads[idx := NextOf(l, k)] else heads
  }

  function UnlinkedBits(bits: seq<bool>, idx: nat, l: seq<nat>): seq<bool>
    requires idx < |bits|
  {
    if |l| == 1 then bits[idx := false] else bits
  }

  lemma ChainedRemove(m: seq<int>, heads: seq<nat>, bits: seq<bool>, lists: Lists, idx: nat, k: nat)
    requires Chained(m, heads, bits, lists) && Spread(lists) && idx < |lists| && k < |lists[idx]|
    ensures Chained(Unlinked(m, lists[idx], k), UnlinkedHeads(heads, idx, lists[idx], k),
                    UnlinkedBits(bits, idx, lists[idx]), lists[idx := Without(lists[idx], k)])
  {
    hide Unlinked, Spread, Linked;
    var l := lists[idx];
    var m' := Unlinked(m, l, k);
    SpreadFar(lists, idx);
    UnlinkKeepsChain(m, l, k);
    forall j | 0 <= j < |lists| && j != idx
      ensures Linked(m', lists[j])
    {
      UnlinkOther(m, lists, idx, k, j);
    }
  }

  lemma UnlinkOnlyLinks(m: seq<int>, blocks: Blocks, lists: Lists, idx: nat, k: nat)
    requires Listed(blocks, lists) && idx < |lists| && k < |lists[idx]| && Linked(m, lists[idx])
    ensures OnlyLinks(m, Unlinked(m, lists[idx], k), blocks)
  {
    var l := lists[idx];
    var m' := Unlinked(m, l, k);
    assert k > 0 ==> l[k - 1] in lists[idx] && LinkedAt(m, l, k - 1);
    assert k + 1 < |l| ==> l[k + 1] in lists[idx] && LinkedAt(m, l, k + 1);
    forall i | 0 <= i < |m| && m'[i] != m[i]
      ensures exists s :: LinkWord(blocks, s, i)
    {
      if k > 0 && i == l[k - 1] + 1 {
        assert LinkWord(blocks, l[k - 1], i);
      } else {
        assert LinkWord(blocks, l[k + 1], i);
      }
    }
  }

  // ---- Edits that leave the block boundaries alone ----

  ghost predicate SameShape(blocks: Blocks, after: Blocks) {
    && after.Keys == blocks.Keys
    && forall s :: s in blocks ==>
         after[s].words == blocks[s].words
         && (after[s].kind == LeftFence <==> blocks[s].kind == LeftFence)
         && (after[s].kind == RightFence <==> blocks[s].kind == RightFence)
  }

  /** One block's neighbours. */
  lemma JoinedAt(blocks: Blocks, t: nat)
    requires Joined(blocks) && t in blocks
    ensures blocks[t].kind != RightFence ==>
        t + blocks[t].words in blocks && blocks[t + blocks[t].words].kind != LeftFence
    ensures blocks[t].kind != LeftFence ==> HasPrev(blocks, t)
    ensures Neighboured(blocks, t)
  {
    assert Neighboured(blocks, t);
  }

  lemma JoinedSameShape(blocks: Blocks, after: Blocks)
    requires Joined(blocks) && SameShape(blocks, after)
    ensures Joined(after)
  {
    forall t | t in after
      ensures Neighboured(after, t)
    {
      JoinedAt(blocks, t);
      if after[t].kind != LeftFence {
        var p :| Precedes(blocks, p, t);
        assert Precedes(after, p, t);
      }
    }
  }

  lemma ApartSameShape(blocks: Blocks, after: Blocks)
    requires Apart(blocks) && SameShape(blocks, after)
    ensures Apart(after)
  {
  }

  /** Changing what one block is used for, and the low bits of its head tag with it. */
  lemma Rekind(m: seq<int>, m': seq<int>, blocks: Blocks, s: nat, kind: Kind, head: int)
    requires Sound(m, blocks) && s in blocks && !blocks[s].Fence() && kind != LeftFence && kind != RightFence
    requires s < |m| && m' == m[s := head] && head / 8 == m[s] / 8
    requires kind == Live ==> head % 2 == 1
    requires kind == Free ==> head % 2 == 0
    ensures Sound(m', blocks[s := blocks[s].(kind := kind)])
    ensures SamePayloads(m, m', blocks)
  {
    assert Tagged(m, s, blocks[s]);
    hide Joined, Apart, Tagged;
    var after := blocks[s := blocks[s].(kind := kind)];
    assert SameShape(blocks, after);
    JoinedSameShape(blocks, after);
    ApartSameShape(blocks, after);
    forall t | t in after
      ensures Tagged(m', t, after[t])
    {
      assert Tagged(m, t, blocks[t]);
      if t != s { OtherTag(blocks, s, t); }
      RetagHead(m, m', s, blocks[s], t, blocks[t], head, kind);
    }
    forall t, i | t in blocks && blocks[t].kind == Live && t < i < t + blocks[t].words - 1 && i < |m|
      ensures m'[i] == m[i]
    {
      if t != s { OtherTag(blocks, s, t); }
    }
  }

  lemma RetagHead(m: seq<int>, m': seq<int>, s: nat, a: Block, t: nat, b: Block, head: int, kind: Kind)
    requires Tagged(m, t, b) && s < |m| && m' == m[s := head] && head / 8 == m[s] / 8
    requires kind == Live ==> head % 2 == 1
    requires kind == Free ==> head % 2 == 0
    requires t == s ==> b == a && !a.Fence() && kind != LeftFence && kind != RightFence
    requires t != s ==> s + a.words <= t || t + b.words <= s
    requires a.words > 0
    ensures Tagged(m', t, if t == s then b.(kind := kind) else b)
  {
  }

  lemma OtherTag(blocks: Blocks, s: nat, t: nat)
    requires Apart(blocks) && s in blocks && t in blocks && s != t
    ensures s + blocks[s].words <= t || t + blocks[t].words <= s
  {
  }

  lemma PendingSound(m: seq<int>, blocks: Blocks, s: nat)
    requires Sound(m, blocks) && s in blocks && !blocks[s].Fence()
    ensures Sound(m, InHand(blocks, s))
  {
    hide Joined, Apart;
    assert Tagged(m, s, blocks[s]);
    assert m[s := m[s]] == m;
    Rekind(m, m, blocks, s, Pending, m[s]);
  }

  // ---- Putting a block on its list ----

  function OnList(blocks: Blocks, s: nat): Blocks
    requires s in blocks
  {
    blocks[s := blocks[s].(kind := Free)]
  }

  lemma ListedPush(blocks: Blocks, lists: Lists, s: nat)
    requires Listed(blocks, lists) && s in blocks && blocks[s].kind == Pending && ListIndex(blocks[s]) < |lists|
    ensures var idx := ListIndex(blocks[s]);
            Listed(OnList(blocks, s), lists[idx := [s] + lists[idx]])
  {
    hide ListIndex;
    var idx := ListIndex(blocks[s]);
    var after := OnList(blocks, s);
    var lists' := lists[idx := [s] + lists[idx]];
    assert s !in lists[idx];
    assert Distinct([s] + lists[idx]);
    forall t | t in after && after[t].kind == Free
      ensures ListIndex(after[t]) < |lists'| && t in lists'[ListIndex(after[t])]
    {
      if t == s {
        assert after[t] == blocks[s].(kind := Free);
        assert ListIndex(after[t]) == idx by { IndexIgnoresKind(blocks[s]); }
        assert lists'[idx][0] == s;
      }
    }
    forall i, t | 0 <= i < |lists'| && t in lists'[i]
      ensures t in after && after[t].kind == Free && ListIndex(after[t]) == i
    {
      if t == s {
        IndexIgnoresKind(blocks[s]);
      }
    }
  }

  lemma IndexIgnoresKind(b: Block)
    ensures ListIndex(b.(kind := Free)) == ListIndex(b)
  {
  }

  /** The words AddBlock writes to put block s at the front of list l. */
  function PushedLinks(m: seq<int>, l: seq<nat>, s: nat): (m': seq<int>)
    requires 0 < s && s + 4 <= |m| && Linked(m, l)
    ensures |m'| == |m|
  {
    assert l != [] ==> LinkedAt(m, l, 0);
    var m1 := m[s + 2 := 0][s + 1 := HeadOf(l)];
    if l == [] then m1 else m1[l[0] + 2 := s]
  }

  ghost predicate FarFrom(lists: Lists, s: nat) {
    forall j, t :: 0 <= j < |lists| && t in lists[j] ==> s + 4 <= t || t + 4 <= s
  }

  lemma PendingFar(m: seq<int>, blocks: Blocks, lists: Lists, s: nat)
    requires Sound(m, blocks) && Listed(blocks, lists) && s in blocks && blocks[s].kind == Pending
    ensures FarFrom(lists, s) && 0 < s && s + 4 <= |m|
  {
    assert Tagged(m, s, blocks[s]);
    forall j, t | 0 <= j < |lists| && t in lists[j]
      ensures s + 4 <= t || t + 4 <= s
    {
      assert Tagged(m, t, blocks[t]);
      OtherTag(blocks, s, t);
    }
  }

  lemma PushKeepsChain(m: seq<int>, lists: Lists, idx: nat, s: nat)
    requires idx < |lists| && Linked(m, lists[idx]) && Spread(lists) && FarFrom(lists, s)
    requires 0 < s && s + 4 <= |m|
    ensures Linked(PushedLinks(m, lists[idx], s), [s] + lists[idx])
  {
    var l := lists[idx];
    SpreadFar(lists, idx);
    assert l != [] ==> l[0] in lists[idx] && LinkedAt(m, l, 0);
    var m', l' := PushedLinks(m, l, s), [s] + l;
    forall k | 0 <= k < |l'|
      ensures LinkedAt(m', l', k)
    {
      if k > 0 {
        assert l'[k] == l[k - 1] && l[k - 1] in lists[idx] && LinkedAt(m, l, k - 1);
        if k > 1 { FarPair(l, 0, k - 1); }
      }
    }
  }

  lemma PushOther(m: seq<int>, lists: Lists, idx: nat, s: nat, j: nat)
    requires idx < |lists| && j < |lists| && j != idx && Linked(m, lists[idx]) && Linked(m, lists[j])
    requires Spread(lists) && FarFrom(lists, s) && 0 < s && s + 4 <= |m|
    ensures Linked(PushedLinks(m, lists[idx], s), lists[j])
  {
    var l := lists[idx];
    var m' := PushedLinks(m, l, s);
    assert l != [] ==> l[0] in lists[idx] && LinkedAt(m, l, 0);
    forall i | 0 <= i < |lists[j]| && lists[j][i] + 4 <= |m|
      ensures m'[lists[j][i] + 1] == m[lists[j][i] + 1] && m'[lists[j][i] + 2] == m[lists[j][i] + 2]
    {
      assert lists[j][i] in lists[j];
    }
    LinkedFrame(m, m', lists[j]);
  }

  lemma ChainedPush(m: seq<int>, heads: seq<nat>, bits: seq<bool>, lists: Lists, idx: nat, s: nat)
    requires Chained(m, heads, bits, lists) && Spread(lists) && FarFrom(lists, s) && idx < |lists|
    requires 0 < s && s + 4 <= |m|
    ensures Chained(PushedLinks(m, lists[idx], s), heads[idx := s], bits[idx := true],
                    lists[idx := [s] + lists[idx]])
  {
    hide PushedLinks, Spread, Linked, FarFrom;
    PushKeepsChain(m, lists, idx, s);
    forall j | 0 <= j < |lists| && j != idx
      ensures Linked(PushedLinks(m, lists[idx], s), lists[j])
    {
      PushOther(m, lists, idx, s, j);
    }
  }

  lemma PushOnlyLinks(m: seq<int>, blocks: Blocks, lists: Lists, idx: nat, s: nat)
    requires Listed(blocks, lists) && idx < |lists| && Linked(m, lists[idx])
    requires s in blocks && blocks[s].kind == Pending && 0 < s && s + 4 <= |m|
    ensures OnlyLinks(m, PushedLinks(m, lists[idx], s), blocks)
  {
    var l := lists[idx];
    var m' := PushedLinks(m, l, s);
    assert l != [] ==> l[0] in lists[idx] && LinkedAt(m, l, 0);
    forall i | 0 <= i < |m| && m'[i] != m[i]
      ensures exists t :: LinkWord(blocks, t, i)
    {
      if i == s + 1 || i == s + 2 {
        assert LinkWord(blocks, s, i);
      } else {
        assert LinkWord(blocks, l[0], i);
      }
    }
  }

  /** Changing words that are no list member's links leaves all lists chained. */
  lemma ChainedFrame(m: seq<int>, m': seq<int>, heads: seq<nat>, bits: seq<bool>, lists: Lists)
    requires Chained(m, heads, bits, lists) && |m'| == |m|
    requires forall j, t :: 0 <= j < |lists| && t in lists[j] && t + 4 <= |m| ==>
        m'[t + 1] == m[t + 1] && m'[t + 2] == m[t + 2]
    ensures Chained(m', heads, bits, lists)
  {
    hide Linked;
    forall j | 0 <= j < |lists|
      ensures Linked(m', lists[j])
    {
      forall i | 0 <= i < |lists[j]| && lists[j][i] + 4 <= |m|
        ensures m'[lists[j][i] + 1] == m[lists[j][i] + 1] && m'[lists[j][i] + 2] == m[lists[j][i] + 2]
      {
        assert lists[j][i] in lists[j];
      }
      LinkedFrame(m, m', lists[j]);
    }
  }

  // ---- Moving the boundaries ----

  /** The tags SetSizeTags writes: the size at both ends, the low bits of the head as given. */
  function Retagged(m: seq<int>, s: nat, words: nat, low: nat): (m': seq<int>)
    requires words >= 2 && s + words <= |m| && low < 8
    ensures |m'| == |m|
  {
    m[s := 4 * words + low][s + words - 1 := 4 * words]
  }

  predicate Inner(p: nat, words: nat, t: nat) {
    p < t < p + words
  }

  /** The blocks after everything from p up to p + words has become one block in hand. */
  function Merged(blocks: Blocks, p: nat, words: nat): Blocks
    requires p in blocks
  {
    (map t | t in blocks && !Inner(p, words, t) :: blocks[t])[p := Block(words, Pending, blocks[p].chunk)]
  }

  ghost predicate Mergeable(m: seq<int>, blocks: Blocks, p: nat, words: nat) {
    && Sound(m, blocks) && p in blocks && blocks[p].kind == Pending && words >= 4 && words % 2 == 0
    && p + words in blocks && blocks[p + words].kind != LeftFence
    && forall t :: t in blocks && Inner(p, words, t) ==> blocks[t].kind == Pending
  }

  lemma MergeOutside(m: seq<int>, blocks: Blocks, p: nat, words: nat, t: nat)
    requires Mergeable(m, blocks, p, words) && t in blocks && !Inner(p, words, t) && t != p
    ensures t + blocks[t].words <= p || p + words <= t
    ensures p + words <= |m| && p > 0
  {
    hide Joined;
    assert Tagged(m, p, blocks[p]) && Tagged(m, t, blocks[t]) && Tagged(m, p + words, blocks[p + words]);
    OtherTag(blocks, p, t);
    assert blocks[p].words <= words by { OtherTag(blocks, p, p + words); }
  }

  lemma MergeTagged(m: seq<int>, blocks: Blocks, p: nat, words: nat, low: nat)
    requires Mergeable(m, blocks, p, words) && low < 8 && p + words <= |m| && p > 0 && words >= 4 && words % 2 == 0
    requires p in blocks
    ensures AllTagged(Retagged(m, p, words, low), Merged(blocks, p, words))
  {
    hide Joined, Apart, Mergeable;
    var after := Merged(blocks, p, words);
    var m' := Retagged(m, p, words, low);
    forall t | t in after
      ensures Tagged(m', t, after[t])
    {
      if t != p {
        MergeOutside(m, blocks, p, words, t);
        assert Tagged(m, t, blocks[t]) by { MergeTag(m, blocks, p, words, t); }
      }
    }
  }

  lemma MergeTag(m: seq<int>, blocks: Blocks, p: nat, words: nat, t: nat)
    requires Mergeable(m, blocks, p, words) && t in blocks
    ensures Tagged(m, t, blocks[t])
  {
  }

  lemma MergeApart(m: seq<int>, blocks: Blocks, p: nat, words: nat)
    requires Mergeable(m, blocks, p, words)
    ensures Apart(Merged(blocks, p, words))
  {
    hide Joined, Tagged;
    var after := Merged(blocks, p, words);
    forall s, t | s in after && t in after && s < t
      ensures s + after[s].words <= t
    {
      if s != p { MergeOutside(m, blocks, p, words, s); }
      if t != p { MergeOutside(m, blocks, p, words, t); }
    }
  }

  lemma MergeJoined(m: seq<int>, blocks: Blocks, p: nat, words: nat)
    requires Mergeable(m, blocks, p, words)
    ensures Joined(Merged(blocks, p, words))
  {
    assert p in blocks;
    hide Mergeable, Merged;
    var after := Merged(blocks, p, words);
    forall t | t in after
      ensures Neighboured(after, t)
    {
      MergeNextOk(m, blocks, p, words, t);
      MergePrevOk(m, blocks, p, words, t);
    }
  }

  /** One block of the merged map. */
  lemma MergedAt(blocks: Blocks, p: nat, words: nat, t: nat)
    requires p in blocks
    ensures p in Merged(blocks, p, words) && Merged(blocks, p, words)[p] == Block(words, Pending, blocks[p].chunk)
    ensures t in Merged(blocks, p, words) && t != p ==>
              t in blocks && !Inner(p, words, t) && Merged(blocks, p, words)[t] == blocks[t]
    ensures t in blocks && !Inner(p, words, t) ==> t in Merged(blocks, p, words)
  {
  }

  lemma MergeableFacts(m: seq<int>, blocks: Blocks, p: nat, words: nat)
    requires Mergeable(m, blocks, p, words)
    ensures p in blocks && p + words in blocks && blocks[p + words].kind != LeftFence && Joined(blocks)
  {
    hide Joined;
  }

  lemma NotInner(p: nat, words: nat, t: nat)
    requires t <= p || p + words <= t
    ensures !Inner(p, words, t)
  {
  }

  lemma MergeNextOk(m: seq<int>, blocks: Blocks, p: nat, words: nat, t: nat)
    requires Mergeable(m, blocks, p, words) && t in Merged(blocks, p, words)
    ensures var after := Merged(blocks, p, words);
            after[t].kind != RightFence ==> t + after[t].words in after && after[t + after[t].words].kind != LeftFence
  {
    hide *;
    MergeableFacts(m, blocks, p, words);
    MergedAt(blocks, p, words, t);
    if t == p {
      NotInner(p, words, p + words);
      MergedAt(blocks, p, words, p + words);
    } else {
      MergeOutside(m, blocks, p, words, t);
      JoinedAt(blocks, t);
      NotInner(p, words, t + blocks[t].words);
      MergedAt(blocks, p, words, t + blocks[t].words);
    }
  }

  lemma MergePrevOk(m: seq<int>, blocks: Blocks, p: nat, words: nat, t: nat)
    requires Mergeable(m, blocks, p, words) && t in Merged(blocks, p, words)
    ensures Merged(blocks, p, words)[t].kind != LeftFence ==> HasPrev(Merged(blocks, p, words), t)
  {
    assert p in blocks && Joined(blocks) && blocks[p].kind == Pending;
    hide Mergeable, Merged, Joined;
    var after := Merged(blocks, p, words);
    MergedAt(blocks, p, words, t);
    if after[t].kind != LeftFence {
      if t == p + words {
        assert Precedes(after, p, t);
      } else {
        JoinedAt(blocks, t);
        var q :| Precedes(blocks, q, t);
        MergePrev(m, blocks, p, words, q, t);
        MergedAt(blocks, p, words, q);
        assert Precedes(after, q, t);
      }
    }
  }

  lemma MergePrev(m: seq<int>, blocks: Blocks, p: nat, words: nat, q: nat, t: nat)
    requires Mergeable(m, blocks, p, words) && Precedes(blocks, q, t) && t in blocks && !Inner(p, words, t)
        && t != p + words
    ensures !Inner(p, words, q) && q != p
  {
    hide Joined;
    assert Tagged(m, q, blocks[q]) && Tagged(m, p, blocks[p]);
    if t != p { MergeOutside(m, blocks, p, words, t); }
  }

  /** Coalescing: the tags of the joined block are written over its parts. */
  lemma MergeKeeps(m: seq<int>, blocks: Blocks, p: nat, words: nat, low: nat)
    requires Mergeable(m, blocks, p, words) && low < 8
    ensures p > 0 && p + words <= |m|
    ensures Sound(Retagged(m, p, words, low), Merged(blocks, p, words))
    ensures SamePayloads(m, Retagged(m, p, words, low), blocks)
  {
    hide Joined, Apart;
    assert Tagged(m, p, blocks[p]) && Tagged(m, p + words, blocks[p + words]);
    MergeTagged(m, blocks, p, words, low);
    MergeApart(m, blocks, p, words);
    MergeJoined(m, blocks, p, words);
    forall t, i | t in blocks && blocks[t].kind == Live && t < i < t + blocks[t].words - 1 && i < |m|
      ensures Retagged(m, p, words, low)[i] == m[i]
    {
      MergeOutside(m, blocks, p, words, t);
    }
  }

  /** The blocks after block s in hand has been cut: its first `first` words stay in hand. */
  function Cut(blocks: Blocks, s: nat, first: nat): Blocks
    requires s in blocks && first <= blocks[s].words
  {
    blocks[s := Block(first, Pending, blocks[s].chunk)]
          [s + first := Block(blocks[s].words - first, Live, blocks[s].chunk)]
  }

  ghost predicate Cuttable(m: seq<int>, blocks: Blocks, s: nat, first: nat) {
    && Sound(m, blocks) && s in blocks && blocks[s].kind == Pending
    && first >= 4 && first % 2 == 0 && first + 4 <= blocks[s].words
  }

  lemma CutNew(m: seq<int>, blocks: Blocks, s: nat, first: nat)
    requires Cuttable(m, blocks, s, first)
    ensures s + first !in blocks && s > 0 && s + blocks[s].words <= |m| && blocks[s].words % 2 == 0
  {
    hide Joined;
    assert Tagged(m, s, blocks[s]);
  }

  lemma CutTagged(m: seq<int>, blocks: Blocks, s: nat, first: nat, low: nat, low': nat)
    requires Cuttable(m, blocks, s, first) && low < 8 && low' < 8 && low' % 2 == 1
    requires s > 0 && s + blocks[s].words <= |m| && blocks[s].words % 2 == 0
    ensures AllTagged(Retagged(Retagged(m, s, first, low), s + first, blocks[s].words - first, low'),
        Cut(blocks, s, first))
  {
    hide Joined, Apart, Retagged, Tagged;
    var after := Cut(blocks, s, first);
    var m' := Retagged(Retagged(m, s, first, low), s + first, blocks[s].words - first, low');
    CutParts(m, s, first, blocks[s].words, low, low', blocks[s].chunk);
    forall t | t in after
      ensures Tagged(m', t, after[t])
    {
      if t != s && t != s + first {
        assert Tagged(m, t, blocks[t]);
        OtherTag(blocks, s, t);
        CutOther(m, s, first, blocks[s].words, low, low', t, blocks[t]);
      }
    }
  }

  lemma CutParts(m: seq<int>, s: nat, first: nat, words: nat, low: nat, low': nat, c: nat)
    requires first >= 4 && first % 2 == 0 && first + 4 <= words && words % 2 == 0 && s > 0 && s + words <= |m|
    requires low < 8 && low' < 8 && low' % 2 == 1
    ensures var m' := Retagged(Retagged(m, s, first, low), s + first, words - first, low');
            Tagged(m', s, Block(first, Pending, c)) && Tagged(m', s + first, Block(words - first, Live, c))
  {
    hide Tagged;
    RetaggedAt(m, s, first, low, Block(first, Pending, c));
    var m1 := Retagged(m, s, first, low);
    RetaggedAt(m1, s + first, words - first, low', Block(words - first, Live, c));
    RetaggedElsewhere(m1, s + first, words - first, low', s, Block(first, Pending, c));
  }

  lemma RetaggedAt(m: seq<int>, s: nat, words: nat, low: nat, b: Block)
    requires words >= 2 && words % 2 == 0 && s > 0 && s + words <= |m| && low < 8 && b.words == words
    requires b.Fence() || words >= 4
    requires b.kind == Live || b.Fence() ==> low % 2 == 1
    requires b.kind == Free ==> low % 2 == 0
    ensures Tagged(Retagged(m, s, words, low), s, b)
  {
    TagSize(words, low);
    Eighths(words / 2, low);
    assert 4 * words + low == 8 * (words / 2) + low;
  }

  lemma Eighths(q: int, r: int)
    requires 0 <= r < 8
    ensures (8 * q + r) / 8 == q && (8 * q + r) % 2 == r % 2
  {
  }

  lemma TagSize(words: nat, low: nat)
    requires words % 2 == 0 && low < 8
    ensures (4 * words + low) / 8 * 8 == 4 * words
  {
    Eighths(words / 2, low);
  }

  lemma RetaggedElsewhere(m: seq<int>, s: nat, words: nat, low: nat, t: nat, b: Block)
    requires words >= 2 && s + words <= |m| && low < 8
    requires Tagged(m, t, b) && (t + b.words <= s || s + words <= t)
    ensures Tagged(Retagged(m, s, words, low), t, b)
  {
  }

  lemma CutOther(m: seq<int>, s: nat, first: nat, words: nat, low: nat, low': nat, t: nat, b: Block)
    requires first >= 4 && first + 4 <= words && s + words <= |m| && low < 8 && low' < 8
    requires Tagged(m, t, b) && (t + b.words <= s || s + words <= t)
    ensures Tagged(Retagged(Retagged(m, s, first, low), s + first, words - first, low'), t, b)
  {
  }

  lemma CutApart(m: seq<int>, blocks: Blocks, s: nat, first: nat)
    requires Cuttable(m, blocks, s, first)
    ensures Apart(Cut(blocks, s, first))
  {
    hide Joined, Tagged;
    var after := Cut(blocks, s, first);
    forall a, b | a in after && b in after && a < b
      ensures a + after[a].words <= b
    {
      if a != s && a != s + first { OtherTag(blocks, s, a); assert Tagged(m, a, blocks[a]); }
      if b != s && b != s + first { OtherTag(blocks, s, b); }
    }
  }

  /** One block of the map after a cut. */
  lemma CutAt(blocks: Blocks, s: nat, first: nat, t: nat)
    requires s in blocks && 0 < first <= blocks[s].words && s + first !in blocks
    ensures var after := Cut(blocks, s, first);
            && s in after && after[s] == Block(first, Pending, blocks[s].chunk)
            && s + first in after && after[s + first] == Block(blocks[s].words - first, Live, blocks[s].chunk)
            && (t != s && t != s + first ==> (t in after <==> t in blocks) && (t in blocks ==> after[t] == blocks[t]))
  {
  }

  lemma CutJoined(m: seq<int>, blocks: Blocks, s: nat, first: nat)
    requires Cuttable(m, blocks, s, first)
    ensures Joined(Cut(blocks, s, first))
  {
    CutNew(m, blocks, s, first);
    assert Joined(blocks) && s in blocks && 0 < first <= blocks[s].words && blocks[s].kind == Pending;
    hide Cuttable, Cut, Joined;
    var after := Cut(blocks, s, first);
    CutAt(blocks, s, first, s);
    JoinedAt(blocks, s);
    CutAt(blocks, s, first, s + blocks[s].words);
    forall t | t in after
      ensures Neighboured(after, t)
    {
      CutAt(blocks, s, first, t);
      if t == s + first {
        assert Precedes(after, s, t);
      } else {
        CutNeighbours(blocks, s, first, t);
      }
    }
    JoinedIf(after);
  }

  lemma JoinedIf(blocks: Blocks)
    requires forall t {:trigger Neighboured(blocks, t)} :: t in blocks ==> Neighboured(blocks, t)
    ensures Joined(blocks)
  {
  }

  lemma CutNeighbours(blocks: Blocks, s: nat, first: nat, t: nat)
    requires Joined(blocks) && s in blocks && 0 < first <= blocks[s].words && s + first !in blocks
    requires t in blocks && blocks[s].kind == Pending
    ensures t in Cut(blocks, s, first) && Neighboured(Cut(blocks, s, first), t)
  {
    hide Joined, Cut;
    var after := Cut(blocks, s, first);
    CutAt(blocks, s, first, t);
    JoinedAt(blocks, t);
    if t != s {
      CutAt(blocks, s, first, t + blocks[t].words);
    }
    if blocks[t].kind != LeftFence {
      var q :| Precedes(blocks, q, t);
      CutAt(blocks, s, first, q);
      if q == s {
        assert Precedes(after, s + first, t);
      } else {
        assert Precedes(after, q, t);
      }
    }
  }

  /** Splitting: both parts get their tags, the second is given out. */
  lemma CutKeeps(m: seq<int>, blocks: Blocks, s: nat, first: nat, low: nat, low': nat)
    requires Cuttable(m, blocks, s, first) && low < 8 && low' < 8 && low' % 2 == 1
    ensures s + blocks[s].words <= |m|
    ensures var m' := Retagged(Retagged(m, s, first, low), s + first, blocks[s].words - first, low');
            Sound(m', Cut(blocks, s, first)) && SamePayloads(m, m', blocks)
  {
    hide Joined, Apart;
    CutNew(m, blocks, s, first);
    CutTagged(m, blocks, s, first, low, low');
    CutApart(m, blocks, s, first);
    CutJoined(m, blocks, s, first);
    var m' := Retagged(Retagged(m, s, first, low), s + first, blocks[s].words - first, low');
    forall t, i | t in blocks && blocks[t].kind == Live && t < i < t + blocks[t].words - 1 && i < |m|
      ensures m'[i] == m[i]
    {
      assert Tagged(m, t, blocks[t]);
      OtherTag(blocks, s, t);
    }
  }

  // ---- Chunks ----

  type Chunks = map<nat, nat>

  /** Block s lies in its chunk, as a fence of it or between the fences. */
  ghost predicate Housed1(chunks: Chunks, s: nat, b: Block) {
    && b.chunk in chunks && b.chunk <= s && s + b.words <= b.chunk + chunks[b.chunk]
    && (b.kind == LeftFence ==> s == b.chunk)
    && (b.kind == RightFence ==> s + b.words == b.chunk + chunks[b.chunk])
  }

  ghost predicate Disjoint(chunks: Chunks) {
    forall c, d :: c in chunks && d in chunks && c < d ==> c + chunks[c] <= d
  }

  /** Every chunk starts with its left fence, chunks do not overlap, and every block lies in one. */
  ghost predicate Housed(blocks: Blocks, chunks: Chunks) {
    && Disjoint(chunks)
    && (forall s :: s in blocks ==> Housed1(chunks, s, blocks[s]))
    && (forall c :: c in chunks ==> c in blocks && blocks[c].kind == LeftFence)
  }

  ghost predicate Covered(blocks: Blocks, s: nat, x: int) {
    s in blocks && s <= x < s + blocks[s].words
  }

  /** Each chunk is tiled: every word of it belongs to exactly one block, which lies in the chunk. */
  lemma {:induction false} ChunkTiled(m: seq<int>, blocks: Blocks, chunks: Chunks, c: nat, x: nat) returns (s: nat)
    requires Sound(m, blocks) && Housed(blocks, chunks) && c in chunks && c <= x < c + chunks[c]
    ensures Covered(blocks, s, x) && blocks[s].chunk == c
    ensures forall t :: Covered(blocks, t, x) ==> t == s
    decreases x - c
  {
    hide Tagged, Joined, Apart;
    assert Housed1(chunks, c, blocks[c]);
    if x == c {
      s := c;
      assert Tagged(m, c, blocks[c]);
      TaggedLength(m, c, blocks[c]);
    } else {
      s := ChunkTiled(m, blocks, chunks, c, x - 1);
      assert Housed1(chunks, s, blocks[s]);
      if s + blocks[s].words == x {
        s := NextInChunk(m, blocks, chunks, s);
      }
    }
    forall t | Covered(blocks, t, x)
      ensures t == s
    {
      if t != s { OtherTag(blocks, s, t); }
    }
  }

  lemma TaggedLength(m: seq<int>, s: nat, b: Block)
    requires Tagged(m, s, b)
    ensures b.words >= 2
  {
  }

  lemma NextInChunk(m: seq<int>, blocks: Blocks, chunks: Chunks, s: nat) returns (n: nat)
    requires Sound(m, blocks) && Housed(blocks, chunks) && s in blocks && blocks[s].chunk in chunks
    requires s + blocks[s].words < blocks[s].chunk + chunks[blocks[s].chunk]
    ensures n == s + blocks[s].words && n in blocks && blocks[n].chunk == blocks[s].chunk && blocks[n].words >= 2
  {
    hide Apart;
    n := s + blocks[s].words;
    JoinedAt(blocks, s);
    assert Housed1(chunks, s, blocks[s]);
    assert Tagged(m, n, blocks[n]) && Housed1(chunks, n, blocks[n]);
  }

  lemma HousedRekind(blocks: Blocks, chunks: Chunks, s: nat, kind: Kind)
    requires Housed(blocks, chunks) && s in blocks && !blocks[s].Fence() && kind != LeftFence && kind != RightFence
    ensures Housed(blocks[s := blocks[s].(kind := kind)], chunks)
  {
    assert Housed1(chunks, s, blocks[s]);
  }

  lemma HousedMerge(m: seq<int>, blocks: Blocks, chunks: Chunks, p: nat, words: nat)
    requires Housed(blocks, chunks) && Mergeable(m, blocks, p, words)
    ensures Housed(Merged(blocks, p, words), chunks)
  {
    assert p in blocks;
    MergeHoused(m, blocks, chunks, p, words);
    MergeKeepsFences(m, blocks, chunks, p, words);
    hide Mergeable, Merged, Housed1;
    var after := Merged(blocks, p, words);
    forall s | s in after
      ensures Housed1(chunks, s, after[s])
    {
      MergedAt(blocks, p, words, s);
    }
  }

  lemma MergeKeepsFences(m: seq<int>, blocks: Blocks, chunks: Chunks, p: nat, words: nat)
    requires Housed(blocks, chunks) && Mergeable(m, blocks, p, words)
    ensures p in blocks && forall c :: c in chunks ==>
        c in Merged(blocks, p, words) && Merged(blocks, p, words)[c].kind == LeftFence
  {
    hide Sound, Disjoint, Housed1, Merged;
    forall c | c in chunks
      ensures c in Merged(blocks, p, words) && Merged(blocks, p, words)[c].kind == LeftFence
    {
      MergedAt(blocks, p, words, c);
    }
  }

  lemma MergeHoused(m: seq<int>, blocks: Blocks, chunks: Chunks, p: nat, words: nat)
    requires Housed(blocks, chunks) && Mergeable(m, blocks, p, words)
    ensures Housed1(chunks, p, Block(words, Pending, blocks[p].chunk))
  {
    hide Joined, Apart;
    var e := p + words;
    assert Housed1(chunks, p, blocks[p]) && Housed1(chunks, e, blocks[e]);
    assert Tagged(m, p, blocks[p]) && Tagged(m, e, blocks[e]);
    var c, d := blocks[p].chunk, blocks[e].chunk;
    if c != d {
      MergeOneChunk(m, blocks, chunks, p, words);
    }
  }

  /** The end of a merge cannot be in another chunk: that chunk's left fence would be inside. */
  lemma MergeOneChunk(m: seq<int>, blocks: Blocks, chunks: Chunks, p: nat, words: nat)
    requires Housed(blocks, chunks) && Mergeable(m, blocks, p, words)
    ensures blocks[p].chunk == blocks[p + words].chunk
  {
    hide Joined, Apart;
    var e := p + words;
    assert Housed1(chunks, p, blocks[p]) && Housed1(chunks, e, blocks[e]);
    assert Tagged(m, p, blocks[p]) && Tagged(m, e, blocks[e]);
    var c, d := blocks[p].chunk, blocks[e].chunk;
    assert d in blocks && blocks[d].kind == LeftFence;
    assert !Inner(p, words, d);
  }

  lemma HousedCut(m: seq<int>, blocks: Blocks, chunks: Chunks, s: nat, first: nat)
    requires Housed(blocks, chunks) && Cuttable(m, blocks, s, first)
    ensures Housed(Cut(blocks, s, first), chunks)
  {
    hide Joined, Tagged, Apart;
    CutNew(m, blocks, s, first);
    assert Housed1(chunks, s, blocks[s]);
  }

  // ---- A chunk from the system ----

  ghost predicate Unused(chunks: Chunks, base: nat, words: nat) {
    forall c :: c in chunks ==> c + chunks[c] <= base || base + words <= c
  }

  function Grown(blocks: Blocks, base: nat, words: nat): Blocks
    requires words >= 8
  {
    blocks[base := Block(2, LeftFence, base)]
          [base + words - 2 := Block(2, RightFence, base)]
          [base + 2 := Block(words - 4, Pending, base)]
  }

  lemma GrownIs(blocks: Blocks, base: nat, words: nat)
    requires words >= 8
    ensures Grown(blocks, base, words) ==
            blocks[base := Block(2, LeftFence, base)][base + words - 2 := Block(2, RightFence, base)]
            [base + 2 := Block(words - 4, Pending, base)]
  {
  }

  /** The tags RequestBlock writes. */
  function GrownTags(m: seq<int>, base: nat, words: nat, low1: nat, low2: nat, low3: nat): (m': seq<int>)
    requires words >= 8 && base + words <= |m| && low1 < 8 && low2 < 8 && low3 < 8
    ensures |m'| == |m|
  {
    Retagged(Retagged(Retagged(m, base, 2, low1), base + 2, words - 4, low2), base + words - 2, 2, low3)
  }

  ghost predicate Growable(m: seq<int>, blocks: Blocks, chunks: Chunks, base: nat, words: nat) {
    && Sound(m, blocks) && Housed(blocks, chunks) && Unused(chunks, base, words)
    && words >= 8 && words % 2 == 0 && base > 0 && base + words <= |m|
  }

  lemma GrowOutside(m: seq<int>, blocks: Blocks, chunks: Chunks, base: nat, words: nat, t: nat)
    requires Growable(m, blocks, chunks, base, words) && t in blocks
    ensures t + blocks[t].words <= base || base + words <= t
  {
    assert Housed1(chunks, t, blocks[t]);
  }

  lemma GrowTagged(m: seq<int>, blocks: Blocks, chunks: Chunks, base: nat, words: nat, low1: nat, low2: nat, low3: nat)
    requires Growable(m, blocks, chunks, base, words)
    requires low1 < 8 && low2 < 8 && low3 < 8 && low1 % 2 == 1 && low3 % 2 == 1
    ensures AllTagged(GrownTags(m, base, words, low1, low2, low3), Grown(blocks, base, words))
  {
    hide Joined, Apart, Housed, Tagged, GrownTags;
    var after, m' := Grown(blocks, base, words), GrownTags(m, base, words, low1, low2, low3);
    GrowParts(m, base, words, low1, low2, low3);
    forall t | t in after
      ensures Tagged(m', t, after[t])
    {
      if t != base && t != base + 2 && t != base + words - 2 {
        assert Tagged(m, t, blocks[t]);
        GrowOutside(m, blocks, chunks, base, words, t);
        GrowOther(m, base, words, low1, low2, low3, t, blocks[t]);
      }
    }
  }

  lemma GrowParts(m: seq<int>, base: nat, words: nat, low1: nat, low2: nat, low3: nat)
    requires words >= 8 && words % 2 == 0 && base > 0 && base + words <= |m|
    requires low1 < 8 && low2 < 8 && low3 < 8 && low1 % 2 == 1 && low3 % 2 == 1
    ensures var m' := GrownTags(m, base, words, low1, low2, low3);
            Tagged(m', base, Block(2, LeftFence, base)) && Tagged(m', base + 2, Block(words - 4, Pending, base))
            && Tagged(m', base + words - 2, Block(2, RightFence, base))
  {
  }

  lemma GrowOther(m: seq<int>, base: nat, words: nat, low1: nat, low2: nat, low3: nat, t: nat, b: Block)
    requires words >= 8 && base + words <= |m| && low1 < 8 && low2 < 8 && low3 < 8
    requires Tagged(m, t, b) && (t + b.words <= base || base + words <= t)
    ensures Tagged(GrownTags(m, base, words, low1, low2, low3), t, b)
  {
  }

  lemma GrowApart(m: seq<int>, blocks: Blocks, chunks: Chunks, base: nat, words: nat)
    requires Growable(m, blocks, chunks, base, words)
    ensures Apart(Grown(blocks, base, words))
  {
    hide Joined, Housed, Tagged;
    var after := Grown(blocks, base, words);
    forall s, t | s in after && t in after && s < t
      ensures s + after[s].words <= t
    {
      if s in blocks { GrowOutside(m, blocks, chunks, base, words, s); assert Tagged(m, s, blocks[s]); }
      if t in blocks { GrowOutside(m, blocks, chunks, base, words, t); assert Tagged(m, t, blocks[t]); }
    }
  }

  lemma GrownSame(m: seq<int>, blocks: Blocks, chunks: Chunks, base: nat, words: nat)
    requires Growable(m, blocks, chunks, base, words)
    ensures forall t :: t in blocks ==> t in Grown(blocks, base, words) && Grown(blocks, base, words)[t] == blocks[t]
    ensures var after := Grown(blocks, base, words);
            && words >= 8 && base in after && after[base] == Block(2, LeftFence, base)
            && base + words - 2 in after && after[base + words - 2] == Block(2, RightFence, base)
            && base + 2 in after && after[base + 2] == Block(words - 4, Pending, base)
            && forall t :: t in after ==> t in blocks || t == base || t == base + 2 || t == base + words - 2
  {
    hide Sound, Housed;
    forall t | t in blocks
      ensures t in Grown(blocks, base, words) && Grown(blocks, base, words)[t] == blocks[t]
    {
      GrownAt(m, blocks, chunks, base, words, t);
    }
  }

  lemma GrowJoined(m: seq<int>, blocks: Blocks, chunks: Chunks, base: nat, words: nat)
    requires Growable(m, blocks, chunks, base, words)
    ensures Joined(Grown(blocks, base, words))
  {
    assert Joined(blocks);
    hide Growable, Joined, Neighboured, Precedes, HasPrev;
    GrownSame(m, blocks, chunks, base, words);
    NewNeighbours(Grown(blocks, base, words), base, words);
    hide Grown;
    var after := Grown(blocks, base, words);
    forall t | t in after
      ensures Neighboured(after, t)
    {
      if t in blocks {
        JoinedAt(blocks, t);
        NeighbouredKept(blocks, after, t);
      }
    }
    JoinedIf(after);
  }

  lemma NeighbouredKept(blocks: Blocks, after: Blocks, t: nat)
    requires t in blocks && Neighboured(blocks, t)
    requires forall x :: x in blocks ==> x in after && after[x] == blocks[x]
    ensures Neighboured(after, t)
  {
    if blocks[t].kind != LeftFence {
      var q :| Precedes(blocks, q, t);
      assert Precedes(after, q, t);
    }
  }

  lemma NewNeighbours(after: Blocks, base: nat, words: nat)
    requires words >= 8
    requires base in after && after[base] == Block(2, LeftFence, base)
    requires base + words - 2 in after && after[base + words - 2] == Block(2, RightFence, base)
    requires base + 2 in after && after[base + 2] == Block(words - 4, Pending, base)
    ensures Neighboured(after, base) && Neighboured(after, base + 2) && Neighboured(after, base + words - 2)
  {
    assert Precedes(after, base, base + 2);
    assert Precedes(after, base + 2, base + words - 2);
  }

  lemma GrownAt(m: seq<int>, blocks: Blocks, chunks: Chunks, base: nat, words: nat, t: nat)
    requires Growable(m, blocks, chunks, base, words) && t in blocks
    ensures t in Grown(blocks, base, words) && Grown(blocks, base, words)[t] == blocks[t]
  {
    hide Joined, Apart, Housed;
    assert Tagged(m, t, blocks[t]);
    GrowOutside(m, blocks, chunks, base, words, t);
  }

  lemma GrowKeeps(m: seq<int>, blocks: Blocks, chunks: Chunks, base: nat, words: nat, low1: nat, low2: nat, low3: nat)
    requires Growable(m, blocks, chunks, base, words)
    requires low1 < 8 && low2 < 8 && low3 < 8 && low1 % 2 == 1 && low3 % 2 == 1
    ensures var m' := GrownTags(m, base, words, low1, low2, low3);
            Sound(m', Grown(blocks, base, words)) && SamePayloads(m, m', blocks)
  {
    hide Joined, Apart, Housed;
    GrowTagged(m, blocks, chunks, base, words, low1, low2, low3);
    GrowApart(m, blocks, chunks, base, words);
    GrowJoined(m, blocks, chunks, base, words);
    var m' := GrownTags(m, base, words, low1, low2, low3);
    forall t, i | t in blocks && blocks[t].kind == Live && t < i < t + blocks[t].words - 1 && i < |m|
      ensures m'[i] == m[i]
    {
      GrowOutside(m, blocks, chunks, base, words, t);
    }
  }

  lemma GrowHoused1(m: seq<int>, blocks: Blocks, chunks: Chunks, base: nat, words: nat, s: nat)
    requires Growable(m, blocks, chunks, base, words) && s in Grown(blocks, base, words)
    ensures Housed1(chunks[base := words], s, Grown(blocks, base, words)[s])
  {
    NewChunk(m, blocks, chunks, base, words);
    GrownSame(m, blocks, chunks, base, words);
    assert s in blocks ==> Housed1(chunks, s, blocks[s]);
    hide *;
    HousedNew(chunks, base, words);
    if s in blocks {
      HousedLonger(chunks, base, words, s, blocks[s]);
    }
  }

  lemma GrowFenced(m: seq<int>, blocks: Blocks, chunks: Chunks, base: nat, words: nat, c: nat)
    requires Growable(m, blocks, chunks, base, words) && c in chunks[base := words]
    ensures c in Grown(blocks, base, words) && Grown(blocks, base, words)[c].kind == LeftFence
  {
    GrownSame(m, blocks, chunks, base, words);
    assert c != base ==> c in blocks && blocks[c].kind == LeftFence;
    hide *;
  }

  lemma GrowHoused(m: seq<int>, blocks: Blocks, chunks: Chunks, base: nat, words: nat)
    requires Growable(m, blocks, chunks, base, words)
    ensures Housed(Grown(blocks, base, words), chunks[base := words])
  {
    var after, chunks' := Grown(blocks, base, words), chunks[base := words];
    NewChunk(m, blocks, chunks, base, words);
    hide Growable, Grown, Disjoint, Housed1;
    forall s | s in after ensures Housed1(chunks', s, after[s]) { GrowHoused1(m, blocks, chunks, base, words, s); }
    forall c | c in chunks'
      ensures c in after && after[c].kind == LeftFence
    {
      GrowFenced(m, blocks, chunks, base, words, c);
    }
  }

  lemma HousedNew(chunks: Chunks, base: nat, words: nat)
    requires words >= 8
    ensures var chunks' := chunks[base := words];
            && Housed1(chunks', base, Block(2, LeftFence, base))
                && Housed1(chunks', base + 2, Block(words - 4, Pending, base))
            && Housed1(chunks', base + words - 2, Block(2, RightFence, base))
  {
  }

  lemma HousedLonger(chunks: Chunks, base: nat, words: nat, s: nat, b: Block)
    requires Housed1(chunks, s, b) && base !in chunks
    ensures Housed1(chunks[base := words], s, b)
  {
  }

  lemma NewChunk(m: seq<int>, blocks: Blocks, chunks: Chunks, base: nat, words: nat)
    requires Growable(m, blocks, chunks, base, words)
    ensures base !in chunks && Disjoint(chunks[base := words])
  {
    hide Joined, Apart, Tagged;
    if base in chunks {
      assert Housed1(chunks, base, blocks[base]);
      assert Tagged(m, base, blocks[base]);
      TaggedLength(m, base, blocks[base]);
    }
  }

  // ---- The bytes given out ----

  /** The words of all live blocks that start below `upto`. */
  function LiveWords(blocks: Blocks, upto: nat): nat {
    if upto == 0 then 0
    else LiveWords(blocks, upto - 1)
         + (if upto - 1 in blocks && blocks[upto - 1].kind == Live then blocks[upto - 1].words else 0)
  }

  ghost predicate SameLive(blocks: Blocks, after: Blocks, s: nat) {
    forall t :: t != s ==>
      ((t in blocks && blocks[t].kind == Live) <==> (t in after && after[t].kind == Live))
      && (t in blocks && t in after && blocks[t].kind == Live ==> after[t].words == blocks[t].words)
  }

  function LiveAt(blocks: Blocks, s: nat): nat {
    if s in blocks && blocks[s].kind == Live then blocks[s].words else 0
  }

  /** Changing one block changes the total by that block alone. */
  lemma {:induction false} LiveWordsChange(blocks: Blocks, after: Blocks, s: nat, upto: nat)
    requires SameLive(blocks, after, s)
    ensures LiveWords(after, upto) ==
            LiveWords(blocks, upto) + (if s < upto then LiveAt(after, s) as int - LiveAt(blocks, s) else 0)
  {
    if upto > 0 {
      LiveWordsChange(blocks, after, s, upto - 1);
    }
  }
}
