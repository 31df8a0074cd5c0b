/** The boundary-tag heap over word-addressed memory. */
module HeapEx {
  import opened Sequences
  import opened HeapSizes
  import opened HeapModel

  /** Everything that lives before and after is the same, except what `r` names. */
  ghost predicate LiveKept(before: Blocks, after: Blocks) {
    forall t :: (t in before && before[t].kind == Live) || (t in after && after[t].kind == Live) ==>
      t in before && t in after && after[t] == before[t]
  }

  ghost predicate NewLive(before: Blocks, after: Blocks, r: nat) {
    && r in after && after[r].kind == Live && !(r in before && before[r].kind == Live)
    && (forall t :: t in before && before[t].kind == Live ==> t in after && after[t] == before[t])
    && (forall t :: t in after && after[t].kind == Live && t != r ==> t in before && before[t] == after[t])
  }

  ghost predicate OnlyPending(blocks: Blocks, s: nat) {
    forall t :: t in blocks && blocks[t].kind == Pending ==> t == s
  }

  ghost predicate NonePending(blocks: Blocks) {
    forall t :: t in blocks ==> blocks[t].kind != Pending
  }

  lemma SamePayloadsTrans(m: seq<int>, m1: seq<int>, m2: seq<int>, blocks: Blocks, blocks1: Blocks)
    requires SamePayloads(m, m1, blocks) && SamePayloads(m1, m2, blocks1)
    requires forall t :: t in blocks && blocks[t].kind == Live ==> t in blocks1 && blocks1[t] == blocks[t]
    ensures SamePayloads(m, m2, blocks)
  {
  }

  /** What the system hands back when asked for memory: nothing, or a chunk at least as long as asked for. */
  datatype Grant = NoMemory | Memory(base: nat, words: nat)

  ghost predicate Granted(grant: Grant, chunks: Chunks, length: nat, totalSize: nat) {
    grant.Memory? ==>
      && Unused(chunks, grant.base, grant.words) && grant.base > 0 && grant.base + grant.words <= length
      && grant.words % 2 == 0 && 4 * grant.words >= totalSize + 2 * MIN_REQ_SIZE
  }

  class Heap {
    const mem: array<int>
    var headBlock: seq<nat>
    var freeListBitmap: seq<bool>
    var outstandingAllocatedMemory: int

    ghost var blocks: Blocks
    ghost var lists: Lists
    ghost var chunks: Chunks

    /** Tags, lists, links, bitmap and chunks all agree with the ghost block map. */
    ghost predicate Core()
      reads this, mem
    {
      && Sound(mem[..], blocks)
      && Listed(blocks, lists)
      && Chained(mem[..], headBlock, freeListBitmap, lists)
      && Housed(blocks, chunks)
    }

    /** The heap between calls: nothing in hand, nothing left to coalesce, the total right. */
    ghost predicate Valid()
      reads this, mem
    {
      && Core()
      && Coalesced(blocks) && NonePending(blocks)
      && outstandingAllocatedMemory == 4 * LiveWords(blocks, mem.Length)
    }

    constructor (words: nat)
      ensures Valid() && blocks == map[] && mem.Length == words && fresh(mem)
    {
      mem := new int[words];
      headBlock := seq(TOTAL_NUM_FREE_LISTS, _ => 0);
      freeListBitmap := seq(TOTAL_NUM_FREE_LISTS, _ => false);
      outstandingAllocatedMemory := 0;
      blocks, lists, chunks := map[], seq(TOTAL_NUM_FREE_LISTS, _ => []), map[];
      new;
      NoLiveWords(mem.Length);
    }

    // ---- What a heap looks like between operations ----

    /** Every word of every chunk belongs to exactly one block, whose head and tail tags both give its length. */
    lemma Tiled(c: nat, x: nat) returns (s: nat)
      requires Valid() && c in chunks && c <= x < c + chunks[c]
      ensures Covered(blocks, s, x) && blocks[s].chunk == c && (forall t :: Covered(blocks, t, x) ==> t == s)
      ensures s + blocks[s].words <= mem.Length
      ensures GetSize(s) == 4 * blocks[s].words == mem[s + blocks[s].words - 1]
    {
      s := ChunkTiled(mem[..], blocks, chunks, c, x);
      assert Tagged(mem[..], s, blocks[s]);
    }

    /** A free block is on the list its size says, on no other and there only once, that list's bit is set, and neither
        neighbour is free. */
    lemma FreeBlockListed(s: nat)
      requires Valid() && s in blocks && blocks[s].kind == Free
      ensures s < mem.Length && !IsAllocated(s) && GetSize(s) == 4 * blocks[s].words && blocks[s].Payload() >= 8
      ensures var i := GetInsertionIndex(blocks[s].Payload());
              && i < |lists| == |freeListBitmap| == |headBlock| && s in lists[i] && Distinct(lists[i])
                  && freeListBitmap[i]
              && forall j :: 0 <= j < |lists| && s in lists[j] ==> j == i
      ensures s + blocks[s].words in blocks && blocks[s + blocks[s].words].kind != Free
      ensures exists p: nat :: Precedes(blocks, p, s) && blocks[p].kind != Free
    {
      hide Listed, Chained, Housed, Coalesced, NonePending, GetInsertionIndex, AllTagged, Apart, Joined, ListIndex;
      FreeTags(mem[..], blocks, s);
      FreeApart(blocks, s);
      FreeOnItsList(mem[..], headBlock, freeListBitmap, blocks, lists, s);
    }

    // ---- Words of a block ----

    function GetSize(block: nat): int
      reads mem
      requires block < mem.Length
    {
      mem[block] / 8 * 8
    }

    predicate IsAllocated(block: nat)
      reads mem
      requires block < mem.Length
    {
      mem[block] % 2 == 1
    }

    method SetSizeTags(block: nat, words: nat)
      requires words >= 2 && block + words <= mem.Length
      modifies mem
      ensures mem[..] == Retagged(old(mem[..]), block, words, old(mem[block]) % 8)
    {
      mem[block] := mem[block] % 8 + 4 * words;
      mem[block + words - 1] := 4 * words;
    }

    method MarkFree(block: nat)
      requires block < mem.Length
      modifies mem
      ensures mem[..] == old(mem[..])[block := old(mem[block]) - old(mem[block]) % 2]
    {
      mem[block] := mem[block] - mem[block] % 2;
    }

    method MarkAllocated(block: nat)
      requires block < mem.Length
      modifies mem
      ensures mem[..] == old(mem[..])[block := old(mem[block]) - old(mem[block]) % 2 + 1]
    {
      mem[block] := mem[block] - mem[block] % 2 + 1;
    }

    method MarkFencepost(block: nat)
      requires block < mem.Length
      modifies mem
      ensures mem[..] == old(mem[..])[block := old(mem[block]) - old(mem[block]) % 4 + old(mem[block]) % 2 + 2]
    {
      mem[block] := mem[block] - mem[block] % 4 + mem[block] % 2 + 2;
    }

    // ---- Lists ----

    /** Takes a block off its list, wherever on the list it is. */
    method RemoveBlock(freeListIndex: nat, block: nat, ghost k: nat)
      requires Core() && freeListIndex < |lists| && k < |lists[freeListIndex]| && lists[freeListIndex][k] == block
      modifies mem, this`headBlock, this`freeListBitmap, this`blocks, this`lists
      ensures block in old(blocks) && blocks == InHand(old(blocks), block)
      ensures lists == old(lists)[freeListIndex := Without(old(lists)[freeListIndex], k)]
      ensures Core() && SamePayloads(old(mem[..]), mem[..], old(blocks))
    {
      hide Sound, Listed, Chained, Housed, Linked, Spread, Without, SamePayloads;
      ghost var l, m := lists[freeListIndex], mem[..];
      RemoveFacts(m, headBlock, freeListBitmap, blocks, lists, chunks, freeListIndex, k);
      if mem[block + 2] == 0 && mem[block + 1] == 0 {
        headBlock := headBlock[freeListIndex := 0];
        freeListBitmap := freeListBitmap[freeListIndex := false];
      } else if mem[block + 2] == 0 {
        headBlock := headBlock[freeListIndex := mem[block + 1]];
        mem[mem[block + 1] + 2] := 0;
      } else if mem[block + 1] == 0 {
        mem[mem[block + 2] + 1] := 0;
      } else {
        var (prev, next) := (mem[block + 2], mem[block + 1]);
        mem[prev + 1] := next;
        mem[next + 2] := prev;
      }
      assert mem[..] == Unlinked(m, l, k);
      blocks := InHand(blocks, block);
      lists := lists[freeListIndex := Without(l, k)];
    }

    /** Makes blocks in hand, next to each other from p on, into one block in hand. */
    method CoalesceAt(p: nat, words: nat)
      requires Core() && p in blocks && Mergeable(mem[..], blocks, p, words) && words >= 4 && p + words <= mem.Length
      requires words % 2 == 0
      modifies mem, this`blocks
      ensures Core() && blocks == Merged(old(blocks), p, words)
      ensures SamePayloads(old(mem[..]), mem[..], old(blocks))
    {
      hide Sound, Listed, Chained, Housed, Mergeable, Merged, SamePayloads, Retagged;
      ghost var m := mem[..];
      RetaggedWords(m, p, words, m[p] % 8);
      TagSize(words, m[p] % 8);
      SetSizeTags(p, words);
      mem[p + 2] := 0;
      mem[p + 1] := 0;
      LowBits(mem[p]);
      MarkFree(p);
      assert Overwritten(m, mem[..], p, words);
      CoalesceFacts(m, mem[..], headBlock, freeListBitmap, blocks, lists, chunks, p, words);
      blocks := Merged(blocks, p, words);
    }

    /** Puts a block in hand, between neighbours that are not free, at the front of its list. */
    method InsertBlock(freeListIndex: nat, block: nat)
      requires Core() && block in blocks && blocks[block].kind == Pending
          && freeListIndex == ListIndex(blocks[block]) < |lists|
      modifies mem, this`headBlock, this`freeListBitmap, this`blocks, this`lists
      ensures block in old(blocks) && blocks == OnList(old(blocks), block)
      ensures Core() && SamePayloads(old(mem[..]), mem[..], old(blocks))
    {
      hide Sound, Listed, Chained, Housed, SamePayloads, OnList, Linked, FarFrom, Spread, ListIndex;
      ghost var m, l := mem[..], lists[freeListIndex];
      InsertReads(m, headBlock, freeListBitmap, blocks, lists, block, freeListIndex);
      mem[block + 2] := 0;
      mem[block + 1] := headBlock[freeListIndex];
      if mem[block + 1] != 0 {
        mem[mem[block + 1] + 2] := block;
      }
      assert mem[..] == PushedLinks(m, l, block);
      ghost var m1 := mem[..];
      MarkFree(block);
      InsertFacts(m, m1, mem[..], headBlock, freeListBitmap, blocks, lists, chunks, block, freeListIndex);
      headBlock := headBlock[freeListIndex := block];
      freeListBitmap := freeListBitmap[freeListIndex := true];
      blocks := OnList(blocks, block);
      lists := lists[freeListIndex := [block] + l];
    }

    /** Takes a free neighbour of the block in hand into hand as well. */
    method TakeNeighbour(block: nat, neighbour: nat)
      requires Core() && neighbour in blocks && blocks[neighbour].kind == Free && neighbour < mem.Length
      requires mem[neighbour] / 8 * 8 == 4 * blocks[neighbour].words && blocks[neighbour].words >= 4
      modifies mem, this`headBlock, this`freeListBitmap, this`blocks, this`lists
      ensures neighbour in old(blocks) && blocks == InHand(old(blocks), neighbour)
      ensures Core() && SamePayloads(old(mem[..]), mem[..], old(blocks))
    {
      hide Sound, Chained, Housed, SamePayloads, GetInsertionIndex;
      var index := GetInsertionIndex(GetSize(neighbour) - METADATA_TOTAL);
      ghost var k := OnItsList(blocks, lists, neighbour);
      RemoveBlock(index, neighbour, k);
    }

    /** AddBlock when there is nothing to coalesce. */
    method AddAlone(block: nat, size: nat, ghost p: nat, ghost n: nat)
      requires Core() && block in blocks && blocks[block].kind == Pending && size == 4 * blocks[block].words >= 16
      requires OnlyPending(blocks, block) && Coalesced(blocks)
      requires Precedes(blocks, p, block) && blocks[p].kind != Free && p < block
      requires n == block + blocks[block].words && n in blocks && blocks[n].kind != Free
      modifies mem, this`headBlock, this`freeListBitmap, this`blocks, this`lists
      ensures Core() && Coalesced(blocks) && NonePending(blocks)
      ensures block in blocks && block in old(blocks) && blocks[block].kind == Free
          && blocks[block].words == old(blocks)[block].words
      ensures LiveKept(old(blocks), blocks) && SamePayloads(old(mem[..]), mem[..], old(blocks))
    {
      hide Sound, Listed, Chained, Housed, SamePayloads, OnlyPending, LiveKept, Coalesced, GetInsertionIndex;
      InsertDone(mem[..], blocks, block, p, n);
      ListIndexOk(blocks, lists, blocks[block]);
      var freeListIndex := GetInsertionIndex(size - METADATA_TOTAL);
      InsertBlock(freeListIndex, block);
    }

    /** Joins blocks in hand from p on, and leaves only the joined block in hand. */
    method Join(p: nat, words: nat)
      requires Core() && p in blocks && Mergeable(mem[..], blocks, p, words) && words >= 4 && words % 2 == 0
      requires p + words <= mem.Length && Coalesced(blocks) && AllInside(blocks, p, words) && |blocks| > 0
      modifies mem, this`blocks
      ensures Core() && p in blocks && blocks[p].kind == Pending && blocks[p].words == words
      ensures OnlyPending(blocks, p) && Coalesced(blocks)
      ensures forall s :: s in old(blocks) && Inner(p, words, s) ==> |blocks| < |old(blocks)|
      ensures LiveKept(old(blocks), blocks) && SamePayloads(old(mem[..]), mem[..], old(blocks))
    {
      hide Sound, Listed, Chained, Housed, SamePayloads, LiveKept, Coalesced, Mergeable;
      ghost var blocks0, m0 := blocks, mem[..];
      CoalesceAt(p, words);
      MergedCoalesced(m0, blocks0, p, words);
      MergedLive(m0, blocks0, p, words);
      forall s | s in blocks0 && Inner(p, words, s)
        ensures |blocks| < |blocks0|
      {
        MergedSmaller(blocks0, p, words, s);
      }
    }

    /** Coalesces the block in hand with the free block after it. */
    method JoinNext(block: nat, next: nat, words: nat)
      requires Core() && block in blocks && blocks[block].kind == Pending && OnlyPending(blocks, block)
          && Coalesced(blocks)
      requires Precedes(blocks, block, next) && next in blocks && blocks[next].kind == Free
      requires words == blocks[block].words + blocks[next].words
      modifies mem, this`headBlock, this`freeListBitmap, this`blocks, this`lists
      ensures Core() && block in blocks && blocks[block].kind == Pending && blocks[block].words == words
      ensures OnlyPending(blocks, block) && Coalesced(blocks) && |blocks| < |old(blocks)|
      ensures LiveKept(old(blocks), blocks) && SamePayloads(old(mem[..]), mem[..], old(blocks))
    {
      hide Sound, Listed, Chained, Housed, SamePayloads, LiveKept, Coalesced, Mergeable;
      ghost var blocks0, m0 := blocks, mem[..];
      NeighbourSize(mem[..], blocks, next);
      HandKept(blocks, next);
      TakeNeighbour(next, next);
      ghost var blocks1, m1 := blocks, mem[..];
      Mergeable2(m1, blocks1, block, next, words);
      NextInner(m1, blocks1, block, next, words);
      Join(block, words);
      LiveKeptTrans(m0, m1, mem[..], blocks0, blocks1, blocks);
    }

    /** Coalesces the block in hand with the free block before it. */
    method JoinPrev(prev: nat, block: nat, words: nat)
      requires Core() && block in blocks && blocks[block].kind == Pending && OnlyPending(blocks, block)
          && Coalesced(blocks)
      requires Precedes(blocks, prev, block) && prev != block && blocks[prev].kind == Free
      requires words == blocks[prev].words + blocks[block].words
      modifies mem, this`headBlock, this`freeListBitmap, this`blocks, this`lists
      ensures Core() && prev in blocks && blocks[prev].kind == Pending && blocks[prev].words == words
      ensures OnlyPending(blocks, prev) && Coalesced(blocks) && |blocks| < |old(blocks)|
      ensures LiveKept(old(blocks), blocks) && SamePayloads(old(mem[..]), mem[..], old(blocks))
    {
      hide Sound, Listed, Chained, Housed, SamePayloads, LiveKept, Coalesced, Mergeable;
      ghost var blocks0, m0 := blocks, mem[..];
      NeighbourSize(mem[..], blocks, prev);
      HandKept(blocks, prev);
      TakeNeighbour(prev, prev);
      ghost var blocks1, m1 := blocks, mem[..];
      Mergeable2(m1, blocks1, prev, block, words);
      NextInner(m1, blocks1, prev, block, words);
      Join(prev, words);
      LiveKeptTrans(m0, m1, mem[..], blocks0, blocks1, blocks);
    }

    /** Coalesces the block in hand with the free blocks on both sides at once. */
    method JoinBoth(prev: nat, block: nat, next: nat, words: nat)
      requires Core() && block in blocks && blocks[block].kind == Pending && OnlyPending(blocks, block)
          && Coalesced(blocks)
      requires Precedes(blocks, prev, block) && prev != block && blocks[prev].kind == Free
      requires Precedes(blocks, block, next) && next in blocks && blocks[next].kind == Free && next != prev
      requires words == blocks[prev].words + blocks[block].words + blocks[next].words
      modifies mem, this`headBlock, this`freeListBitmap, this`blocks, this`lists
      ensures Core() && prev in blocks && blocks[prev].kind == Pending && blocks[prev].words == words
      ensures OnlyPending(blocks, prev) && Coalesced(blocks) && |blocks| < |old(blocks)|
      ensures LiveKept(old(blocks), blocks) && SamePayloads(old(mem[..]), mem[..], old(blocks))
    {
      hide Sound, Listed, Chained, Housed, SamePayloads, LiveKept, Coalesced, Mergeable;
      ghost var blocks0, m0 := blocks, mem[..];
      NeighbourSize(mem[..], blocks, prev);
      HandKept(blocks, prev);
      TakeNeighbour(prev, prev);
      ghost var blocks1, m1 := blocks, mem[..];
      NeighbourSize(mem[..], blocks, next);
      HandKept(blocks, next);
      TakeNeighbour(next, next);
      ghost var blocks2, m2 := blocks, mem[..];
      LiveKeptTrans(m0, m1, m2, blocks0, blocks1, blocks2);
      Mergeable3(m2, blocks2, prev, block, next, words);
      Join(prev, words);
      LiveKeptTrans(m0, m2, mem[..], blocks0, blocks2, blocks);
    }

    /** Coalesces a block in hand with its free neighbours and puts the result on its list. */
    method AddBlock(block: nat) returns (added: nat)
      requires Core() && block in blocks && blocks[block].kind == Pending
      requires OnlyPending(blocks, block) && Coalesced(blocks)
      modifies mem, this`headBlock, this`freeListBitmap, this`blocks, this`lists
      ensures Core() && Coalesced(blocks) && NonePending(blocks)
      ensures added in blocks && blocks[added].kind == Free && blocks[added].words >= old(blocks)[block].words
      ensures LiveKept(old(blocks), blocks) && SamePayloads(old(mem[..]), mem[..], old(blocks))
      decreases |blocks|
    {
      hide Sound, Listed, Chained, Housed, SamePayloads, LiveKept, Coalesced, OnlyPending;
      ghost var blocks0, m0 := blocks, mem[..];
      ghost var p, n := Neighbours(mem[..], blocks, block);
      var size := GetSize(block);
      var prevSize := mem[block - 1];
      var prev := block - prevSize / 4;
      var next := block + size / 4;
      if IsAllocated(prev) && IsAllocated(next) {
        AddAlone(block, size, p, n);
        added := block;
      } else {
        if IsAllocated(prev) {
          JoinNext(block, next, (size + GetSize(next)) / 4);
          added := block;
        } else if IsAllocated(next) {
          JoinPrev(prev, block, (size + GetSize(prev)) / 4);
          added := prev;
        } else {
          JoinBoth(prev, block, next, (size + GetSize(prev) + GetSize(next)) / 4);
          added := prev;
        }
        ghost var blocks1, m1 := blocks, mem[..];
        added := AddBlock(added);
        LiveKeptTrans(m0, m1, mem[..], blocks0, blocks1, blocks);
      }
    }

    // ---- Allocation ----

    /** Gives out the whole block in hand. */
    method GiveWhole(block: nat, words: nat)
      requires Core() && block in blocks && blocks[block].kind == Pending && words == blocks[block].words
      modifies mem, this`blocks
      ensures block in old(blocks) && blocks == Given(old(blocks), block)
      ensures Core() && SamePayloads(old(mem[..]), mem[..], old(blocks))
    {
      hide Sound, Listed, Chained, Housed, SamePayloads, Given, Retagged;
      ghost var m := mem[..];
      NeighbourSize(m, blocks, block);
      BlockFits(m, blocks, block);
      SetSizeTags(block, words);
      TagsThere(m, blocks, block);
      assert mem[..] == m;
      MarkAllocated(block);
      GiveFacts(m, mem[..], headBlock, freeListBitmap, blocks, lists, chunks, block);
      blocks := Given(blocks, block);
    }

    method WriteSplit(block: nat, first: nat, rest: nat)
      requires first >= 4 && rest >= 4 && first % 2 == 0 && rest % 2 == 0 && block + first + rest <= mem.Length
      modifies mem
      ensures SplitWritten(old(mem[..]), mem[..], block, first, rest)
    {
      hide Retagged;
      var allocatedBlock := block + first;
      ghost var low, low' := mem[block] % 8, mem[allocatedBlock] % 8;
      RetaggedWords(mem[..], block, first, low);
      SetSizeTags(block, first);
      RetaggedWords(mem[..], allocatedBlock, rest, low');
      SetSizeTags(allocatedBlock, rest);
      TagSize(first, low);
      TagSize(rest, low');
      LowBits(mem[block]);
      LowBits(mem[allocatedBlock]);
      MarkAllocated(allocatedBlock);
      MarkFree(block);
    }

    /** Splits the block in hand: the end is given out, the rest goes back on a list. */
    method GiveEnd(block: nat, first: nat, rest: nat)
      requires Core() && Coalesced(blocks) && OnlyPending(blocks, block)
      requires block in blocks && Cuttable(mem[..], blocks, block, first)
      requires rest == blocks[block].words - first && rest >= 4 && block + first + rest <= mem.Length && first >= 4
      requires first % 2 == 0 && rest % 2 == 0
      modifies mem, this`headBlock, this`freeListBitmap, this`blocks, this`lists
      ensures Core() && Coalesced(blocks) && NonePending(blocks)
      ensures NewLive(old(blocks), blocks, block + first) && blocks[block + first].words == rest
      ensures SamePayloads(old(mem[..]), mem[..], old(blocks))
    {
      hide Sound, Listed, Chained, Housed, SamePayloads, NewLive, Coalesced, OnlyPending, NonePending, Cuttable,
           LiveKept;
      ghost var blocks0, m0 := blocks, mem[..];
      WriteSplit(block, first, rest);
      CutFacts(m0, mem[..], headBlock, freeListBitmap, blocks, lists, chunks, block, first);
      CutDone(m0, blocks, block, first);
      blocks := Cut(blocks, block, first);
      ghost var blocks1, m1 := blocks, mem[..];
      var added := AddBlock(block);
      NewLiveThen(m0, m1, mem[..], blocks0, blocks1, blocks, block + first);
    }

    /** Gives out a listed block that fits: whole, or its end if what is left can be a block. */
    method AllocateBlock(block: nat, freeListIndex: nat, size: nat, ghost k: nat) returns (r: nat)
      requires Core() && Coalesced(blocks) && NonePending(blocks)
      requires freeListIndex < |lists| && k < |lists[freeListIndex]| && lists[freeListIndex][k] == block
      requires block in blocks && size % 8 == 0 && size >= 8 && blocks[block].Payload() >= size
      modifies mem, this`headBlock, this`freeListBitmap, this`blocks, this`lists
      ensures Core() && Coalesced(blocks) && NonePending(blocks)
      ensures NewLive(old(blocks), blocks, r) && size <= blocks[r].Payload() < size + 16
      ensures SamePayloads(old(mem[..]), mem[..], old(blocks))
    {
      hide Sound, Listed, Chained, Housed, SamePayloads, NewLive, Coalesced, OnlyPending, NonePending;
      ghost var blocks0, m0 := blocks, mem[..];
      ListedFree(blocks, lists, freeListIndex, block);
      NeighbourSize(mem[..], blocks, block);
      BlockFits(mem[..], blocks, block);
      HandKept(blocks, block);
      HandAlone(blocks, block);
      var totalSize := size + METADATA_TOTAL;
      var blockSize := GetSize(block);
      RemoveBlock(freeListIndex, block, k);
      ghost var blocks1, m1 := blocks, mem[..];
      if blockSize - totalSize < MIN_REQ_SIZE + METADATA_TOTAL {
        GiveWhole(block, blockSize / 4);
        r := block;
        GivenDone(blocks0, block);
      } else {
        var leftover := blockSize - totalSize;
        r := block + leftover / 4;
        EvenShares(blocks0[block].words, size);
        CuttableHere(m1, blocks1, block, leftover / 4);
        GiveEnd(block, leftover / 4, totalSize / 4);
        NewLiveHand(blocks0, blocks, block, r);
      }
      HandPayloads(m0, m1, mem[..], blocks0, block);
    }

    // ---- Memory from the system ----

    /** Writes the sizes of a fresh chunk: a fence at each end, and one block between them. */
    method SizeChunk(base: nat, words: nat)
      requires words >= 8 && base + words <= mem.Length
      modifies mem
      ensures ChunkSized(old(mem[..]), mem[..], base, words)
    {
      hide Retagged;
      var leftFence, actualBlock, rightFence := base, base + 2, base + words - 2;
      RetaggedWords(mem[..], leftFence, 2, mem[leftFence] % 8);
      SetSizeTags(leftFence, 2);
      RetaggedWords(mem[..], actualBlock, words - 4, mem[actualBlock] % 8);
      SetSizeTags(actualBlock, words - 4);
      RetaggedWords(mem[..], rightFence, 2, mem[rightFence] % 8);
      SetSizeTags(rightFence, 2);
      mem[actualBlock + 2] := 0;
      mem[actualBlock + 1] := 0;
    }

    method WriteChunk(base: nat, words: nat)
      requires words >= 8 && words % 2 == 0 && base + words <= mem.Length
      modifies mem
      ensures ChunkWritten(old(mem[..]), mem[..], base, words)
    {
      hide ChunkWritten, ChunkSized;
      ghost var m0 := mem[..];
      var leftFence, actualBlock, rightFence := base, base + 2, base + words - 2;
      SizeChunk(base, words);
      ghost var m1 := mem[..];
      MarkFencepost(leftFence);
      MarkAllocated(leftFence);
      assert mem[..] == m1[base := Odd(Fenced(m1[base]))];
      MarkFencepost(rightFence);
      MarkAllocated(rightFence);
      MarkFree(actualBlock);
      ChunkMarked(m0, m1, mem[..], base, words);
    }

    /** Makes memory from the system a chunk: between two fenceposts lies the block asked for. */
    method RequestBlock(totalSize: nat, grant: Grant) returns (r: nat)
      requires Core() && Coalesced(blocks) && NonePending(blocks) && totalSize >= 16
      requires Granted(grant, chunks, mem.Length, totalSize)
      modifies mem, this`blocks, this`chunks
      ensures Core() && Coalesced(blocks) && OnlyPending(blocks, r)
      ensures grant.NoMemory? <==> r == 0
      ensures r == 0 ==> blocks == old(blocks) && chunks == old(chunks) && mem[..] == old(mem[..])
      ensures r != 0 ==> r == grant.base + 2 && chunks == old(chunks)[grant.base := grant.words]
      ensures r != 0 ==>
                blocks == old(blocks)[grant.base := Block(2, LeftFence, grant.base)]
                          [grant.base + grant.words - 2 := Block(2, RightFence, grant.base)]
                          [r := Block(grant.words - 4, Pending, grant.base)]
      ensures r != 0 ==> r in blocks && blocks[r].kind == Pending && 4 * blocks[r].words >= totalSize
      ensures LiveKept(old(blocks), blocks) && SamePayloads(old(mem[..]), mem[..], old(blocks))
    {
      hide Sound, Listed, Chained, Housed, SamePayloads, Coalesced, LiveKept, Grown, ChunkWritten;
      assert grant.Memory? ==> grant.words >= 8;
      if grant.NoMemory? {
        r := 0;
        NothingChanged(mem[..], blocks);
      } else {
        ghost var m := mem[..];
        WriteChunk(grant.base, grant.words);
        GrowFacts(m, mem[..], headBlock, freeListBitmap, blocks, lists, chunks, grant.base, grant.words);
        GrowDone(m, blocks, chunks, grant.base, grant.words);
        GrownIs(blocks, grant.base, grant.words);
        blocks := Grown(blocks, grant.base, grant.words);
        chunks := chunks[grant.base := grant.words];
        r := grant.base + 2;
      }
    }

    // ---- The heap's interface ----

    /** Finds a block for a request: on the lists if one there is a sure fit, or else in memory from the system. */
    method FindBlock(size: nat, grant: Grant) returns (r: nat)
      requires Core() && Coalesced(blocks) && NonePending(blocks) && size % 8 == 0 && size >= 8
      requires Granted(grant, chunks, mem.Length, SystemSize(size))
      modifies mem, this`headBlock, this`freeListBitmap, this`blocks, this`lists, this`chunks
      ensures Core() && Coalesced(blocks) && NonePending(blocks)
      ensures r != 0 ==> NewLive(old(blocks), blocks, r) && size <= blocks[r].Payload() < size + 16
      ensures r == 0 <==> grant.NoMemory? && NoneFits(old(blocks), size)
      ensures r == 0 ==> blocks == old(blocks)
      ensures chunks == if grant.Memory? && NoneFits(old(blocks), size) then old(chunks)[grant.base := grant.words]
                        else old(chunks)
      ensures SamePayloads(old(mem[..]), mem[..], old(blocks))
    {
      hide Sound, Listed, Chained, Housed, SamePayloads, NewLive, Coalesced, NonePending, Granted,
           GetSmallestListIndexThatFits, NoneFits, SystemSize;
      BitmapSize(mem[..], headBlock, freeListBitmap, blocks, lists);
      SmallestListFits(size);
      var minIndex := GetSmallestListIndexThatFits(size);
      var i := LowestCandidate(freeListBitmap, minIndex);
      if i < TOTAL_NUM_FREE_LISTS - 1 {
        FirstListed(mem[..], headBlock, freeListBitmap, blocks, lists, i);
        ListedFits(mem[..], blocks, lists, lists[i][0], size, i);
        SomeFits(mem[..], blocks, lists, lists[i][0], size, i);
        r := AllocateBlock(headBlock[i], i, size, 0);
        NewLiveAbove(mem[..], old(blocks), blocks, r);
      } else {
        r := 0;
        if i < TOTAL_NUM_FREE_LISTS {
          ghost var blocks0, lists0, m0 := blocks, lists, mem[..];
          r := SearchLastList(size, i);
          if r != 0 {
            ghost var j :| 0 <= j < |lists0[i]| && LongEnough(blocks0, lists0[i][j], size);
            SomeFits(m0, blocks0, lists0, lists0[i][j], size, i);
          }
        }
        if r == 0 {
          NoCandidate(mem[..], headBlock, freeListBitmap, blocks, lists, size, i);
          r := FindInNewChunk(size, grant);
        }
      }
    }

    /** First fit on the last list, which holds blocks of many sizes. */
    method SearchLastList(size: nat, i: nat) returns (r: nat)
      requires Core() && Coalesced(blocks) && NonePending(blocks) && size % 8 == 0 && size >= 8
      requires i < |lists|
      modifies mem, this`headBlock, this`freeListBitmap, this`blocks, this`lists
      ensures Core() && Coalesced(blocks) && NonePending(blocks)
      ensures r != 0 ==> NewLive(old(blocks), blocks, r) && size <= blocks[r].Payload() < size + 16
      ensures r == 0 ==> mem[..] == old(mem[..]) && headBlock == old(headBlock) && freeListBitmap == old(freeListBitmap)
      ensures r == 0 ==> blocks == old(blocks) && lists == old(lists)
      ensures r == 0 ==> forall j :: 0 <= j < |lists[i]| ==>
          lists[i][j] in blocks && blocks[lists[i][j]].Payload() < size
      ensures r != 0 ==> HoldsOne(old(blocks), old(lists)[i], size)
      ensures SamePayloads(old(mem[..]), mem[..], old(blocks))
    {
      hide Sound, Listed, Chained, Housed, SamePayloads, NewLive, Coalesced, NonePending;
      ghost var l, k, m := lists[i], 0, mem[..];
      BitmapSize(mem[..], headBlock, freeListBitmap, blocks, lists);
      HeadIs(mem[..], headBlock, freeListBitmap, blocks, lists, i);
      var current := headBlock[i];
      while current != 0
        invariant k <= |l| && current == HeadOf(l[k..])
        invariant forall j :: 0 <= j < k ==> l[j] in blocks && blocks[l[j]].Payload() < size
        invariant Core() && unchanged(mem) && unchanged(this)
        decreases |l| - k
      {
        ListWalk(mem[..], headBlock, freeListBitmap, blocks, lists, i, k);
        if GetSize(current) - METADATA_TOTAL >= size {
          assert mem[..] == m && LongEnough(blocks, l[k], size);
          r := AllocateBlock(current, i, size, k);
          NewLiveAbove(mem[..], old(blocks), blocks, r);
          return;
        }
        current := mem[current + 1];
        k := k + 1;
      }
      if k < |l| {
        ListWalk(mem[..], headBlock, freeListBitmap, blocks, lists, i, k);
      }
      r := 0;
      NothingChanged(mem[..], blocks);
    }

    method FindInNewChunk(size: nat, grant: Grant) returns (r: nat)
      requires Core() && Coalesced(blocks) && NonePending(blocks) && size % 8 == 0 && size >= 8
      requires Granted(grant, chunks, mem.Length, SystemSize(size))
      modifies mem, this`headBlock, this`freeListBitmap, this`blocks, this`lists, this`chunks
      ensures Core() && Coalesced(blocks) && NonePending(blocks)
      ensures r != 0 ==> NewLive(old(blocks), blocks, r) && size <= blocks[r].Payload() < size + 16
      ensures r == 0 <==> grant.NoMemory?
      ensures r == 0 ==> blocks == old(blocks) && LiveKept(old(blocks), blocks)
      ensures chunks == if grant.NoMemory? then old(chunks) else old(chunks)[grant.base := grant.words]
      ensures SamePayloads(old(mem[..]), mem[..], old(blocks))
    {
      hide Sound, Listed, Chained, Housed, SamePayloads, NewLive, LiveKept, Coalesced, NonePending, OnlyPending,
           Granted, SystemSize, GetInsertionIndex;
      ghost var blocks0, m0 := blocks, mem[..];
      SystemSizeFits(size);
      r := RequestBlock(SystemSize(size), grant);
      if r != 0 {
        ghost var blocks1, m1 := blocks, mem[..];
        var inserted := AddBlock(r);
        ghost var blocks2, m2 := blocks, mem[..];
        LiveKeptTrans(m0, m1, m2, blocks0, blocks1, blocks2);
        NeighbourSize(mem[..], blocks, inserted);
        var insertedIndex := GetInsertionIndex(GetSize(inserted) - METADATA_TOTAL);
        ghost var k := OnItsList(blocks, lists, inserted);
        r := AllocateBlock(inserted, insertedIndex, size, k);
        NewLiveAbove(mem[..], blocks2, blocks, r);
        NewLiveAfter(m0, m2, mem[..], blocks0, blocks2, blocks, r);
      }
    }

    /** Returns the address of the payload, one word into the block; zero for no memory or an empty request. All of
        it holds for requests whose sums do not wrap; for larger ones the code goes on with sizes that mean nothing,
        and nothing is promised. */
    method AllocHeapEx(size: nat, grant: Grant) returns (ptr: nat)
      requires Valid() && size < WORD
      requires size <= MAX_REQUEST ==> Granted(grant, chunks, mem.Length, SystemSize(RoundUpSize(size)))
      modifies mem, this
      ensures size <= MAX_REQUEST ==> Valid()
      ensures size <= MAX_REQUEST ==>
                (ptr == 0 <==> size == 0 || (grant.NoMemory? && NoneFits(old(blocks), RoundUpSize(size))))
      ensures size <= MAX_REQUEST && ptr == 0 ==> blocks == old(blocks) && LiveKept(old(blocks), blocks)
      ensures size <= MAX_REQUEST ==>
                chunks == if size > 0 && grant.Memory? && NoneFits(old(blocks), RoundUpSize(size))
                          then old(chunks)[grant.base := grant.words] else old(chunks)
      ensures size <= MAX_REQUEST && ptr != 0 ==>
                NewLive(old(blocks), blocks, ptr - 1) && size <= blocks[ptr - 1].Payload() < size + 32
      ensures size <= MAX_REQUEST ==> SamePayloads(old(mem[..]), mem[..], old(blocks))
      ensures size <= MAX_REQUEST ==>
                outstandingAllocatedMemory
                == old(outstandingAllocatedMemory) + if ptr == 0 then 0 else 4 * blocks[ptr - 1].words
    {
      hide Sound, Listed, Chained, Housed, SamePayloads, NewLive, LiveKept, Coalesced, NonePending, Granted,
           SystemSize, NoneFits,
           RoundUpSize, RoundUpWord, Asked;
      ghost var blocks0 := blocks;
      if size == 0 {
        ptr := 0;
        NothingChanged(mem[..], blocks);
        return;
      }
      AskedCovers(size);
      if Asked(size) < size {
        // The sums have wrapped.
        ptr := *;
        modify mem, this;
        return;
      }
      RoundUpSizeFits(size);
      var block := FindBlock(RoundUpWord(size), grant);
      if block == 0 {
        ptr := 0;
        NothingChanged(mem[..], blocks);
      } else {
        NewLiveTotal(mem[..], blocks0, blocks, block);
        outstandingAllocatedMemory := outstandingAllocatedMemory + GetSize(block);
        ptr := block + 1;
        NewLiveIs(blocks0, blocks, ptr);
      }
    }

    /** Takes a payload back: everything else that lives is left as it is. */
    method FreeHeapEx(ptr: nat)
      requires Valid() && (ptr != 0 ==> ptr - 1 in blocks && blocks[ptr - 1].kind == Live)
      modifies mem, this
      ensures Valid()
      ensures ptr == 0 ==> LiveKept(old(blocks), blocks)
      ensures ptr != 0 ==> Released(old(blocks), blocks, ptr - 1)
      ensures ptr != 0 ==>
          outstandingAllocatedMemory == old(outstandingAllocatedMemory) - 4 * old(blocks)[ptr - 1].words
      ensures SamePayloads(old(mem[..]), mem[..], if ptr == 0 then old(blocks) else Without1(old(blocks), ptr - 1))
    {
      hide Sound, Listed, Chained, Housed, SamePayloads, LiveKept, Coalesced, NonePending, OnlyPending, Released,
           Without1;
      ghost var blocks0, m0 := blocks, mem[..];
      if ptr == 0 {
        NothingChanged(mem[..], blocks);
        return;
      }
      var block := ptr - 1;
      NeighbourSize(mem[..], blocks, block);
      BlockFits(mem[..], blocks, block);
      mem[block + 2] := 0;
      mem[block + 1] := 0;
      TakeFacts(m0, mem[..], headBlock, freeListBitmap, blocks, lists, chunks, block);
      blocks := InHand(blocks, block);
      ghost var blocks1, m1 := blocks, mem[..];
      outstandingAllocatedMemory := outstandingAllocatedMemory - GetSize(block);
      var added := AddBlock(block);
      ReleasedThen(m0, m1, mem[..], blocks0, blocks1, blocks, block);
      ReleasedTotal(m0, blocks0, blocks, block);
    }

    /** The copy of a payload to a larger one. */
    method CopyPayload(ptr: nat, r: nat, n: nat)
      requires Valid() && ptr > 0 && ptr - 1 in blocks && n + 2 == blocks[ptr - 1].words
      requires r > 0 && r - 1 in blocks && blocks[r - 1].kind == Live && n + 2 <= blocks[r - 1].words
      requires ptr + n < mem.Length && r - 1 + blocks[r - 1].words <= mem.Length && (ptr + n < r || r + n < ptr)
      modifies mem
      ensures Valid() && Kept(old(mem[..]), mem[..], ptr - 1, r - 1, n + 2)
      ensures SamePayloads(old(mem[..]), mem[..], Without1(blocks, r - 1))
    {
      hide Sound, Listed, Chained, Housed, SamePayloads, Coalesced, NonePending, Without1, Kept;
      ghost var m := mem[..];
      forall i | 0 <= i < n {
        mem[r + i] := mem[ptr + i];
      }
      assert mem[..][r..r + n] == m[ptr..ptr + n];
      KeptIf(m, mem[..], ptr - 1, r - 1, n + 2);
      CopyFacts(m, mem[..], headBlock, freeListBitmap, blocks, lists, r - 1, n);
    }

    /** Grows a payload. It stays where it is if it is long enough; else what it held is at the start of a new one
        and the old one is taken back; and without memory for that nothing changes. No other payload moves or
        changes. Requests whose sums wrap are only promised anything if the payload is long enough already. */
    method ReallocHeapEx(ptr: nat, newSize: nat, grant: Grant) returns (r: nat)
      requires Valid() && (ptr != 0 ==> ptr - 1 in blocks && blocks[ptr - 1].kind == Live) && newSize < WORD
      requires newSize <= MAX_REQUEST ==> Granted(grant, chunks, mem.Length, SystemSize(RoundUpSize(newSize)))
      modifies mem, this
      ensures Promised(ptr, newSize, old(blocks)) ==> Valid()
      ensures Promised(ptr, newSize, old(blocks)) && r != 0 ==>
                r - 1 in blocks && blocks[r - 1].kind == Live && blocks[r - 1].Payload() >= newSize
      ensures Promised(ptr, newSize, old(blocks)) ==>
                (r == 0 <==>
                   || (ptr == 0 && newSize == 0)
                   || ((ptr == 0 || newSize > old(blocks)[ptr - 1].Payload())
                       && grant.NoMemory? && NoneFits(old(blocks), RoundUpSize(newSize))))
      ensures Promised(ptr, newSize, old(blocks)) && r == 0 ==>
                LiveKept(old(blocks), blocks) && SamePayloads(old(mem[..]), mem[..], old(blocks))
      ensures Promised(ptr, newSize, old(blocks)) && r != 0 ==>
                if ptr == 0 then NewLive(old(blocks), blocks, r - 1)
                else if newSize <= old(blocks)[ptr - 1].Payload() then r == ptr && LiveKept(old(blocks), blocks)
                else MovedLive(old(blocks), blocks, ptr - 1, r - 1)
      ensures Promised(ptr, newSize, old(blocks)) && r != 0 && ptr != 0 ==>
                Kept(old(mem[..]), mem[..], ptr - 1, r - 1, old(blocks)[ptr - 1].words)
      ensures Promised(ptr, newSize, old(blocks)) ==>
                SamePayloads(old(mem[..]), mem[..], if ptr == 0 then old(blocks) else Without1(old(blocks), ptr - 1))
      ensures Promised(ptr, newSize, old(blocks)) ==>
                outstandingAllocatedMemory
                == old(outstandingAllocatedMemory) + (if r == 0 then 0 else 4 * blocks[r - 1].words)
                   - (if r == 0 || ptr == 0 then 0 else 4 * old(blocks)[ptr - 1].words)
    {
      hide Sound, Listed, Chained, Housed, SamePayloads, LiveKept, Coalesced, NonePending, OnlyPending, Released,
           Granted, SystemSize,
           RoundUpSize, Without1, Kept, NewLive, MovedLive;
      ghost var blocks0, m0 := blocks, mem[..];
      if ptr == 0 {
        r := AllocHeapEx(newSize, grant);
        if newSize <= MAX_REQUEST {
          NewLiveIs(blocks0, blocks, r);
        }
        return;
      }
      NeighbourSize(mem[..], blocks, ptr - 1);
      BlockFits(mem[..], blocks, ptr - 1);
      var oldTotal := GetSize(ptr - 1);
      var oldPayload := oldTotal - METADATA_TOTAL;
      NothingChanged(mem[..], blocks);
      if newSize <= oldPayload {
        r := ptr;
        StillThere(mem[..], blocks, ptr - 1);
        return;
      }
      r := AllocHeapEx(newSize, grant);
      if newSize > MAX_REQUEST {
        // The sums have wrapped, and so may the heap be in any state.
        modify mem, this;
        return;
      }
      if r == 0 {
        FewerPayloads(m0, mem[..], blocks0, ptr - 1);
        return;
      }
      ghost var blocks1, m1 := blocks, mem[..];
      NewApart(m1, blocks0, blocks1, ptr - 1, r - 1);
      CopyPayload(ptr, r, oldPayload / 4);
      ghost var m2 := mem[..];
      FreeHeapEx(ptr);
      MovedFacts(m0, m1, m2, mem[..], blocks0, blocks1, blocks, ptr - 1, r - 1);
      MovedIs(blocks0, blocks1, blocks, ptr - 1, r - 1);
    }
  }

  /** A reallocation that is promised anything: its sums do not wrap, or are never made. */
  ghost predicate Promised(ptr: nat, newSize: nat, blocks: Blocks) {
    newSize <= MAX_REQUEST || (ptr != 0 && ptr - 1 in blocks && newSize <= blocks[ptr - 1].Payload())
  }

  /** Block r is given out in place of block s. */
  ghost predicate MovedLive(before: Blocks, after: Blocks, s: nat, r: nat) {
    && r != s && r in after && after[r].kind == Live && !(r in before && before[r].kind == Live)
    && !(s in after && after[s].kind == Live)
    && (forall t :: t in before && before[t].kind == Live && t != s ==> t in after && after[t] == before[t])
    && (forall t :: t in after && after[t].kind == Live && t != r ==> t in before && before[t] == after[t])
  }

  lemma MovedIs(before: Blocks, between: Blocks, after: Blocks, s: nat, r: nat)
    requires NewLive(before, between, r) && Released(between, after, s) && r != s && s in before
        && before[s].kind == Live
    ensures MovedLive(before, after, s, r)
  {
  }

  lemma FreeOnItsList(m: seq<int>, heads: seq<nat>, bits: seq<bool>, blocks: Blocks, lists: Lists, s: nat)
    requires Listed(blocks, lists) && Chained(m, heads, bits, lists) && s in blocks && blocks[s].kind == Free
    ensures var i := ListIndex(blocks[s]);
            && i < |lists| == |bits| == |heads| && s in lists[i] && Distinct(lists[i]) && bits[i]
            && forall j :: 0 <= j < |lists| && s in lists[j] ==> j == i
  {
    hide Linked, GetInsertionIndex;
  }

  lemma FreeApart(blocks: Blocks, s: nat)
    requires Joined(blocks) && Coalesced(blocks) && s in blocks && blocks[s].kind == Free
    ensures s + blocks[s].words in blocks && blocks[s + blocks[s].words].kind != Free
    ensures exists p: nat :: Precedes(blocks, p, s) && blocks[p].kind != Free
  {
    JoinedAt(blocks, s);
    var p: nat :| Precedes(blocks, p, s);
    hide Joined, Neighboured, HasPrev, Coalesced;
    NotBothFree(blocks, p);
  }

  lemma NotBothFree(blocks: Blocks, t: nat)
    requires Coalesced(blocks) && t in blocks && t + blocks[t].words in blocks
    ensures blocks[t].kind != Free || blocks[t + blocks[t].words].kind != Free
  {
  }

  lemma FreeTags(m: seq<int>, blocks: Blocks, s: nat)
    requires AllTagged(m, blocks) && s in blocks && blocks[s].kind == Free
    ensures s < |m| && m[s] % 2 == 0 && m[s] / 8 * 8 == 4 * blocks[s].words && blocks[s].Payload() >= 8
    ensures ListIndex(blocks[s]) == GetInsertionIndex(blocks[s].Payload())
  {
    hide GetInsertionIndex;
    assert Tagged(m, s, blocks[s]);
  }

  /** m' is m with the sizes of a chunk's parts written, the low bits of the heads as they were. */
  ghost predicate ChunkSized(m: seq<int>, m': seq<int>, base: nat, words: nat) {
    && words >= 8 && base + words <= |m| == |m'|
    && m'[base] == 8 + m[base] % 8 && m'[base + 1] == 8
    && m'[base + 2] == 4 * (words - 4) + m[base + 2] % 8 && m'[base + words - 3] == 4 * (words - 4)
    && m'[base + words - 2] == 8 + m[base + words - 2] % 8 && m'[base + words - 1] == 8
    && forall i :: 0 <= i < |m| && (i < base || i >= base + words || base + 4 < i < base + words - 3) ==> m'[i] == m[i]
  }

  function Fenced(x: int): int {
    x - x % 4 + x % 2 + 2
  }

  function Odd(x: int): int {
    x - x % 2 + 1
  }

  lemma ChunkMarked(m: seq<int>, m1: seq<int>, m': seq<int>, base: nat, words: nat)
    requires ChunkSized(m, m1, base, words) && words % 2 == 0 && words >= 8 && base + words <= |m| == |m1|
    requires m' == m1[base := Odd(Fenced(m1[base]))][base + words - 2 := Odd(Fenced(m1[base + words - 2]))]
                     [base + 2 := m1[base + 2] - m1[base + 2] % 2]
    ensures ChunkWritten(m, m', base, words)
  {
    hide ChunkSized, ChunkWritten, Fenced, Odd;
    ChunkHeads(m, m1, base, words);
    FenceBits(m1[base], 2);
    FenceBits(m1[base + 2], words - 4);
    FenceBits(m1[base + words - 2], 2);
    ChunkParts(m, m1, m', base, words);
  }

  lemma ChunkHeads(m: seq<int>, m1: seq<int>, base: nat, words: nat)
    requires ChunkSized(m, m1, base, words) && words % 2 == 0
    ensures m1[base] / 8 * 8 == 8 && m1[base + 2] / 8 * 8 == 4 * (words - 4) && m1[base + words - 2] / 8 * 8 == 8
  {
    TagSize(2, m[base] % 8);
    TagSize(words - 4, m[base + 2] % 8);
    TagSize(2, m[base + words - 2] % 8);
  }

  lemma ChunkParts(m: seq<int>, m1: seq<int>, m': seq<int>, base: nat, words: nat)
    requires ChunkSized(m, m1, base, words) && |m'| == |m1|
    requires m'[base] / 8 * 8 == 8 && m'[base] % 2 == 1
    requires m'[base + words - 2] / 8 * 8 == 8 && m'[base + words - 2] % 2 == 1
    requires m'[base + 2] / 8 * 8 == 4 * (words - 4) && m'[base + 2] % 2 == 0
    requires forall i :: 0 <= i < |m| && i != base && i != base + 2 && i != base + words - 2 ==> m'[i] == m1[i]
    ensures ChunkWritten(m, m', base, words)
  {
  }

  predicate LongEnough(blocks: Blocks, s: nat, size: nat) {
    s in blocks && blocks[s].Payload() >= size
  }

  /** The list has a block that is long enough. */
  predicate HoldsOne(blocks: Blocks, list: seq<nat>, size: nat) {
    exists j :: 0 <= j < |list| && LongEnough(blocks, list[j], size)
  }

  /** No free block is large enough to be certain of being found for the request. */
  ghost predicate NoneFits(blocks: Blocks, size: nat) {
    forall s :: s in blocks && blocks[s].kind == Free ==> blocks[s].Payload() < SureFit(size)
  }

  /** Block s no longer lives, and every other live block is as before. */
  ghost predicate Released(before: Blocks, after: Blocks, s: nat) {
    && !(s in after && after[s].kind == Live)
    && (forall t :: t in before && before[t].kind == Live && t != s ==> t in after && after[t] == before[t])
    && (forall t :: t in after && after[t].kind == Live ==> t in before && before[t] == after[t])
  }

  function Without1(blocks: Blocks, s: nat): Blocks {
    blocks - {s}
  }

  /** The payload of block s is now at the start of the payload of block r. */
  ghost predicate Kept(m: seq<int>, m': seq<int>, s: nat, r: nat, words: nat) {
    && words >= 2 && s + words <= |m| && r + words <= |m'|
    && m'[r + 1..r + words - 1] == m[s + 1..s + words - 1]
  }

  /** m' is m with a chunk's tags written over the words from base on. */
  ghost predicate ChunkWritten(m: seq<int>, m': seq<int>, base: nat, words: nat) {
    && words >= 8 && base + words <= |m| == |m'|
    && m'[base] / 8 == 1 && m'[base] % 2 == 1 && m'[base + 1] == 8
    && m'[base + 2] / 8 * 8 == 4 * (words - 4) && m'[base + 2] % 2 == 0 && m'[base + words - 3] == 4 * (words - 4)
    && m'[base + words - 2] / 8 == 1 && m'[base + words - 2] % 2 == 1 && m'[base + words - 1] == 8
    && forall i :: 0 <= i < |m| && (i < base || i >= base + words || base + 4 < i < base + words - 3) ==> m'[i] == m[i]
  }

  lemma NoLiveWords(upto: nat)
    ensures LiveWords(map[], upto) == 0
  {
  }

  /** What RemoveBlock reads, and what the memory it leaves behind satisfies. */
  lemma RemoveFacts(m: seq<int>, heads: seq<nat>, bits: seq<bool>, blocks: Blocks, lists: Lists, chunks: Chunks,
                    idx: nat, k: nat)
    requires Sound(m, blocks) && Listed(blocks, lists) && Chained(m, heads, bits, lists) && Housed(blocks, chunks)
    requires idx < |lists| && k < |lists[idx]|
    ensures Linked(m, lists[idx]) && |heads| == |bits| == |lists|
    ensures var l := lists[idx]; var s := l[k];
            && s in blocks && s + 4 <= |m| && m[s + 1] == NextOf(l, k) && m[s + 2] == PrevOf(l, k)
            && (k > 0 ==> l[k - 1] > 0 && l[k - 1] + 4 <= |m|)
            && (k + 1 < |l| ==> l[k + 1] > 0 && l[k + 1] + 4 <= |m|)
    ensures var l := lists[idx]; var s := l[k]; var m' := Unlinked(m, l, k);
            && Sound(m', InHand(blocks, s)) && Listed(InHand(blocks, s), lists[idx := Without(l, k)])
            && Chained(m', UnlinkedHeads(heads, idx, l, k), UnlinkedBits(bits, idx, l), lists[idx := Without(l, k)])
            && Housed(InHand(blocks, s), chunks) && SamePayloads(m, m', blocks)
  {
    var l := lists[idx];
    var s := l[k];
    assert s in lists[idx];
    assert LinkedAt(m, l, k);
    assert k > 0 ==> LinkedAt(m, l, k - 1);
    assert k + 1 < |l| ==> LinkedAt(m, l, k + 1);
    assert !blocks[s].Fence();
    hide Sound, Listed, Chained, Housed, Linked, Spread, Unlinked, Without;
    ListsSpread(m, blocks, lists);
    ListedRemove(blocks, lists, idx, k);
    ChainedRemove(m, heads, bits, lists, idx, k);
    UnlinkOnlyLinks(m, blocks, lists, idx, k);
    LinksKeepTags(m, Unlinked(m, l, k), blocks);
    PendingSound(Unlinked(m, l, k), blocks, s);
    HousedRekind(blocks, chunks, s, Pending);
  }

  // ---- Coalescing ----

  lemma FreeOutside(m: seq<int>, blocks: Blocks, p: nat, words: nat, t: nat)
    requires Mergeable(m, blocks, p, words) && t in blocks && blocks[t].kind == Free
    ensures t + 4 <= p || p + words <= t
  {
    hide Joined, Apart;
    MergeOutside(m, blocks, p, words, t);
    assert Tagged(m, t, blocks[t]);
  }

  lemma ListedMerged(m: seq<int>, blocks: Blocks, lists: Lists, p: nat, words: nat)
    requires Listed(blocks, lists) && Mergeable(m, blocks, p, words)
    ensures Listed(Merged(blocks, p, words), lists)
  {
    hide Sound, ListIndex;
    var after := Merged(blocks, p, words);
    forall i, t | 0 <= i < |lists| && t in lists[i]
      ensures t in after && after[t].kind == Free && ListIndex(after[t]) == i
    {
    }
  }

  /** m' is m but for the tags of a block of that length at p, and the two link words of p. */
  ghost predicate Overwritten(m: seq<int>, m': seq<int>, p: nat, words: nat) {
    && words >= 4 && p + words <= |m| == |m'|
    && m'[p] / 8 * 8 == 4 * words && m'[p + words - 1] == 4 * words
    && forall i :: 0 <= i < |m| && i != p && i != p + 1 && i != p + 2 && i != p + words - 1 ==> m'[i] == m[i]
  }

  lemma RetagDiff(m: seq<int>, m': seq<int>, p: nat, words: nat)
    requires Overwritten(m, m', p, words)
    ensures forall i :: 0 <= i < |m| && m'[i] != Retagged(m, p, words, m'[p] % 8)[i] ==> i == p + 1 || i == p + 2
  {
  }

  lemma LinksOfPending(m: seq<int>, m': seq<int>, blocks: Blocks, p: nat)
    requires |m'| == |m| && p in blocks && blocks[p].kind == Pending
    requires forall i :: 0 <= i < |m| && m'[i] != m[i] ==> i == p + 1 || i == p + 2
    ensures OnlyLinks(m, m', blocks)
  {
    forall i | 0 <= i < |m| && m'[i] != m[i]
      ensures exists t :: LinkWord(blocks, t, i)
    {
      assert LinkWord(blocks, p, i);
    }
  }

  lemma CoalesceSound(m: seq<int>, m': seq<int>, blocks: Blocks, p: nat, words: nat)
    requires Mergeable(m, blocks, p, words) && Overwritten(m, m', p, words)
    ensures Sound(m', Merged(blocks, p, words)) && SamePayloads(m, m', blocks)
  {
    var after := Merged(blocks, p, words);
    assert after[p].kind == Pending;
    hide Sound, Mergeable, SamePayloads, Retagged, Merged, OnlyLinks;
    MergeKeeps(m, blocks, p, words, m'[p] % 8);
    var m1 := Retagged(m, p, words, m'[p] % 8);
    RetagDiff(m, m', p, words);
    LinksOfPending(m1, m', after, p);
    LinksKeepTags(m1, m', after);
    MergedLive(m, blocks, p, words);
    SamePayloadsTrans(m, m1, m', blocks, after);
  }

  lemma CoalesceChained(m: seq<int>, m': seq<int>, heads: seq<nat>, bits: seq<bool>, blocks: Blocks, lists: Lists,
                        p: nat, words: nat)
    requires Listed(blocks, lists) && Chained(m, heads, bits, lists)
    requires Mergeable(m, blocks, p, words) && Overwritten(m, m', p, words)
    ensures Chained(m', heads, bits, lists)
  {
    hide Sound, Listed, Chained, Mergeable, Overwritten;
    OverwrittenRange(m, m', p, words);
    forall j, t | 0 <= j < |lists| && t in lists[j] && t + 4 <= |m|
      ensures m'[t + 1] == m[t + 1] && m'[t + 2] == m[t + 2]
    {
      ListedFree(blocks, lists, j, t);
      FreeOutside(m, blocks, p, words, t);
    }
    ChainedFrame(m, m', heads, bits, lists);
  }

  lemma OverwrittenRange(m: seq<int>, m': seq<int>, p: nat, words: nat)
    requires Overwritten(m, m', p, words)
    ensures |m'| == |m| && forall i :: 0 <= i < |m| && (i < p || p + words <= i) ==> m'[i] == m[i]
  {
  }

  /** Writing the tags (and links) of a joined block over blocks in hand. */
  lemma CoalesceFacts(m: seq<int>, m': seq<int>, heads: seq<nat>, bits: seq<bool>, blocks: Blocks, lists: Lists,
                      chunks: Chunks, p: nat, words: nat)
    requires Listed(blocks, lists) && Chained(m, heads, bits, lists) && Housed(blocks, chunks)
    requires Mergeable(m, blocks, p, words) && Overwritten(m, m', p, words)
    ensures p in blocks
    ensures var after := Merged(blocks, p, words);
            && Sound(m', after) && Listed(after, lists) && Chained(m', heads, bits, lists)
            && Housed(after, chunks) && SamePayloads(m, m', blocks)
  {
    assert p in blocks;
    hide Sound, Listed, Chained, Housed, Mergeable, Merged, SamePayloads, Overwritten;
    CoalesceSound(m, m', blocks, p, words);
    ListedMerged(m, blocks, lists, p, words);
    HousedMerge(m, blocks, chunks, p, words);
    CoalesceChained(m, m', heads, bits, blocks, lists, p, words);
  }

  lemma ListedFree(blocks: Blocks, lists: Lists, j: nat, t: nat)
    requires Listed(blocks, lists) && j < |lists| && t in lists[j]
    ensures t in blocks && blocks[t].kind == Free
  {
  }

  lemma MergedLive(m: seq<int>, blocks: Blocks, p: nat, words: nat)
    requires Mergeable(m, blocks, p, words)
    ensures forall t :: t in blocks && blocks[t].kind == Live ==>
              t in Merged(blocks, p, words) && Merged(blocks, p, words)[t] == blocks[t]
    ensures LiveKept(blocks, Merged(blocks, p, words))
  {
    hide Sound;
  }

  lemma MergedCoalesced(m: seq<int>, blocks: Blocks, p: nat, words: nat)
    requires Mergeable(m, blocks, p, words) && Coalesced(blocks)
    ensures Coalesced(Merged(blocks, p, words))
    ensures OnlyPending(Merged(blocks, p, words), p) <==>
            forall t :: t in blocks && blocks[t].kind == Pending && !Inner(p, words, t) ==> t == p
  {
    hide Sound;
    var after := Merged(blocks, p, words);
    forall t | t in after && after[t].kind == Pending && t != p
      ensures t in blocks && blocks[t].kind == Pending && !Inner(p, words, t)
    {
    }
    forall t | t in blocks && blocks[t].kind == Pending && !Inner(p, words, t) && t != p
      ensures t in after && after[t].kind == Pending
    {
    }
  }

  lemma TagFacts(m: seq<int>, blocks: Blocks, t: nat)
    requires AllTagged(m, blocks) && t in blocks
    ensures 0 < t && t + blocks[t].words <= |m| && blocks[t].words >= 2 && blocks[t].words % 2 == 0
    ensures !blocks[t].Fence() ==> blocks[t].words >= 4
    ensures m[t] / 8 * 8 == 4 * blocks[t].words && m[t + blocks[t].words - 1] == 4 * blocks[t].words
    ensures blocks[t].kind != Pending ==> (m[t] % 2 == 1 <==> blocks[t].kind != Free)
  {
    assert Tagged(m, t, blocks[t]);
  }

  /** What the tags next to a block say about its neighbours. */
  lemma Neighbours(m: seq<int>, blocks: Blocks, s: nat) returns (p: nat, n: nat)
    requires Sound(m, blocks) && s in blocks && !blocks[s].Fence() && OnlyPending(blocks, s)
    ensures n == s + blocks[s].words && n in blocks && n < |m| && blocks[n].kind != LeftFence && n != s
    ensures s > 0 && s < |m| && p in blocks && p + blocks[p].words == s && p < s && m[s - 1] == 4 * blocks[p].words
    ensures m[p] % 2 == 1 <==> blocks[p].kind != Free
    ensures m[n] % 2 == 1 <==> blocks[n].kind != Free
    ensures m[s] / 8 * 8 == 4 * blocks[s].words && blocks[s].words >= 4 && blocks[s].words % 2 == 0
    ensures m[p] / 8 * 8 == 4 * blocks[p].words && blocks[p].words % 2 == 0
    ensures m[n] / 8 * 8 == 4 * blocks[n].words && blocks[n].words % 2 == 0 && n + blocks[n].words <= |m|
  {
    n := s + blocks[s].words;
    p := BlockBefore(m, blocks, s);
    NextBlock(m, blocks, s);
    hide Sound;
    TagFactsOf(m, blocks, s);
    TagFactsOf(m, blocks, n);
    TagFactsOf(m, blocks, p);
  }

  lemma TagFactsOf(m: seq<int>, blocks: Blocks, t: nat)
    requires Sound(m, blocks) && t in blocks
    ensures 0 < t && t + blocks[t].words <= |m| && blocks[t].words >= 2 && blocks[t].words % 2 == 0
    ensures !blocks[t].Fence() ==> blocks[t].words >= 4
    ensures m[t] / 8 * 8 == 4 * blocks[t].words && m[t + blocks[t].words - 1] == 4 * blocks[t].words
    ensures blocks[t].kind != Pending ==> (m[t] % 2 == 1 <==> blocks[t].kind != Free)
  {
    hide Joined, Apart;
    TagFacts(m, blocks, t);
  }

  lemma BlockBefore(m: seq<int>, blocks: Blocks, s: nat) returns (p: nat)
    requires Sound(m, blocks) && s in blocks && !blocks[s].Fence()
    ensures p in blocks && p + blocks[p].words == s
  {
    hide Apart, AllTagged;
    JoinedAt(blocks, s);
    p :| Precedes(blocks, p, s);
  }

  /** What InsertBlock reads. */
  lemma InsertReads(m: seq<int>, heads: seq<nat>, bits: seq<bool>, blocks: Blocks, lists: Lists, s: nat, idx: nat)
    requires Sound(m, blocks) && Listed(blocks, lists) && Chained(m, heads, bits, lists)
    requires s in blocks && blocks[s].kind == Pending && idx < |lists|
    ensures 0 < s && s + 4 <= |m| && FarFrom(lists, s) && Spread(lists)
    ensures |heads| == |bits| == |lists| && Linked(m, lists[idx]) && heads[idx] == HeadOf(lists[idx])
    ensures var l := lists[idx]; l != [] ==> l[0] > 0 && l[0] + 4 <= |m| && (s + 4 <= l[0] || l[0] + 4 <= s)
  {
    hide Sound, Spread;
    var l := lists[idx];
    PendingFar(m, blocks, lists, s);
    ListsSpread(m, blocks, lists);
    assert Linked(m, l) && heads[idx] == HeadOf(l);
    assert l != [] ==> l[0] in lists[idx] && LinkedAt(m, l, 0);
  }

  lemma LowBits(x: int)
    ensures (x - x % 2) / 8 == x / 8 && (x - x % 2) % 2 == 0
    ensures (x - x % 2 + 1) / 8 == x / 8 && (x - x % 2 + 1) % 2 == 1
  {
    var q, r := x / 8, x % 8;
    var e := if r % 2 == 1 then r - 1 else r;
    assert x == 8 * q + r;
    Eighths(q, e);
    Eighths(q, e + 1);
    assert x % 2 == r % 2 by { Eighths(q, r); }
    assert x - x % 2 == 8 * q + e;
  }

  lemma InsertSound(m: seq<int>, m1: seq<int>, m': seq<int>, blocks: Blocks, lists: Lists, s: nat, idx: nat)
    requires Sound(m, blocks) && Listed(blocks, lists) && idx < |lists| && Linked(m, lists[idx])
    requires s in blocks && blocks[s].kind == Pending && 0 < s && s + 4 <= |m|
    requires m1 == PushedLinks(m, lists[idx], s) && m' == m1[s := m1[s] - m1[s] % 2]
    ensures Sound(m1, blocks) && Sound(m', OnList(blocks, s)) && SamePayloads(m, m', blocks)
  {
    hide Sound, Listed, Linked, SamePayloads, PushedLinks, OnlyLinks;
    PushOnlyLinks(m, blocks, lists, idx, s);
    LinksKeepTags(m, m1, blocks);
    LowBits(m1[s]);
    Rekind(m1, m', blocks, s, Free, m1[s] - m1[s] % 2);
    SamePayloadsTrans(m, m1, m', blocks, blocks);
  }

  /** What the memory InsertBlock leaves behind satisfies. */
  lemma InsertFacts(m: seq<int>, m1: seq<int>, m': seq<int>, heads: seq<nat>, bits: seq<bool>, blocks: Blocks,
                    lists: Lists, chunks: Chunks, s: nat, idx: nat)
    requires Sound(m, blocks) && Listed(blocks, lists) && Chained(m, heads, bits, lists) && Housed(blocks, chunks)
    requires s in blocks && blocks[s].kind == Pending && idx == ListIndex(blocks[s]) < |lists|
    requires 0 < s && s + 4 <= |m| && Linked(m, lists[idx]) && FarFrom(lists, s) && Spread(lists)
    requires |heads| == |bits| == |lists|
    requires m1 == PushedLinks(m, lists[idx], s) && m' == m1[s := m1[s] - m1[s] % 2]
    ensures Sound(m', OnList(blocks, s)) && Listed(OnList(blocks, s), lists[idx := [s] + lists[idx]])
    ensures Chained(m', heads[idx := s], bits[idx := true], lists[idx := [s] + lists[idx]])
    ensures Housed(OnList(blocks, s), chunks) && SamePayloads(m, m', blocks)
  {
    hide Sound, Listed, Chained, Housed, Linked, Spread, FarFrom, SamePayloads, ListIndex, PushedLinks;
    InsertSound(m, m1, m', blocks, lists, s, idx);
    ChainedPush(m, heads, bits, lists, idx, s);
    ListedPush(blocks, lists, s);
    HousedRekind(blocks, chunks, s, Free);
    InsertChained(m1, heads, bits, blocks, lists, s, m1[s] - m1[s] % 2);
  }

  lemma InsertChained(m1: seq<int>, heads: seq<nat>, bits: seq<bool>, blocks: Blocks, lists: Lists, s: nat, head: int)
    requires Sound(m1, blocks) && Listed(blocks, lists) && s in blocks && blocks[s].kind == Pending && s < |m1|
    requires ListIndex(blocks[s]) < |lists| && |heads| == |bits| == |lists|
    requires var idx := ListIndex(blocks[s]); Chained(m1, heads[idx := s], bits[idx := true],
        lists[idx := [s] + lists[idx]])
    ensures var idx := ListIndex(blocks[s]);
            Chained(m1[s := head], heads[idx := s], bits[idx := true], lists[idx := [s] + lists[idx]])
  {
    hide Chained, ListIndex, Joined;
    var idx := ListIndex(blocks[s]);
    var lists' := lists[idx := [s] + lists[idx]];
    assert Tagged(m1, s, blocks[s]);
    forall j, t | 0 <= j < |lists'| && t in lists'[j] && t + 4 <= |m1|
      ensures m1[s := head][t + 1] == m1[t + 1] && m1[s := head][t + 2] == m1[t + 2]
    {
      if t != s {
        assert t in lists[j];
        assert Tagged(m1, t, blocks[t]);
        OtherTag(blocks, s, t);
      }
    }
    ChainedFrame(m1, m1[s := head], heads[idx := s], bits[idx := true], lists');
  }

  lemma OnItsList(blocks: Blocks, lists: Lists, s: nat) returns (k: nat)
    requires Listed(blocks, lists) && s in blocks && blocks[s].kind == Free
    ensures ListIndex(blocks[s]) < |lists| && k < |lists[ListIndex(blocks[s])]| && lists[ListIndex(blocks[s])][k] == s
  {
    hide ListIndex;
    k :| 0 <= k < |lists[ListIndex(blocks[s])]| && lists[ListIndex(blocks[s])][k] == s;
  }

  lemma ListIndexOk(blocks: Blocks, lists: Lists, b: Block)
    requires Listed(blocks, lists)
    ensures ListIndex(b) < |lists|
  {
    hide GetInsertionIndex;
    if b.Payload() >= 0 {
      InsertionIndexInTable(b.Payload());
    }
  }

  /** Listing a block whose neighbours are not free leaves nothing to coalesce. */
  lemma InsertDone(m: seq<int>, blocks: Blocks, s: nat, p: nat, n: nat)
    requires Sound(m, blocks) && s in blocks && blocks[s].kind == Pending && OnlyPending(blocks, s) && Coalesced(blocks)
    requires Precedes(blocks, p, s) && blocks[p].kind != Free && p < s
    requires n == s + blocks[s].words && n in blocks && blocks[n].kind != Free
    ensures Coalesced(OnList(blocks, s)) && NonePending(OnList(blocks, s)) && LiveKept(blocks, OnList(blocks, s))
  {
    hide Sound, Precedes;
    var after := OnList(blocks, s);
    assert p in blocks by { PrecedesIn(blocks, p, s); }
    forall t | t in after && after[t].kind == Free && t + after[t].words in after
      ensures after[t + after[t].words].kind != Free
    {
      if t + after[t].words == s && t != s {
        PrevUnique(m, blocks, p, t, s);
      } else if t == s {
        assert after[t].words == blocks[s].words;
        PrecedesSelf(m, blocks, s);
      }
    }
  }

  lemma PrecedesIn(blocks: Blocks, p: nat, s: nat)
    requires Precedes(blocks, p, s)
    ensures p in blocks
  {
  }

  lemma PrecedesSelf(m: seq<int>, blocks: Blocks, s: nat)
    requires Sound(m, blocks) && s in blocks
    ensures s + blocks[s].words != s
  {
    TagFacts(m, blocks, s);
  }

  lemma PrevUnique(m: seq<int>, blocks: Blocks, p: nat, t: nat, s: nat)
    requires Sound(m, blocks) && Precedes(blocks, p, s) && t in blocks && t + blocks[t].words == s
    ensures t == p
  {
    TagFacts(m, blocks, t);
    TagFacts(m, blocks, p);
    if t != p { OtherTag(blocks, t, p); }
  }

  lemma NeighbourSize(m: seq<int>, blocks: Blocks, s: nat)
    requires Sound(m, blocks) && s in blocks && !blocks[s].Fence()
    ensures s < |m| && m[s] / 8 * 8 == 4 * blocks[s].words && blocks[s].words >= 4
  {
    TagFacts(m, blocks, s);
  }

  lemma LiveKeptTrans(m: seq<int>, m1: seq<int>, m2: seq<int>, blocks: Blocks, blocks1: Blocks, blocks2: Blocks)
    requires LiveKept(blocks, blocks1) && LiveKept(blocks1, blocks2)
    requires SamePayloads(m, m1, blocks) && SamePayloads(m1, m2, blocks1)
    ensures LiveKept(blocks, blocks2) && SamePayloads(m, m2, blocks)
  {
  }

  lemma HandKept(blocks: Blocks, s: nat)
    requires s in blocks && blocks[s].kind == Free
    ensures LiveKept(blocks, InHand(blocks, s))
    ensures Coalesced(blocks) ==> Coalesced(InHand(blocks, s))
  {
  }

  lemma InnerOfTwo(m: seq<int>, blocks: Blocks, p: nat, s: nat, t: nat)
    requires Sound(m, blocks) && Precedes(blocks, p, s) && s in blocks && t in blocks
    requires Inner(p, blocks[p].words + blocks[s].words, t)
    ensures t == s
  {
    if t < s {
      OtherTag(blocks, p, t);
    } else if t > s {
      OtherTag(blocks, s, t);
    }
  }

  lemma NextBlock(m: seq<int>, blocks: Blocks, s: nat)
    requires Sound(m, blocks) && s in blocks && !blocks[s].Fence()
    ensures var n := s + blocks[s].words; n in blocks && blocks[n].kind != LeftFence && n < |m|
  {
    hide Apart;
    JoinedAt(blocks, s);
    TagFacts(m, blocks, s + blocks[s].words);
  }

  /** Two neighbouring blocks in hand can be joined. */
  lemma Mergeable2(m: seq<int>, blocks: Blocks, p: nat, s: nat, words: nat)
    requires Sound(m, blocks) && Precedes(blocks, p, s) && s in blocks && words == blocks[p].words + blocks[s].words
    requires blocks[p].kind == Pending && blocks[s].kind == Pending
    ensures Mergeable(m, blocks, p, words) && p + words <= |m| && words >= 4 && words % 2 == 0
  {
    hide AllTagged, Apart, Joined;
    TagFacts(m, blocks, p);
    TagFacts(m, blocks, s);
    NextBlock(m, blocks, s);
    forall t | t in blocks && Inner(p, words, t)
      ensures blocks[t].kind == Pending
    {
      InnerOfTwo(m, blocks, p, s, t);
    }
  }

  lemma NextInner(m: seq<int>, blocks: Blocks, p: nat, s: nat, words: nat)
    requires Sound(m, blocks) && Precedes(blocks, p, s) && s in blocks && words == blocks[p].words + blocks[s].words
    ensures Inner(p, words, s)
  {
    TagFacts(m, blocks, p);
    TagFacts(m, blocks, s);
  }

  /** Three neighbouring blocks in hand can be joined. */
  lemma Mergeable3(m: seq<int>, blocks: Blocks, p: nat, s: nat, n: nat, words: nat)
    requires Sound(m, blocks) && Precedes(blocks, p, s) && Precedes(blocks, s, n) && n in blocks
    requires words == blocks[p].words + blocks[s].words + blocks[n].words
    requires blocks[p].kind == Pending && blocks[s].kind == Pending && blocks[n].kind == Pending
    ensures Mergeable(m, blocks, p, words) && p + words <= |m| && words >= 4 && words % 2 == 0
    ensures Inner(p, words, s) && Inner(p, words, n)
  {
    hide AllTagged, Apart, Joined;
    TagFacts(m, blocks, p);
    TagFacts(m, blocks, s);
    TagFacts(m, blocks, n);
    NextBlock(m, blocks, n);
    forall t | t in blocks && Inner(p, words, t)
      ensures blocks[t].kind == Pending
    {
      if t < n {
        InnerOfTwo(m, blocks, p, s, t);
      } else if t > n {
        InnerOfTwo(m, blocks, s, n, t);
      }
    }
  }

  /** Every block in hand lies in the range, so that joining the range leaves one. */
  ghost predicate AllInside(blocks: Blocks, p: nat, words: nat) {
    forall t :: t in blocks && blocks[t].kind == Pending ==> t == p || Inner(p, words, t)
  }

  lemma MergedSmaller(blocks: Blocks, p: nat, words: nat, s: nat)
    requires p in blocks && s in blocks && Inner(p, words, s)
    ensures |Merged(blocks, p, words)| < |blocks|
  {
    var after := Merged(blocks, p, words);
    assert after.Keys <= blocks.Keys - {s};
    KeysFit(after.Keys, blocks.Keys - {s});
    assert |blocks.Keys - {s}| == |blocks.Keys| - 1;
  }

  lemma KeysFit(a: set<nat>, b: set<nat>)
    requires a <= b
    ensures |a| <= |b|
  {
    if a != {} {
      var x :| x in a;
      KeysFit(a - {x}, b - {x});
    }
  }

  // ---- Giving out ----

  lemma RetaggedWords(m: seq<int>, s: nat, words: nat, low: nat)
    requires words >= 2 && s + words <= |m| && low < 8
    ensures var m' := Retagged(m, s, words, low);
            && m'[s] == 4 * words + low && m'[s + words - 1] == 4 * words
            && forall i :: 0 <= i < |m| && i != s && i != s + words - 1 ==> m'[i] == m[i]
  {
  }

  /** The blocks once the block in hand is given out. */
  function Given(blocks: Blocks, s: nat): Blocks
    requires s in blocks
  {
    blocks[s := blocks[s].(kind := Live)]
  }

  /** What is left of a block and what is given out are whole pairs of words, and enough to be blocks. */
  lemma EvenShares(words: nat, size: nat)
    requires words % 2 == 0 && size % 8 == 0 && size >= 8
    requires 4 * words - (size + METADATA_TOTAL) >= MIN_REQ_SIZE + METADATA_TOTAL
    ensures var first, rest := (4 * words - (size + METADATA_TOTAL)) / 4, (size + METADATA_TOTAL) / 4;
            first >= 4 && first % 2 == 0 && rest >= 4 && rest % 2 == 0 && first + rest == words
  {
  }

  lemma BlockFits(m: seq<int>, blocks: Blocks, s: nat)
    requires Sound(m, blocks) && s in blocks
    ensures 0 < s && s + blocks[s].words <= |m| && blocks[s].words % 2 == 0 && blocks[s].words >= 2
  {
    TagFacts(m, blocks, s);
  }

  /** Rewriting a block's own size changes nothing. */
  lemma TagsThere(m: seq<int>, blocks: Blocks, s: nat)
    requires Sound(m, blocks) && s in blocks && blocks[s].words >= 2 && s + blocks[s].words <= |m|
    ensures Retagged(m, s, blocks[s].words, m[s] % 8) == m
  {
    hide Sound, Tagged, AllTagged;
    assert AllTagged(m, blocks) by { TagsOf(m, blocks); }
    TagFacts(m, blocks, s);
    var words := blocks[s].words;
    assert 4 * words + m[s] % 8 == m[s];
    assert m[s := m[s]] == m;
    assert m[s + words - 1 := m[s + words - 1]] == m;
  }

  lemma TagsOf(m: seq<int>, blocks: Blocks)
    requires Sound(m, blocks)
    ensures AllTagged(m, blocks)
  {
  }

  lemma HandAlone(blocks: Blocks, s: nat)
    requires NonePending(blocks) && s in blocks
    ensures OnlyPending(InHand(blocks, s), s)
  {
  }

  lemma GiveFacts(m: seq<int>, m': seq<int>, heads: seq<nat>, bits: seq<bool>, blocks: Blocks, lists: Lists,
                  chunks: Chunks, s: nat)
    requires Sound(m, blocks) && Listed(blocks, lists) && Chained(m, heads, bits, lists) && Housed(blocks, chunks)
    requires s in blocks && blocks[s].kind == Pending && s < |m| && m' == m[s := m[s] - m[s] % 2 + 1]
    ensures Sound(m', Given(blocks, s)) && Listed(Given(blocks, s), lists) && Chained(m', heads, bits, lists)
    ensures Housed(Given(blocks, s), chunks) && SamePayloads(m, m', blocks)
  {
    hide Sound, Chained, Housed, SamePayloads, ListIndex;
    LowBits(m[s]);
    Rekind(m, m', blocks, s, Live, m[s] - m[s] % 2 + 1);
    HousedRekind(blocks, chunks, s, Live);
    HeadWordFrame(m, heads, bits, blocks, lists, s, m[s] - m[s] % 2 + 1);
    GivenListed(blocks, lists, s);
  }

  lemma GivenListed(blocks: Blocks, lists: Lists, s: nat)
    requires Listed(blocks, lists) && s in blocks && blocks[s].kind == Pending
    ensures Listed(Given(blocks, s), lists)
  {
    hide ListIndex;
  }

  lemma HeadWordFrame(m: seq<int>, heads: seq<nat>, bits: seq<bool>, blocks: Blocks, lists: Lists, s: nat, head: int)
    requires Sound(m, blocks) && Listed(blocks, lists) && Chained(m, heads, bits, lists)
    requires s in blocks && blocks[s].kind == Pending && s < |m|
    ensures Chained(m[s := head], heads, bits, lists)
  {
    hide Sound, Listed, Chained;
    PendingFar(m, blocks, lists, s);
    ChainedFrame(m, m[s := head], heads, bits, lists);
  }

  lemma GivenDone(blocks: Blocks, s: nat)
    requires s in blocks && blocks[s].kind == Free && Coalesced(blocks) && NonePending(blocks)
    ensures s in InHand(blocks, s)
    ensures var after := Given(InHand(blocks, s), s);
            Coalesced(after) && NonePending(after) && NewLive(blocks, after, s) && after[s].words == blocks[s].words
  {
  }

  lemma HandPayloads(m: seq<int>, m1: seq<int>, m2: seq<int>, blocks: Blocks, s: nat)
    requires s in blocks && blocks[s].kind == Free
    requires SamePayloads(m, m1, blocks) && SamePayloads(m1, m2, InHand(blocks, s))
    ensures SamePayloads(m, m2, blocks)
  {
    hide SamePayloads;
    SamePayloadsTrans(m, m1, m2, blocks, InHand(blocks, s));
  }

  lemma NewLiveHand(blocks: Blocks, after: Blocks, s: nat, r: nat)
    requires s in blocks && blocks[s].kind == Free && NewLive(InHand(blocks, s), after, r)
    ensures NewLive(blocks, after, r)
  {
    var hand := InHand(blocks, s);
    forall t | t in blocks && blocks[t].kind == Live
      ensures t in after && after[t] == blocks[t]
    {
      assert t in hand && hand[t] == blocks[t];
    }
    forall t | t in after && after[t].kind == Live && t != r
      ensures t in blocks && blocks[t] == after[t]
    {
      assert t in hand && hand[t] == after[t];
    }
  }

  lemma NewLiveThen(m: seq<int>, m1: seq<int>, m2: seq<int>, blocks: Blocks, blocks1: Blocks, blocks2: Blocks, r: nat)
    requires NewLive(blocks, blocks1, r) && LiveKept(blocks1, blocks2)
    requires SamePayloads(m, m1, blocks) && SamePayloads(m1, m2, blocks1)
    ensures NewLive(blocks, blocks2, r) && r in blocks1 && r in blocks2 && blocks2[r] == blocks1[r]
    ensures SamePayloads(m, m2, blocks)
  {
    SamePayloadsTrans(m, m1, m2, blocks, blocks1);
  }

  lemma CuttableHere(m: seq<int>, blocks: Blocks, s: nat, first: nat)
    requires Sound(m, blocks) && s in blocks && blocks[s].kind == Pending
    requires first >= 4 && first % 2 == 0 && first + 4 <= blocks[s].words
    ensures Cuttable(m, blocks, s, first)
  {
  }

  /** m' is m with the tags of a block of `first` words at s and a given-out one of `rest` words after it. */
  ghost predicate SplitWritten(m: seq<int>, m': seq<int>, s: nat, first: nat, rest: nat) {
    && first >= 4 && rest >= 4 && s + first + rest <= |m| == |m'|
    && m'[s] / 8 * 8 == 4 * first && m'[s] % 2 == 0 && m'[s + first - 1] == 4 * first
    && m'[s + first] / 8 * 8 == 4 * rest && m'[s + first] % 2 == 1 && m'[s + first + rest - 1] == 4 * rest
    && forall i :: 0 <= i < |m| && i != s && i != s + first - 1 && i != s + first && i != s + first + rest - 1 ==>
        m'[i] == m[i]
  }

  lemma SplitRetagged(m: seq<int>, m': seq<int>, s: nat, first: nat, rest: nat)
    requires SplitWritten(m, m', s, first, rest)
    ensures m' == Retagged(Retagged(m, s, first, m'[s] % 8), s + first, rest, m'[s + first] % 8)
  {
    assert m'[s] == 4 * first + m'[s] % 8;
    assert m'[s + first] == 4 * rest + m'[s + first] % 8;
  }

  lemma OddLow(x: int)
    ensures x % 8 % 2 == x % 2
  {
    Eighths(x / 8, x % 8);
  }

  lemma CutFacts(m: seq<int>, m': seq<int>, heads: seq<nat>, bits: seq<bool>, blocks: Blocks, lists: Lists,
                 chunks: Chunks, s: nat, first: nat)
    requires Listed(blocks, lists) && Chained(m, heads, bits, lists) && Housed(blocks, chunks)
    requires Cuttable(m, blocks, s, first) && s + blocks[s].words <= |m|
    requires SplitWritten(m, m', s, first, blocks[s].words - first)
    ensures var after := Cut(blocks, s, first);
            && Sound(m', after) && Listed(after, lists) && Chained(m', heads, bits, lists)
            && Housed(after, chunks) && SamePayloads(m, m', blocks)
  {
    hide Sound, Listed, Chained, Housed, SamePayloads, Retagged, Cut;
    SplitRetagged(m, m', s, first, blocks[s].words - first);
    OddLow(m'[s + first]);
    CutKeeps(m, blocks, s, first, m'[s] % 8, m'[s + first] % 8);
    HousedCut(m, blocks, chunks, s, first);
    ListedCut(m, blocks, lists, s, first);
    CutChained(m, m', heads, bits, blocks, lists, s, first);
  }

  lemma ListedCut(m: seq<int>, blocks: Blocks, lists: Lists, s: nat, first: nat)
    requires Listed(blocks, lists) && Cuttable(m, blocks, s, first)
    ensures Listed(Cut(blocks, s, first), lists)
  {
    CutNew(m, blocks, s, first);
    hide ListIndex, Sound;
  }

  lemma CutChained(m: seq<int>, m': seq<int>, heads: seq<nat>, bits: seq<bool>, blocks: Blocks, lists: Lists, s: nat,
      first: nat)
    requires Listed(blocks, lists) && Chained(m, heads, bits, lists)
    requires Cuttable(m, blocks, s, first) && s + blocks[s].words <= |m|
    requires SplitWritten(m, m', s, first, blocks[s].words - first)
    ensures Chained(m', heads, bits, lists)
  {
    hide Listed, Chained, Joined, Tagged;
    forall j, t | 0 <= j < |lists| && t in lists[j] && t + 4 <= |m|
      ensures m'[t + 1] == m[t + 1] && m'[t + 2] == m[t + 2]
    {
      ListedFree(blocks, lists, j, t);
      OtherTag(blocks, s, t);
      TagFacts(m, blocks, t);
    }
    ChainedFrame(m, m', heads, bits, lists);
  }

  lemma CutDone(m: seq<int>, blocks: Blocks, s: nat, first: nat)
    requires Cuttable(m, blocks, s, first) && Coalesced(blocks) && OnlyPending(blocks, s)
    ensures var after := Cut(blocks, s, first);
            && s in after && after[s].kind == Pending && OnlyPending(after, s) && Coalesced(after)
            && NewLive(blocks, after, s + first) && after[s + first].words == blocks[s].words - first
  {
    CutNew(m, blocks, s, first);
    hide Cuttable, Coalesced, NewLive;
    CutCoalesced(m, blocks, s, first);
    CutLive(blocks, s, first);
  }

  lemma CutLive(blocks: Blocks, s: nat, first: nat)
    requires s in blocks && blocks[s].kind == Pending && 0 < first <= blocks[s].words && s + first !in blocks
    ensures NewLive(blocks, Cut(blocks, s, first), s + first)
  {
    var after := Cut(blocks, s, first);
    assert after[s].kind == Pending;
    assert forall t :: t != s && t != s + first ==>
        (t in after <==> t in blocks) && (t in blocks ==> after[t] == blocks[t]);
  }

  lemma CutCoalesced(m: seq<int>, blocks: Blocks, s: nat, first: nat)
    requires Cuttable(m, blocks, s, first) && Coalesced(blocks)
    ensures Coalesced(Cut(blocks, s, first))
  {
    CutNew(m, blocks, s, first);
    hide Cuttable;
    assert blocks[s].kind == Pending && first <= blocks[s].words by { CutKind(m, blocks, s, first); }
    var after := Cut(blocks, s, first);
    forall t | t in after && after[t].kind == Free && t + after[t].words in after
      ensures after[t + after[t].words].kind != Free
    {
    }
  }

  lemma CutKind(m: seq<int>, blocks: Blocks, s: nat, first: nat)
    requires Cuttable(m, blocks, s, first)
    ensures s in blocks && blocks[s].kind == Pending && first <= blocks[s].words
  {
  }

  // ---- Memory from the system ----

  lemma FenceBits(x: int, words: nat)
    requires x / 8 * 8 == 4 * words
    ensures var a := Odd(Fenced(x)); a / 8 * 8 == 4 * words && a % 2 == 1
    ensures (x - x % 2) / 8 * 8 == 4 * words && (x - x % 2) % 2 == 0
  {
    var q, r := x / 8, x % 8;
    LowBits(x);
    Eighths(q, r);
    FencePost(q, r);
    LowBits(x - x % 4 + x % 2 + 2);
  }

  lemma FencePost(q: int, r: int)
    requires 0 <= r < 8
    ensures var x := 8 * q + r; (x - x % 4 + x % 2 + 2) / 8 == q
  {
    Quarters(2 * q + r / 4, r % 4);
    assert 8 * q + r == 4 * (2 * q + r / 4) + r % 4;
    Eighths(q, r);
    Eighths(q, r - r % 4 + r % 2 + 2);
  }

  lemma Quarters(q: int, r: int)
    requires 0 <= r < 4
    ensures (4 * q + r) % 4 == r
  {
  }

  lemma NothingChanged(m: seq<int>, blocks: Blocks)
    ensures LiveKept(blocks, blocks) && SamePayloads(m, m, blocks)
    ensures NonePending(blocks) ==> OnlyPending(blocks, 0)
  {
  }

  lemma GrownListed(m: seq<int>, blocks: Blocks, lists: Lists, chunks: Chunks, base: nat, words: nat)
    requires Growable(m, blocks, chunks, base, words) && Listed(blocks, lists)
    ensures Listed(Grown(blocks, base, words), lists)
  {
    GrownSame(m, blocks, chunks, base, words);
    assert words >= 8;
    hide Growable, Grown, ListIndex, Listed;
    ListedSameFree(blocks, Grown(blocks, base, words), lists);
  }

  lemma ListedSameFree(blocks: Blocks, after: Blocks, lists: Lists)
    requires Listed(blocks, lists)
    requires forall t :: t in blocks ==> t in after && after[t] == blocks[t]
    requires forall t :: t in after && t !in blocks ==> after[t].kind != Free
    ensures Listed(after, lists)
  {
    hide ListIndex;
    forall t | t in after && after[t].kind == Free
      ensures ListIndex(after[t]) < |lists| && t in lists[ListIndex(after[t])]
    {
      assert t in blocks && after[t] == blocks[t];
    }
  }

  lemma KeptWithout(blocks: Blocks, after: Blocks, a: nat)
    requires forall t :: t in blocks ==> t in after && after[t] == blocks[t]
    requires forall t :: t in after && t !in blocks ==> after[t].kind != Live && (after[t].kind == Pending ==> t == a)
    requires NonePending(blocks)
    ensures LiveKept(blocks, after) && OnlyPending(after, a)
  {
  }

  lemma GrowSound(m: seq<int>, m': seq<int>, blocks: Blocks, chunks: Chunks, base: nat, words: nat)
    requires Growable(m, blocks, chunks, base, words) && ChunkWritten(m, m', base, words)
    ensures Sound(m', Grown(blocks, base, words)) && SamePayloads(m, m', blocks)
  {
    var after := Grown(blocks, base, words);
    assert words >= 8 && base + words <= |m| == |m'|;
    GrownSame(m, blocks, chunks, base, words);
    hide Growable, SamePayloads, GrownTags, Grown, OnlyLinks, ChunkWritten;
    var low1, low2, low3 := m'[base] % 8, m'[base + 2] % 8, m'[base + words - 2] % 8;
    var m1 := GrownTags(m, base, words, low1, low2, low3);
    ChunkLows(m, m', base, words);
    GrowKeeps(m, blocks, chunks, base, words, low1, low2, low3);
    ChunkDiff(m, m', base, words);
    LinksOfPending(m1, m', after, base + 2);
    LinksKeepTags(m1, m', after);
    SamePayloadsTrans(m, m1, m', blocks, after);
  }

  lemma ChunkDiff(m: seq<int>, m': seq<int>, base: nat, words: nat)
    requires ChunkWritten(m, m', base, words)
    ensures var m1 := GrownTags(m, base, words, m'[base] % 8, m'[base + 2] % 8, m'[base + words - 2] % 8);
            |m1| == |m'| && forall i :: 0 <= i < |m1| && m'[i] != m1[i] ==> i == base + 3 || i == base + 4
  {
  }

  lemma ChunkLows(m: seq<int>, m': seq<int>, base: nat, words: nat)
    requires ChunkWritten(m, m', base, words)
    ensures m'[base] % 8 % 2 == 1 && m'[base + words - 2] % 8 % 2 == 1
  {
    Eighths(m'[base] / 8, m'[base] % 8);
    Eighths(m'[base + words - 2] / 8, m'[base + words - 2] % 8);
  }

  lemma GrowChained(m: seq<int>, m': seq<int>, heads: seq<nat>, bits: seq<bool>, blocks: Blocks, lists: Lists,
                    chunks: Chunks, base: nat, words: nat)
    requires Growable(m, blocks, chunks, base, words) && ChunkWritten(m, m', base, words)
    requires Listed(blocks, lists) && Chained(m, heads, bits, lists)
    ensures Chained(m', heads, bits, lists)
  {
    hide Listed, Chained, Joined, Apart, Housed;
    forall j, t | 0 <= j < |lists| && t in lists[j] && t + 4 <= |m|
      ensures m'[t + 1] == m[t + 1] && m'[t + 2] == m[t + 2]
    {
      ListedFree(blocks, lists, j, t);
      TagFacts(m, blocks, t);
      GrowOutside(m, blocks, chunks, base, words, t);
    }
    ChainedFrame(m, m', heads, bits, lists);
  }

  lemma GrowFacts(m: seq<int>, m': seq<int>, heads: seq<nat>, bits: seq<bool>, blocks: Blocks, lists: Lists,
                  chunks: Chunks, base: nat, words: nat)
    requires Sound(m, blocks) && Listed(blocks, lists) && Chained(m, heads, bits, lists) && Housed(blocks, chunks)
    requires Unused(chunks, base, words) && words % 2 == 0 && base > 0 && words >= 8
    requires ChunkWritten(m, m', base, words) && base + words <= |m|
    ensures Growable(m, blocks, chunks, base, words)
    ensures var after := Grown(blocks, base, words);
            && Sound(m', after) && Listed(after, lists) && Chained(m', heads, bits, lists)
            && Housed(after, chunks[base := words]) && SamePayloads(m, m', blocks)
  {
    assert Growable(m, blocks, chunks, base, words);
    hide Growable, Sound, Listed, Chained, Housed, SamePayloads, Grown, ChunkWritten;
    GrowSound(m, m', blocks, chunks, base, words);
    GrownListed(m, blocks, lists, chunks, base, words);
    GrowChained(m, m', heads, bits, blocks, lists, chunks, base, words);
    GrowHoused(m, blocks, chunks, base, words);
  }

  lemma GrowDone(m: seq<int>, blocks: Blocks, chunks: Chunks, base: nat, words: nat)
    requires Growable(m, blocks, chunks, base, words) && Coalesced(blocks) && NonePending(blocks)
    ensures var after := Grown(blocks, base, words);
            && base + 2 in after && after[base + 2].kind == Pending && after[base + 2].words == words - 4
            && OnlyPending(after, base + 2) && Coalesced(after) && LiveKept(blocks, after)
  {
    GrownSame(m, blocks, chunks, base, words);
    hide Growable, Grown, Coalesced, LiveKept, OnlyPending, NonePending;
    GrownCoalesced(m, blocks, chunks, base, words);
    KeptWithout(blocks, Grown(blocks, base, words), base + 2);
  }

  lemma GrownCoalesced(m: seq<int>, blocks: Blocks, chunks: Chunks, base: nat, words: nat)
    requires Growable(m, blocks, chunks, base, words) && Coalesced(blocks)
    ensures Coalesced(Grown(blocks, base, words))
  {
    var after := Grown(blocks, base, words);
    hide Growable, Grown;
    forall t | t in after && after[t].kind == Free && t + after[t].words in after
      ensures after[t + after[t].words].kind != Free
    {
      GrownApart(m, blocks, chunks, base, words, t);
    }
  }

  lemma GrownApart(m: seq<int>, blocks: Blocks, chunks: Chunks, base: nat, words: nat, t: nat)
    requires Growable(m, blocks, chunks, base, words) && Coalesced(blocks) && t in Grown(blocks, base, words)
    ensures var after := Grown(blocks, base, words);
            after[t].kind == Free && t + after[t].words in after ==> after[t + after[t].words].kind != Free
  {
    var after := Grown(blocks, base, words);
    var next := t + after[t].words;
    assert t in blocks && blocks[t].kind == Free && t + blocks[t].words in blocks ==>
        blocks[t + blocks[t].words].kind != Free;
    hide Growable, Grown, Coalesced;
    GrownSame(m, blocks, chunks, base, words);
    if t in blocks {
      assert after[t] == blocks[t];
      assert next in blocks ==> after[next] == blocks[next];
    }
  }

  // ---- Searching ----

  lemma BitmapSize(m: seq<int>, heads: seq<nat>, bits: seq<bool>, blocks: Blocks, lists: Lists)
    requires Listed(blocks, lists) && Chained(m, heads, bits, lists)
    ensures |heads| == |bits| == |lists| == TOTAL_NUM_FREE_LISTS
  {
  }

  lemma HeadIs(m: seq<int>, heads: seq<nat>, bits: seq<bool>, blocks: Blocks, lists: Lists, i: nat)
    requires Chained(m, heads, bits, lists) && i < |lists|
    ensures |heads| == |bits| == |lists| && heads[i] == HeadOf(lists[i]) && (bits[i] <==> lists[i] != [])
    ensures lists[i][0..] == lists[i]
  {
  }

  lemma FirstListed(m: seq<int>, heads: seq<nat>, bits: seq<bool>, blocks: Blocks, lists: Lists, i: nat)
    requires Listed(blocks, lists) && Chained(m, heads, bits, lists) && i < |lists| == |bits| && bits[i]
    ensures |heads| == |lists| && lists[i] != [] && heads[i] == lists[i][0] && lists[i][0] in lists[i]
    ensures heads[i] in blocks && blocks[heads[i]].kind == Free
  {
    hide Listed, Chained;
    HeadIs(m, heads, bits, blocks, lists, i);
    ListedFree(blocks, lists, i, lists[i][0]);
  }

  lemma ListedFits(m: seq<int>, blocks: Blocks, lists: Lists, s: nat, size: nat, i: nat)
    requires Sound(m, blocks) && Listed(blocks, lists) && i < |lists| && s in lists[i]
    requires GetSmallestListIndexThatFits(size) <= i < TOTAL_NUM_FREE_LISTS - 1
    ensures s in blocks && blocks[s].Payload() >= size
  {
    hide Sound, GetInsertionIndex, GetSmallestListIndexThatFits;
    NeighbourSize(m, blocks, s);
    ListedBlockFits(size, blocks[s].Payload());
  }

  /** A listed block that is long enough is a sure fit. */
  lemma SomeFits(m: seq<int>, blocks: Blocks, lists: Lists, s: nat, size: nat, i: nat)
    requires Sound(m, blocks) && Listed(blocks, lists) && i < |lists| && s in lists[i]
    requires GetSmallestListIndexThatFits(size) <= i && s in blocks && blocks[s].Payload() >= size
    ensures !NoneFits(blocks, size)
  {
    hide Sound, GetInsertionIndex, GetSmallestListIndexThatFits, SureFit;
    NeighbourSize(m, blocks, s);
    OfferedFrom(size, blocks[s].Payload());
  }

  lemma ListWalk(m: seq<int>, heads: seq<nat>, bits: seq<bool>, blocks: Blocks, lists: Lists, i: nat, k: nat)
    requires Sound(m, blocks) && Listed(blocks, lists) && Chained(m, heads, bits, lists)
    requires i < |lists| && k < |lists[i]|
    ensures var s := lists[i][k];
            && HeadOf(lists[i][k..]) == s && 0 < s && s + 4 <= |m|
            && s in blocks && blocks[s].kind == Free && m[s] / 8 * 8 == 4 * blocks[s].words
            && m[s + 1] == HeadOf(lists[i][k + 1..])
  {
    hide Sound;
    var l := lists[i];
    assert Linked(m, l) && LinkedAt(m, l, k);
    assert l[k] in lists[i];
    NeighbourSize(m, blocks, l[k]);
  }

  lemma NewLiveAbove(m: seq<int>, before: Blocks, after: Blocks, r: nat)
    requires Sound(m, after) && NewLive(before, after, r)
    ensures r > 0
  {
    BlockFits(m, after, r);
  }

  lemma NoCandidate(m: seq<int>, heads: seq<nat>, bits: seq<bool>, blocks: Blocks, lists: Lists, size: nat, i: nat)
    requires Sound(m, blocks) && Listed(blocks, lists) && Chained(m, heads, bits, lists)
    requires |bits| == |lists| == TOTAL_NUM_FREE_LISTS && GetSmallestListIndexThatFits(size) <= i
    requires i == TOTAL_NUM_FREE_LISTS || i == TOTAL_NUM_FREE_LISTS - 1
    requires forall j :: GetSmallestListIndexThatFits(size) <= j < i ==> !bits[j]
    requires i < |lists| ==> forall j :: 0 <= j < |lists[i]| ==>
        lists[i][j] in blocks && blocks[lists[i][j]].Payload() < size
    ensures NoneFits(blocks, size)
  {
    hide Sound, SureFit, GetInsertionIndex, GetSmallestListIndexThatFits, Linked;
    forall s | s in blocks && blocks[s].kind == Free
      ensures blocks[s].Payload() < SureFit(size)
    {
      NeighbourSize(m, blocks, s);
      var j := ListIndex(blocks[s]);
      assert s in lists[j] && lists[j] != [];
      assert bits[j];
      OfferedFrom(size, blocks[s].Payload());
    }
  }

  lemma NewLiveAfter(m: seq<int>, m1: seq<int>, m2: seq<int>, blocks: Blocks, blocks1: Blocks, blocks2: Blocks, r: nat)
    requires LiveKept(blocks, blocks1) && NewLive(blocks1, blocks2, r)
    requires SamePayloads(m, m1, blocks) && SamePayloads(m1, m2, blocks1)
    ensures NewLive(blocks, blocks2, r) && SamePayloads(m, m2, blocks)
  {
    SamePayloadsTrans(m, m1, m2, blocks, blocks1);
  }

  // ---- Totals ----

  lemma NewLiveTotal(m: seq<int>, before: Blocks, after: Blocks, r: nat)
    requires Sound(m, after) && NewLive(before, after, r)
    ensures 0 < r < |m| && m[r] / 8 * 8 == 4 * after[r].words
    ensures LiveWords(after, |m|) == LiveWords(before, |m|) + after[r].words
  {
    hide Sound;
    BlockFits(m, after, r);
    NeighbourSize(m, after, r);
    LiveWordsChange(before, after, r, |m|);
  }

  lemma ReleasedTotal(m: seq<int>, before: Blocks, after: Blocks, s: nat)
    requires Sound(m, before) && s in before && before[s].kind == Live && Released(before, after, s)
    ensures LiveWords(after, |m|) == LiveWords(before, |m|) - before[s].words
  {
    hide Sound;
    BlockFits(m, before, s);
    LiveWordsChange(before, after, s, |m|);
  }

  // ---- Freeing ----

  lemma TakeFacts(m: seq<int>, m': seq<int>, heads: seq<nat>, bits: seq<bool>, blocks: Blocks, lists: Lists,
                  chunks: Chunks, s: nat)
    requires Sound(m, blocks) && Listed(blocks, lists) && Chained(m, heads, bits, lists) && Housed(blocks, chunks)
    requires s in blocks && blocks[s].kind == Live && s + 4 <= |m| && m' == m[s + 2 := 0][s + 1 := 0]
    requires Coalesced(blocks) && NonePending(blocks)
    ensures var after := InHand(blocks, s);
            && Sound(m', after) && Listed(after, lists) && Chained(m', heads, bits, lists) && Housed(after, chunks)
            && SamePayloads(m, m', Without1(blocks, s)) && OnlyPending(after, s) && Coalesced(after)
  {
    hide Sound, Listed, Chained, Housed, SamePayloads, OnlyPending, Coalesced, NonePending, InHand, Without1;
    TakeKind(blocks, s);
    TakeAlone(blocks, s);
    TakeSound(m, m', blocks, s);
    HousedRekind(blocks, chunks, s, Pending);
    TakeListed(blocks, lists, s);
    PendingSound(m, blocks, s);
    PendingFar(m, InHand(blocks, s), lists, s);
    ChainedFrame(m, m', heads, bits, lists);
  }

  lemma TakeSound(m: seq<int>, m': seq<int>, blocks: Blocks, s: nat)
    requires Sound(m, blocks) && s in blocks && blocks[s].kind == Live
    requires s + 4 <= |m| && m' == m[s + 2 := 0][s + 1 := 0]
    ensures Sound(m', InHand(blocks, s)) && SamePayloads(m, m', Without1(blocks, s))
  {
    hide Sound, SamePayloads, OnlyLinks, InHand, Without1;
    TakeKind(blocks, s);
    PendingSound(m, blocks, s);
    LinksOfPending(m, m', InHand(blocks, s), s);
    LinksKeepTags(m, m', InHand(blocks, s));
    TakePayloads(m, m', blocks, s);
  }

  lemma TakeKind(blocks: Blocks, s: nat)
    requires s in blocks
    ensures InHand(blocks, s) == blocks[s := blocks[s].(kind := Pending)] && s in InHand(blocks, s)
    ensures InHand(blocks, s)[s].kind == Pending
  {
  }

  lemma TakeAlone(blocks: Blocks, s: nat)
    requires s in blocks && blocks[s].kind == Live && Coalesced(blocks) && NonePending(blocks)
    ensures OnlyPending(InHand(blocks, s), s) && Coalesced(InHand(blocks, s))
  {
  }

  lemma TakeListed(blocks: Blocks, lists: Lists, s: nat)
    requires Listed(blocks, lists) && s in blocks && blocks[s].kind == Live
    ensures Listed(InHand(blocks, s), lists)
  {
    hide ListIndex;
  }

  lemma TakePayloads(m: seq<int>, m': seq<int>, blocks: Blocks, s: nat)
    requires s in blocks && SamePayloads(m, m', InHand(blocks, s))
    ensures SamePayloads(m, m', Without1(blocks, s))
  {
    forall t, i | t in Without1(blocks, s) && blocks[t].kind == Live && t < i < t + blocks[t].words - 1 && i < |m|
      ensures m'[i] == m[i]
    {
      assert InHand(blocks, s)[t] == blocks[t];
    }
  }

  lemma ReleasedThen(m: seq<int>, m1: seq<int>, m2: seq<int>, blocks: Blocks, blocks1: Blocks, blocks2: Blocks, s: nat)
    requires s in blocks && blocks[s].kind == Live && blocks1 == InHand(blocks, s) && LiveKept(blocks1, blocks2)
    requires SamePayloads(m, m1, Without1(blocks, s)) && SamePayloads(m1, m2, blocks1)
    ensures Released(blocks, blocks2, s) && SamePayloads(m, m2, Without1(blocks, s))
  {
    assert s in blocks1 && blocks1[s].kind == Pending;
    assert forall t :: t != s ==> (t in blocks1 <==> t in blocks) && (t in blocks ==> blocks1[t] == blocks[t]);
    ReleasedPayloads(m, m1, m2, blocks, blocks1, s);
    hide SamePayloads, InHand;
  }

  lemma ReleasedPayloads(m: seq<int>, m1: seq<int>, m2: seq<int>, blocks: Blocks, blocks1: Blocks, s: nat)
    requires forall t :: t != s ==> (t in blocks1 <==> t in blocks) && (t in blocks ==> blocks1[t] == blocks[t])
    requires SamePayloads(m, m1, Without1(blocks, s)) && SamePayloads(m1, m2, blocks1)
    ensures SamePayloads(m, m2, Without1(blocks, s))
  {
    hide SamePayloads;
    SamePayloadsTrans(m, m1, m2, Without1(blocks, s), blocks1);
  }

  // ---- Moving a payload ----

  lemma NewLiveIs(before: Blocks, after: Blocks, ptr: nat)
    requires ptr != 0 ==> NewLive(before, after, ptr - 1)
    ensures ptr != 0 ==> ptr - 1 in after && after[ptr - 1].kind == Live
  {
  }

  lemma StillThere(m: seq<int>, blocks: Blocks, s: nat)
    requires s in blocks && blocks[s].words >= 2 && s + blocks[s].words <= |m|
    ensures Kept(m, m, s, s, blocks[s].words) && SamePayloads(m, m, Without1(blocks, s))
  {
  }

  lemma KeptIf(m: seq<int>, m': seq<int>, s: nat, r: nat, words: nat)
    requires words >= 2 && s + words <= |m| && r + words <= |m'|
    requires m'[r + 1..r + words - 1] == m[s + 1..s + words - 1]
    ensures Kept(m, m', s, r, words)
  {
  }

  lemma FewerPayloads(m: seq<int>, m': seq<int>, blocks: Blocks, s: nat)
    requires SamePayloads(m, m', blocks)
    ensures SamePayloads(m, m', Without1(blocks, s))
  {
  }

  lemma NewApart(m: seq<int>, before: Blocks, after: Blocks, s: nat, r: nat)
    requires Sound(m, after) && NewLive(before, after, r) && s in before && before[s].kind == Live
    ensures s in after && after[s] == before[s] && r in after && after[r].kind == Live && r != s
    ensures 0 < r && r + after[r].words <= |m| && (s + after[s].words <= r || r + after[r].words <= s)
  {
    BlockFits(m, after, r);
    OtherTag(after, s, r);
  }

  /** Copying into the payload of a live block leaves the heap, and every other payload, alone. */
  lemma CopyFacts(m: seq<int>, m': seq<int>, heads: seq<nat>, bits: seq<bool>, blocks: Blocks, lists: Lists,
                  r: nat, n: nat)
    requires Sound(m, blocks) && Listed(blocks, lists) && Chained(m, heads, bits, lists)
    requires r in blocks && blocks[r].kind == Live && n + 2 <= blocks[r].words && |m'| == |m|
        && r + blocks[r].words <= |m|
    requires forall i :: 0 <= i < |m| && !(r < i <= r + n) ==> m'[i] == m[i]
    ensures Sound(m', blocks) && Chained(m', heads, bits, lists) && SamePayloads(m, m', Without1(blocks, r))
  {
    hide Joined, Apart, Listed, Chained, Tagged;
    forall t | t in blocks
      ensures Tagged(m', t, blocks[t])
    {
      TagFacts(m, blocks, t);
      if t != r { OtherTag(blocks, r, t); }
      CopyTag(m, m', t, blocks[t]);
    }
    forall j, t | 0 <= j < |lists| && t in lists[j] && t + 4 <= |m|
      ensures m'[t + 1] == m[t + 1] && m'[t + 2] == m[t + 2]
    {
      ListedFree(blocks, lists, j, t);
      TagFacts(m, blocks, t);
      OtherTag(blocks, r, t);
    }
    ChainedFrame(m, m', heads, bits, lists);
    forall t, i | t in Without1(blocks, r) && blocks[t].kind == Live && t < i < t + blocks[t].words - 1 && i < |m|
      ensures m'[i] == m[i]
    {
      OtherTag(blocks, r, t);
    }
  }

  lemma CopyTag(m: seq<int>, m': seq<int>, t: nat, b: Block)
    requires Tagged(m, t, b) && |m'| == |m| && m'[t] == m[t] && m'[t + b.words - 1] == m[t + b.words - 1]
    ensures Tagged(m', t, b)
  {
  }

  /** The payload is where it was copied to, and only the old block is gone. */
  lemma MovedFacts(m: seq<int>, m1: seq<int>, m2: seq<int>, m3: seq<int>, blocks: Blocks, blocks1: Blocks,
      blocks3: Blocks,
                   s: nat, r: nat)
    requires Sound(m, blocks) && s in blocks && blocks[s].kind == Live
    requires NewLive(blocks, blocks1, r) && Released(blocks1, blocks3, s) && r != s
    requires blocks1[r].words >= blocks[s].words && r + blocks1[r].words <= |m|
    requires SamePayloads(m, m1, blocks) && SamePayloads(m1, m2, Without1(blocks1, r))
        && SamePayloads(m2, m3, Without1(blocks1, s))
    requires Kept(m1, m2, s, r, blocks[s].words)
    ensures r in blocks3 && blocks3[r] == blocks1[r]
    ensures Kept(m, m3, s, r, blocks[s].words) && SamePayloads(m, m3, Without1(blocks, s))
  {
    hide Sound;
    BlockFits(m, blocks, s);
    MovedKept(m, m1, m2, m3, blocks, blocks1, s, r);
    forall t, i | t in Without1(blocks, s) && blocks[t].kind == Live && t < i < t + blocks[t].words - 1 && i < |m|
      ensures m3[i] == m[i]
    {
      assert t in Without1(blocks1, r) && t in Without1(blocks1, s);
    }
  }

  lemma MovedKept(m: seq<int>, m1: seq<int>, m2: seq<int>, m3: seq<int>, blocks: Blocks, blocks1: Blocks, s: nat,
      r: nat)
    requires s in blocks && blocks[s].kind == Live && s + blocks[s].words <= |m|
    requires r in blocks1 && blocks1[r].kind == Live && r != s && r + blocks1[r].words <= |m|
    requires blocks1[r].words >= blocks[s].words >= 2
    requires SamePayloads(m, m1, blocks) && |m2| == |m| && SamePayloads(m2, m3, Without1(blocks1, s))
    requires Kept(m1, m2, s, r, blocks[s].words)
    ensures Kept(m, m3, s, r, blocks[s].words)
  {
    SlicesSame(m, m1, blocks, s, blocks[s].words);
    SlicesSame(m2, m3, Without1(blocks1, s), r, blocks[s].words);
  }

  lemma SlicesSame(m: seq<int>, m': seq<int>, blocks: Blocks, t: nat, words: nat)
    requires SamePayloads(m, m', blocks) && t in blocks && blocks[t].kind == Live && t + blocks[t].words <= |m|
    requires 2 <= words <= blocks[t].words
    ensures m'[t + 1..t + words - 1] == m[t + 1..t + words - 1]
  {
    forall i | t < i < t + words - 1
      ensures m'[i] == m[i]
    {
    }
  }
}
