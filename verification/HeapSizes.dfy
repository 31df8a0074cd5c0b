/** How the heap sorts blocks into its 24 free lists by payload size. */
module HeapSizes {
  import opened Arithmetic

  const TOTAL_NUM_FREE_LISTS := 24
  const ALIGNMENT := 8
  const METADATA_TOTAL := 8
  const MIN_REQ_SIZE := 8

  const FREE_LIST_BLOCK_SIZES: seq<nat> := [
    8, 16, 24, 32,
    40, 48, 56, 64,
    80, 96, 112, 128,
    160, 192, 224, 256,
    320, 384, 448, 512,
    640, 768, 896, 1024
  ]

  /** BSR: the index of the most significant set bit. */
  function BitScanReverse(value: nat): nat
    requires value > 0
  {
    if value == 1 then 0 else 1 + BitScanReverse(value / 2)
  }

  lemma {:induction false} BitScanReverseBounds(value: nat)
    requires value > 0
    ensures Pow2(BitScanReverse(value)) <= value < 2 * Pow2(BitScanReverse(value))
  {
    if value > 1 {
      BitScanReverseBounds(value / 2);
    }
  }

  /** The list a free block of this payload size is kept in. */
  function GetInsertionIndex(size: nat): nat {
    if size < 64 then
      if size < 8 then 0 else size / 8 - 1
    else if size >= 1024 then TOTAL_NUM_FREE_LISTS - 1
    else
      BitScanReverseRange(size);
      var k := BitScanReverse(size);
      var sublist := size / Pow2(k - 2) % 4;
      7 + (k - 6) * 4 + sublist
  }

  lemma BitScanReverseRange(size: nat)
    requires 64 <= size < 1024
    ensures 6 <= BitScanReverse(size) <= 9
    ensures forall k :: 0 <= k <= 9 ==> Pow2(k) > 0
    ensures size < 128 ==> BitScanReverse(size) == 6
    ensures 128 <= size < 256 ==> BitScanReverse(size) == 7
    ensures 256 <= size < 512 ==> BitScanReverse(size) == 8
    ensures 512 <= size ==> BitScanReverse(size) == 9
    ensures Pow2(4) == 16 && Pow2(5) == 32 && Pow2(6) == 64 && Pow2(7) == 128
  {
    BitScanReverseBounds(size);
    Pow2Values();
    var k := BitScanReverse(size);
    if k < 6 { Pow2Monotone(k, 5); }
    if k > 9 { Pow2Monotone(10, k); }
  }

  lemma {:induction false} Pow2Monotone(a: nat, b: nat)
    requires a <= b
    ensures Pow2(a) <= Pow2(b)
    decreases b
  {
    if a < b {
      Pow2Monotone(a, b - 1);
    }
  }

  /** The bit arithmetic finds the row of the size table: the last list whose minimum fits. */
  lemma InsertionIndexInTable(size: nat)
    ensures GetInsertionIndex(size) < TOTAL_NUM_FREE_LISTS
    ensures size >= 8 ==> FREE_LIST_BLOCK_SIZES[GetInsertionIndex(size)] <= size
    ensures GetInsertionIndex(size) + 1 < TOTAL_NUM_FREE_LISTS ==>
              size < FREE_LIST_BLOCK_SIZES[GetInsertionIndex(size) + 1]
  {
    if 64 <= size < 1024 {
      BitScanReverseRange(size);
      if size < 128 {
        TableRow(size, 6, 16);
      } else if size < 256 {
        TableRow(size, 7, 32);
      } else if size < 512 {
        TableRow(size, 8, 64);
      } else {
        TableRow(size, 9, 128);
      }
    }
  }

  lemma TableRow(size: nat, k: nat, step: nat)
    requires (k == 6 && step == 16) || (k == 7 && step == 32) || (k == 8 && step == 64) || (k == 9 && step == 128)
    requires 4 * step <= size < 8 * step
    ensures var i := 7 + (k - 6) * 4 + size / step % 4;
            i < 23 && FREE_LIST_BLOCK_SIZES[i] <= size < FREE_LIST_BLOCK_SIZES[i + 1]
  {
    var q := size / step;
    assert 4 <= q < 8 && q % 4 == q - 4;
    assert q * step <= size < (q + 1) * step;
  }

  /** The first list all of whose blocks fit a request (but for the open-ended last list). */
  function GetSmallestListIndexThatFits(size: nat): nat {
    if size <= FREE_LIST_BLOCK_SIZES[0] then 0
    else
      var result := GetInsertionIndex(size - 1) + 1;
      if result >= TOTAL_NUM_FREE_LISTS then TOTAL_NUM_FREE_LISTS - 1 else result
  }

  lemma TableIncreases(i: nat, j: nat)
    requires i <= j < TOTAL_NUM_FREE_LISTS
    ensures FREE_LIST_BLOCK_SIZES[i] <= FREE_LIST_BLOCK_SIZES[j]
    decreases j
  {
    if i < j {
      TableIncreases(i, j - 1);
    }
  }

  lemma SmallestListFits(size: nat)
    ensures var i := GetSmallestListIndexThatFits(size);
            i < TOTAL_NUM_FREE_LISTS
            && (size <= 1024 <==> FREE_LIST_BLOCK_SIZES[i] >= size)
            && (size > 1024 ==> i == TOTAL_NUM_FREE_LISTS - 1)
            && (i > 0 ==> FREE_LIST_BLOCK_SIZES[i - 1] < size)
  {
    hide GetInsertionIndex;
    if size > 8 {
      InsertionIndexInTable(size - 1);
      var i := GetInsertionIndex(size - 1);
      TableIncreases(i, TOTAL_NUM_FREE_LISTS - 1);
      if i + 1 < TOTAL_NUM_FREE_LISTS {
        TableIncreases(i + 1, TOTAL_NUM_FREE_LISTS - 1);
      }
    }
  }

  /** Any block kept at or above the smallest list, short of the last list, fits the request. */
  lemma ListedBlockFits(size: nat, payload: nat)
    requires payload >= 8
    requires GetSmallestListIndexThatFits(size) <= GetInsertionIndex(payload) < TOTAL_NUM_FREE_LISTS - 1
    ensures payload >= size
  {
    hide GetInsertionIndex, GetSmallestListIndexThatFits;
    SmallestListFits(size);
    InsertionIndexInTable(payload);
    TableIncreases(GetSmallestListIndexThatFits(size), GetInsertionIndex(payload));
    TableIncreases(GetInsertionIndex(payload) + 1, TOTAL_NUM_FREE_LISTS - 1);
  }

  /** Rounds a request up to the alignment, and to the smallest payload a free block needs. */
  function RoundUpSize(size: nat): nat {
    var s := if size < MIN_REQ_SIZE then MIN_REQ_SIZE else size;
    (s + ALIGNMENT - 1) / ALIGNMENT * ALIGNMENT
  }

  lemma RoundUpSizeFits(size: nat)
    ensures RoundUpSize(size) % 8 == 0 && RoundUpSize(size) >= size && RoundUpSize(size) >= 8
    ensures RoundUpSize(size) < size + 16
  {
  }

  /** The size FindBlock asks the system for, before fenceposts. */
  function SystemSize(size: nat): nat {
    var minIndex := GetSmallestListIndexThatFits(size);
    if minIndex + 1 < TOTAL_NUM_FREE_LISTS
    then (SmallestListFits(size); FREE_LIST_BLOCK_SIZES[minIndex + 1]) + METADATA_TOTAL
    else size + METADATA_TOTAL
  }

  lemma SystemSizeFits(size: nat)
    ensures SystemSize(size) >= size + METADATA_TOTAL
  {
    hide GetSmallestListIndexThatFits;
    SmallestListFits(size);
    var i := GetSmallestListIndexThatFits(size);
    if i + 1 < TOTAL_NUM_FREE_LISTS {
      TableIncreases(i, i + 1);
    }
  }

  /** The payload from which on a free block is certain to be found for a request. */
  function SureFit(size: nat): nat {
    if size <= 1024 then (SmallestListFits(size); FREE_LIST_BLOCK_SIZES[GetSmallestListIndexThatFits(size)]) else size
  }

  /** The search for a request comes upon a free block of this payload, and the block is long enough. */
  predicate Offered(size: nat, payload: nat) {
    GetSmallestListIndexThatFits(size) <= GetInsertionIndex(payload) && payload >= size
  }

  /** A listed block is passed over exactly if it is short of the sure fit. */
  lemma OfferedFrom(size: nat, payload: nat)
    requires payload >= 8
    ensures Offered(size, payload) <==> payload >= SureFit(size)
  {
    hide GetInsertionIndex, GetSmallestListIndexThatFits;
    SmallestListFits(size);
    InsertionIndexInTable(payload);
    var i, j := GetSmallestListIndexThatFits(size), GetInsertionIndex(payload);
    if j < i {
      TableIncreases(j + 1, i);
    } else {
      TableIncreases(i, j);
    }
    TableAtMost(i);
  }

  /** The search misses no fit exactly for the sizes of the table and for those above it. A request of 72 bytes,
      say, is not given a free block of 72: that block is kept with those of 64. */
  lemma SearchComplete(size: nat)
    requires size >= 8
    ensures (forall payload: nat :: payload >= 8 ==> (Offered(size, payload) <==> payload >= size))
            <==> size > 1024 || size in FREE_LIST_BLOCK_SIZES
    ensures !Offered(72, 72)
  {
    hide GetInsertionIndex, GetSmallestListIndexThatFits;
    SureFitExact(size);
    forall payload: nat | payload >= 8
      ensures Offered(size, payload) <==> payload >= SureFit(size)
    {
      OfferedFrom(size, payload);
    }
    hide Offered;
    if SureFit(size) != size {
      assert !(Offered(size, size) <==> size >= size);
    }
    OfferedFrom(72, 72);
    SureFitExact(72);
  }

  lemma SureFitExact(size: nat)
    requires size >= 8
    ensures SureFit(size) >= size
    ensures SureFit(size) == size <==> size > 1024 || size in FREE_LIST_BLOCK_SIZES
  {
    hide GetInsertionIndex;
    SmallestListFits(size);
    if size in FREE_LIST_BLOCK_SIZES {
      var j :| 0 <= j < TOTAL_NUM_FREE_LISTS && FREE_LIST_BLOCK_SIZES[j] == size;
      TableAtMost(j);
      var i := GetSmallestListIndexThatFits(size);
      if i > j {
        TableIncreases(j, i - 1);
      } else {
        TableIncreases(i, j);
      }
    }
  }

  lemma TableAtMost(j: nat)
    requires j < TOTAL_NUM_FREE_LISTS
    ensures FREE_LIST_BLOCK_SIZES[j] <= 1024
  {
    TableIncreases(j, TOTAL_NUM_FREE_LISTS - 1);
  }

  /** The lowest set bit from `from` on, as BSF finds it in the masked bitmap; past the end if there is none. */
  function LowestCandidate(bitmap: seq<bool>, from: nat): (i: nat)
    requires from <= |bitmap|
    ensures from <= i <= |bitmap| && (i < |bitmap| ==> bitmap[i])
    ensures forall j :: from <= j < i ==> !bitmap[j]
    decreases |bitmap| - from
  {
    if from == |bitmap| || bitmap[from] then from else LowestCandidate(bitmap, from + 1)
  }

  // ---- Sizes are 32 bits wide ----

  const WORD := 0x1_0000_0000

  /** The largest request whose sums do not wrap. */
  const MAX_REQUEST := 0xFFFF_FFE0

  /** RoundUpSize as it is computed. */
  function RoundUpWord(size: nat): nat {
    var s := if size < MIN_REQ_SIZE then MIN_REQ_SIZE else size;
    (s + ALIGNMENT - 1) % WORD / ALIGNMENT * ALIGNMENT
  }

  /** What the system is asked for when no free block is found: the rounded request, its tags and two fenceposts. */
  function Asked(size: nat): nat {
    var request := RoundUpWord(size);
    var minIndex := GetSmallestListIndexThatFits(request);
    var totalSize := if minIndex + 1 < TOTAL_NUM_FREE_LISTS
                     then (SmallestListFits(request); FREE_LIST_BLOCK_SIZES[minIndex + 1]) + METADATA_TOTAL
                     else (request + METADATA_TOTAL) % WORD;
    (totalSize + 2 * MIN_REQ_SIZE) % WORD
  }

  /** The three sums together cover a request exactly if it is at most MAX_REQUEST; a little more, and the system is
      asked for next to nothing. */
  lemma AskedCovers(size: nat)
    requires 0 < size < WORD
    ensures Asked(size) >= size <==> size <= MAX_REQUEST
    ensures size <= MAX_REQUEST ==>
              RoundUpWord(size) == RoundUpSize(size) && Asked(size) == SystemSize(RoundUpSize(size)) + 2 * MIN_REQ_SIZE
    ensures Asked(0xFFFF_FFF0) == 8
  {
    hide GetSmallestListIndexThatFits;
    AskedFor(size);
    AskedFor(0xFFFF_FFF0);
  }

  lemma AskedFor(size: nat)
    requires 0 < size < WORD
    ensures size <= MAX_REQUEST ==> RoundUpWord(size) == RoundUpSize(size)
    ensures size <= MAX_REQUEST ==> Asked(size) == SystemSize(RoundUpSize(size)) + 2 * MIN_REQ_SIZE >= size
    ensures size > MAX_REQUEST ==> Asked(size) <= 40
    ensures 0xFFFF_FFE8 < size <= 0xFFFF_FFF0 ==> Asked(size) == 8
  {
    RoundedWord(size);
    hide GetSmallestListIndexThatFits, RoundUpWord, RoundUpSize, Asked, SystemSize;
    var request := RoundUpWord(size);
    if size <= MAX_REQUEST {
      AskedSmall(size, request);
    } else {
      AskedLarge(size, request);
    }
  }

  lemma AskedSmall(size: nat, request: nat)
    requires request == RoundUpWord(size) <= MAX_REQUEST && size <= request
    ensures Asked(size) == SystemSize(request) + 2 * MIN_REQ_SIZE >= size
  {
    hide GetSmallestListIndexThatFits, RoundUpWord;
    SmallestListFits(request);
    SystemSizeFits(request);
    var i := GetSmallestListIndexThatFits(request);
    if i + 1 < TOTAL_NUM_FREE_LISTS {
      TableAtMost(i + 1);
    }
  }

  lemma AskedLarge(size: nat, request: nat)
    requires request == RoundUpWord(size)
    requires request == 0 || request == 0xFFFF_FFE8 || request == 0xFFFF_FFF0 || request == 0xFFFF_FFF8
    ensures Asked(size) <= 40 && (request == 0xFFFF_FFF0 ==> Asked(size) == 8)
  {
    hide GetSmallestListIndexThatFits, RoundUpWord;
    SmallestListFits(request);
    NothingAsked();
  }

  lemma RoundedWord(size: nat)
    requires 0 < size < WORD
    ensures size <= 0xFFFF_FFF8 ==> RoundUpWord(size) == RoundUpSize(size) && size <= RoundUpWord(size)
    ensures size <= MAX_REQUEST ==> RoundUpWord(size) <= MAX_REQUEST
    ensures MAX_REQUEST < size <= 0xFFFF_FFE8 ==> RoundUpWord(size) == 0xFFFF_FFE8
    ensures 0xFFFF_FFE8 < size <= 0xFFFF_FFF0 ==> RoundUpWord(size) == 0xFFFF_FFF0
    ensures 0xFFFF_FFF0 < size <= 0xFFFF_FFF8 ==> RoundUpWord(size) == 0xFFFF_FFF8
    ensures 0xFFFF_FFF8 < size ==> RoundUpWord(size) == 0
  {
  }

  lemma NothingAsked()
    ensures GetSmallestListIndexThatFits(0) == 0
  {
  }
}
