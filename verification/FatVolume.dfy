/** A mounted FAT volume as bytes on a disk: what the table's entries are, and what chains and files they spell out. */
module FatVolume {
  import opened Arithmetic
  import opened Words

  const SECTOR := 512
  const FAT_END := -1
  const EIO := 10

  datatype FatType = Fat12 | Fat16 | Fat32

  datatype Volume = Volume(
    fatType: FatType, sectorsPerCluster: nat, fatStartSector: nat, fatSectors: nat, dataStartSector: nat,
    maxCluster: nat, rootCluster: nat)

  // ---- Entries ----

  /** Where the entry of a cluster starts in the table, and how many bytes hold it. */
  function EntryOffset(t: FatType, cluster: nat): nat {
    match t
    case Fat12 => cluster + cluster / 2
    case Fat16 => cluster * 2
    case Fat32 => cluster * 4
  }

  function EntryLength(t: FatType): nat {
    if t.Fat32? then 4 else 2
  }

  /** How long a table must be to hold the entry of a cluster. */
  function EntryEnd(t: FatType, cluster: nat): nat {
    EntryOffset(t, cluster) + EntryLength(t)
  }

  /** The table byte at an offset; a disk too short for its table holds nothing there. */
  function TableByte(disk: seq<Byte>, v: Volume, off: nat): Byte {
    var at := v.fatStartSector * SECTOR + off;
    if at < |disk| then disk[at] else 0
  }

  /** The value stored for a cluster, from the bytes that hold it. */
  function EntryOf(t: FatType, cluster: nat, b0: Byte, b1: Byte, b2: Byte, b3: Byte): nat {
    match t
    case Fat12 =>
      var raw: nat := b0 as int + 256 * (b1 as int);
      if cluster % 2 == 1 then raw / 16 else raw % 4096
    case Fat16 => b0 as int + 256 * (b1 as int)
    case Fat32 => (b0 as int + 256 * (b1 as int) + 65536 * (b2 as int) + 16777216 * (b3 as int)) % 0x1000_0000
  }

  function EntryValue(disk: seq<Byte>, v: Volume, cluster: nat): nat {
    var off := EntryOffset(v.fatType, cluster);
    EntryOf(v.fatType, cluster, TableByte(disk, v, off), TableByte(disk, v, off + 1), TableByte(disk, v, off + 2),
            TableByte(disk, v, off + 3))
  }

  /** Two 12-bit entries share three bytes: written as the standard packs them, both read back. */
  lemma TwelveBitPairs(even: nat, odd: nat, cluster: nat)
    requires even < 4096 && odd < 4096 && cluster % 2 == 0
    ensures var b0, b1, b2 := even % 256, even / 256 + 16 * (odd % 16), odd / 16;
            && b0 < 256 && b1 < 256 && b2 < 256
            && EntryOffset(Fat12, cluster + 1) == EntryOffset(Fat12, cluster) + 1
            && EntryOffset(Fat12, cluster + 2) == EntryOffset(Fat12, cluster) + 3
            && EntryEnd(Fat12, cluster) == EntryOffset(Fat12, cluster) + 2
            && EntryEnd(Fat12, cluster + 1) == EntryOffset(Fat12, cluster + 2)
            && EntryOf(Fat12, cluster, b0, b1, b2, 0) == even
            && EntryOf(Fat12, cluster + 1, b1, b2, 0, 0) == odd
  {
    var e, o := even / 256, odd % 16;
    assert even == 256 * e + even % 256 && odd == 16 * (odd / 16) + o;
    var raw := even % 256 + 256 * (e + 16 * o);
    assert raw == 4096 * o + even;
    assert raw % 4096 == even;
    var raw' := e + 16 * o + 256 * (odd / 16);
    assert raw' == 16 * odd + e;
    assert raw' / 16 == odd;
  }

  /** A 16-bit entry is two bytes, the low one first, and the next entry follows. */
  lemma SixteenBitEntry(value: nat, cluster: nat, b2: Byte, b3: Byte)
    requires value < 65536
    ensures EntryOf(Fat16, cluster, value % 256, value / 256, b2, b3) == value
    ensures EntryOffset(Fat16, 0) == 0 && EntryOffset(Fat16, cluster + 1) == EntryOffset(Fat16, cluster) + 2
    ensures EntryEnd(Fat16, cluster) == EntryOffset(Fat16, cluster + 1)
  {
  }

  /** A 32-bit entry is four, of which the top four bits are reserved and not part of it. */
  lemma ThirtyTwoBitEntry(reserved: nat, value: nat, cluster: nat)
    requires reserved < 16 && value < 0x1000_0000
    ensures var raw := reserved * 0x1000_0000 + value;
            && raw / 0x100_0000 < 256
            && EntryOf(Fat32, cluster, raw % 256, raw / 0x100 % 256, raw / 0x1_0000 % 256, raw / 0x100_0000) == value
    ensures EntryOffset(Fat32, 0) == 0 && EntryOffset(Fat32, cluster + 1) == EntryOffset(Fat32, cluster) + 4
    ensures EntryEnd(Fat32, cluster) == EntryOffset(Fat32, cluster + 1)
  {
    var raw := reserved * 0x1000_0000 + value;
    FourBytes(raw);
    assert raw % 0x1000_0000 == value;
  }

  lemma FourBytes(n: nat)
    ensures n == n % 256 + 256 * (n / 0x100 % 256) + 65536 * (n / 0x1_0000 % 256) + 16777216 * (n / 0x100_0000)
  {
    var a, b, c := n / 0x100, n / 0x1_0000, n / 0x100_0000;
    assert n == 256 * a + n % 256 && a == 256 * b + a % 256 && b == 256 * c + b % 256;
  }

  function EndMarker(t: FatType): nat {
    match t
    case Fat12 => 0xFF8
    case Fat16 => 0xFFF8
    case Fat32 => 0x0FFF_FFF8
  }

  // ---- Chains ----

  datatype Link = To(cluster: nat) | End | Broken

  predicate IsCluster(v: Volume, c: nat) {
    2 <= c <= v.maxCluster
  }

  /** What follows a cluster. */
  function NextOf(disk: seq<Byte>, v: Volume, c: nat): Link {
    if !IsCluster(v, c) then Broken
    else
      var entry := EntryValue(disk, v, c);
      if entry >= EndMarker(v.fatType) then End
      else if !IsCluster(v, entry) then Broken
      else To(entry)
  }

  /** The n-th cluster of the chain that starts at first. */
  function Nth(disk: seq<Byte>, v: Volume, first: nat, n: nat): Link {
    if n == 0 then To(first)
    else match Nth(disk, v, first, n - 1)
      case To(c) => NextOf(disk, v, c)
      case End => End
      case Broken => Broken
  }

  /** A chain seen from its i-th cluster on is the chain of that cluster. */
  lemma {:induction false} NthFrom(disk: seq<Byte>, v: Volume, first: nat, i: nat, k: nat)
    requires Nth(disk, v, first, i).To?
    ensures Nth(disk, v, first, i + k) == Nth(disk, v, Nth(disk, v, first, i).cluster, k)
  {
    hide NextOf;
    if k > 0 {
      NthFrom(disk, v, first, i, k - 1);
    }
  }

  lemma {:induction false} NthStays(disk: seq<Byte>, v: Volume, first: nat, i: nat, k: nat)
    requires i <= k
    ensures !Nth(disk, v, first, i).To? ==> Nth(disk, v, first, k) == Nth(disk, v, first, i)
    decreases k
  {
    hide NextOf;
    if i < k {
      NthStays(disk, v, first, i, k - 1);
    }
  }

  lemma {:induction false} NthIsCluster(disk: seq<Byte>, v: Volume, first: nat, n: nat)
    requires IsCluster(v, first) && Nth(disk, v, first, n).To?
    ensures IsCluster(v, Nth(disk, v, first, n).cluster)
  {
    hide EntryValue;
    if n > 0 {
      NthIsCluster(disk, v, first, n - 1);
    }
  }

  // ---- Files ----

  function ClusterBytes(v: Volume): nat {
    v.sectorsPerCluster * SECTOR
  }

  function ClusterToByte(v: Volume, c: nat): nat
    requires c >= 2
  {
    (v.dataStartSector + (c - 2) * v.sectorsPerCluster) * SECTOR
  }

  /** Byte p of the file is b: its cluster is on the chain and the disk holds b there. */
  predicate FileHolds(disk: seq<Byte>, v: Volume, first: nat, p: nat, b: Byte) {
    ClusterBytes(v) > 0 &&
    match Nth(disk, v, first, p / ClusterBytes(v))
    case To(c) => c >= 2 && var at := ClusterToByte(v, c) + p % ClusterBytes(v); at < |disk| && disk[at] == b
    case End => false
    case Broken => false
  }

  // ---- Mounting ----

  /** Every cluster the volume admits has its entry inside the table. */
  ghost predicate EntriesInside(v: Volume) {
    forall c :: 0 <= c <= v.maxCluster ==> EntryEnd(v.fatType, c) <= v.fatSectors * SECTOR
  }

  lemma EntryEndGrows(t: FatType, c: nat, d: nat)
    requires c < d
    ensures EntryEnd(t, c) < EntryEnd(t, d)
  {
  }

  /** The largest cluster number whose entry lies entirely inside a table of this many bytes. */
  method TableCapacity(t: FatType, fatBytes: nat) returns (n: nat)
    requires fatBytes >= SECTOR
    ensures EntryEnd(t, n) <= fatBytes < EntryEnd(t, n + 1)
  {
    match t
    case Fat16 =>
      n := fatBytes / 2 - 1;
    case Fat32 =>
      n := fatBytes / 4 - 1;
    case Fat12 =>
      n := (fatBytes - 2) * 2 / 3;
      while n + 1 + (n + 1) / 2 + 2 <= fatBytes
        invariant n >= 0
        decreases fatBytes - n
      {
        n := n + 1;
      }
      while n + n / 2 + 2 > fatBytes
        invariant n + 1 + (n + 1) / 2 + 2 > fatBytes
        decreases n
      {
        n := n - 1;
      }
  }

  function Le16(boot: seq<Byte>, at: nat): nat
    requires at + 2 <= |boot|
  {
    boot[at] as int + 256 * (boot[at + 1] as int)
  }

  function Le32(boot: seq<Byte>, at: nat): nat
    requires at + 4 <= |boot|
  {
    Le16(boot, at) + 65536 * Le16(boot, at + 2)
  }

  /** The boot sector's numbers have their low byte first. */
  lemma LittleEndian(boot: seq<Byte>, at: nat, n: nat)
    requires at + 4 <= |boot| && n < 0x1_0000_0000
    requires boot[at] == n % 256 && boot[at + 1] == n / 0x100 % 256 && boot[at + 2] == n / 0x1_0000 % 256
        && boot[at + 3] == n / 0x100_0000
    ensures Le16(boot, at) == n % 0x1_0000 && Le32(boot, at) == n
  {
    FourBytes(n);
    var a := n / 0x100;
    assert n == 256 * a + n % 256 && n / 0x1_0000 == a / 256 && n % 0x1_0000 == n % 256 + 256 * (a % 256);
  }

  datatype Mounted = Ok(volume: Volume, totalSectors: nat, clusterCount: nat) | NotSupported

  /** What a mounted volume's numbers promise: whole clusters inside the volume, every entry inside the table, the table
      before the data, and cluster numbers below the marker values. */
  ghost predicate MountOk(v: Volume, totalSectors: nat) {
    && v.sectorsPerCluster > 0 && v.maxCluster >= 2 && v.fatSectors > 0 && v.fatStartSector > 0
    && EntriesInside(v)
    && v.fatStartSector + v.fatSectors <= v.dataStartSector
    && v.maxCluster < EndMarker(v.fatType) - 1
    && (forall c :: IsCluster(v, c) ==> ClusterToByte(v, c) + ClusterBytes(v) <= totalSectors * SECTOR)
    && (v.fatType.Fat32? ==> IsCluster(v, v.rootCluster))
  }

  function Min(a: nat, b: nat): nat {
    if a < b then a else b
  }

  function TypeLimit(t: FatType): nat {
    match t
    case Fat12 => 0xFF6
    case Fat16 => 0xFFF6
    case Fat32 => 0x0FFF_FFF6
  }

  /** An entry ends its chain if it is one of the eight greatest values it can be; no cluster the driver admits has a
      number that near the end. */
  lemma MarkersAtTheTop(t: FatType)
    ensures EndMarker(t) + 8 == match t case Fat12 => 0x1000 case Fat16 => 0x1_0000 case Fat32 => 0x1000_0000
    ensures TypeLimit(t) + 2 == EndMarker(t)
  {
  }

  /** The clusters lie one behind the other from the start of the data. */
  lemma ClustersInLine(v: Volume, c: nat)
    requires c >= 2
    ensures ClusterToByte(v, 2) == v.dataStartSector * SECTOR
    ensures ClusterToByte(v, c + 1) == ClusterToByte(v, c) + v.sectorsPerCluster * SECTOR
  {
    var d, s := c - 2, v.sectorsPerCluster;
    assert (d + 1) * s == d * s + s;
  }

  /** The kind of volume the driver takes this for. */
  function DriverType(fatSize16: nat, clusterCount: nat): FatType {
    if fatSize16 == 0 then Fat32 else if clusterCount < 4085 then Fat12 else Fat16
  }

  /** The kind of volume by the standard's section "FAT Type Determination": by the count of clusters and nothing
      else. */
  function StandardType(clusterCount: nat): FatType {
    if clusterCount < 4085 then Fat12 else if clusterCount < 65525 then Fat16 else Fat32
  }

  /** The driver agrees with the standard exactly on volumes that have no 16-bit table size if and only if they have at
      least 65525 clusters; a volume of 100 clusters without one is Fat32 here and Fat12 there. */
  lemma TypesAgree(fatSize16: nat, clusterCount: nat)
    ensures DriverType(fatSize16, clusterCount) == StandardType(clusterCount)
        <==> (fatSize16 == 0 <==> clusterCount >= 65525)
    ensures DriverType(0, 100) != StandardType(100)
  {
  }

  /** maxCluster is the last cluster that the data area, the entry width and the table all have room for. */
  ghost predicate MaxClusterIs(v: Volume, clusterCount: nat) {
    && v.maxCluster <= clusterCount + 1 && v.maxCluster <= TypeLimit(v.fatType)
    && EntryEnd(v.fatType, v.maxCluster) <= v.fatSectors * SECTOR
    && (v.maxCluster == clusterCount + 1 || v.maxCluster == TypeLimit(v.fatType)
        || EntryEnd(v.fatType, v.maxCluster + 1) > v.fatSectors * SECTOR)
  }

  // ---- The boot sector's fields, by the standard's section "Boot Sector and BPB" ----

  function TotalSectors(boot: seq<Byte>): nat
    requires |boot| == SECTOR
  {
    if Le16(boot, 19) != 0 then Le16(boot, 19) else Le32(boot, 32)
  }

  function FatSize(boot: seq<Byte>): nat
    requires |boot| == SECTOR
  {
    if Le16(boot, 22) != 0 then Le16(boot, 22) else Le32(boot, 36)
  }

  /** The copy of the table in use: the first, unless only one is kept up to date. */
  function ActiveFat(boot: seq<Byte>): nat
    requires |boot| == SECTOR
  {
    if Le16(boot, 22) == 0 && Le16(boot, 40) / 0x80 % 2 == 1 then Le16(boot, 40) % 16 else 0
  }

  function RootDirSectors(boot: seq<Byte>): nat
    requires |boot| == SECTOR
  {
    if Le16(boot, 22) == 0 then 0 else (Le16(boot, 17) * 32 + SECTOR - 1) / SECTOR
  }

  function DataStart(boot: seq<Byte>): nat
    requires |boot| == SECTOR
  {
    Le16(boot, 14) + boot[16] as int * FatSize(boot) + RootDirSectors(boot)
  }

  /** It looks like a volume the driver knows the layout of. */
  ghost predicate Recognised(boot: seq<Byte>)
    requires |boot| == SECTOR
  {
    && boot[510] == 0x55 && boot[511] == 0xAA && (boot[0] == 0xEB || boot[0] == 0xE9)
    && (boot[21] == 0xF0 || boot[21] >= 0xF8)
    && Le16(boot, 11) == SECTOR && boot[13] > 0 && IsPower2(boot[13] as int)
    && Le16(boot, 14) > 0 && boot[16] > 0 && FatSize(boot) > 0 && ActiveFat(boot) < boot[16] as int
    && (if Le16(boot, 22) == 0 then Le16(boot, 42) == 0 else Le16(boot, 17) > 0)
  }

  /** There is at least one whole cluster, and where the root directory is a chain its first cluster can be used. */
  ghost predicate Populated(boot: seq<Byte>)
    requires |boot| == SECTOR && boot[13] > 0
  {
    && DataStart(boot) + boot[13] as int <= TotalSectors(boot)
    && (Le16(boot, 22) == 0 ==>
          var root := Le32(boot, 44);
          && 2 <= root <= TypeLimit(Fat32) && EntryEnd(Fat32, root) <= FatSize(boot) * SECTOR
          && root <= (TotalSectors(boot) - DataStart(boot)) / (boot[13] as int) + 1)
  }

  /** Sectors are whole numbers of the disk's blocks. */
  predicate WholeBlocks(blockSize: nat) {
    blockSize > 0 && SECTOR % blockSize == 0
  }

  /** fat_mount, once the boot sector has been read: which volumes it accepts, and where it finds their parts. */
  method FatMount(blockSize: nat, boot: seq<Byte>) returns (r: Mounted)
    requires |boot| == SECTOR
    ensures r.Ok? <==> WholeBlocks(blockSize) && Recognised(boot) && Populated(boot)
    ensures r.Ok? ==> MountOk(r.volume, r.totalSectors) && MaxClusterIs(r.volume, r.clusterCount)
    ensures r.Ok? ==> r.volume.fatType == DriverType(Le16(boot, 22), r.clusterCount)
    ensures r.Ok? ==> r.totalSectors == TotalSectors(boot) && r.volume.dataStartSector == DataStart(boot)
    ensures r.Ok? ==> r.clusterCount == (TotalSectors(boot) - DataStart(boot)) / (boot[13] as int)
    ensures r.Ok? ==> r.volume.sectorsPerCluster == boot[13] as int && r.volume.fatSectors == FatSize(boot)
    ensures r.Ok? ==> r.volume.fatStartSector == Le16(boot, 14) + ActiveFat(boot) * FatSize(boot)
    ensures r.Ok? && r.volume.fatType.Fat32? ==> r.volume.rootCluster == Le32(boot, 44)
  {
    hide IsPower2, Le16, Le32, MountOk, MaxClusterIs, EntryEnd, CanCount, WholeBlocks;
    if !WholeBlocks(blockSize) {
      return NotSupported;
    }
    if boot[510] != 0x55 || boot[511] != 0xAA || (boot[0] != 0xEB && boot[0] != 0xE9) {
      return NotSupported;
    }
    var bytesPerSector, sectorsPerCluster, reservedSectors := Le16(boot, 11), boot[13] as int, Le16(boot, 14);
    var fatCount, rootEntries, totalSectors := boot[16] as int, Le16(boot, 17), Le16(boot, 19);
    var media, fatSectors := boot[21], Le16(boot, 22);
    if totalSectors == 0 {
      totalSectors := Le32(boot, 32);
    }
    if media != 0xF0 && media < 0xF8 {
      return NotSupported;
    }
    if bytesPerSector != SECTOR || sectorsPerCluster == 0 || !IsPower2(sectorsPerCluster) {
      return NotSupported;
    }
    var isFat32 := fatSectors == 0;
    var rootCluster, rootDirSectors, activeFat: nat := 0, 0, 0;
    if isFat32 {
      fatSectors := Le32(boot, 36);
      var extFlags := Le16(boot, 40);
      rootCluster := Le32(boot, 44);
      if Le16(boot, 42) != 0 {
        return NotSupported;
      }
      if extFlags / 0x80 % 2 == 1 {
        activeFat := extFlags % 16;
        if activeFat >= fatCount {
          return NotSupported;
        }
      }
    } else {
      if rootEntries == 0 {
        return NotSupported;
      }
      rootDirSectors := (rootEntries * 32 + SECTOR - 1) / SECTOR;
    }
    if reservedSectors == 0 || fatCount == 0 || fatSectors == 0 {
      return NotSupported;
    }
    var dataStart := reservedSectors + fatCount * fatSectors + rootDirSectors;
    if dataStart >= totalSectors {
      return NotSupported;
    }
    TableBeforeData(reservedSectors, fatCount, fatSectors, rootDirSectors, activeFat);
    r := CountClusters(isFat32, sectorsPerCluster, reservedSectors + activeFat * fatSectors, fatSectors, dataStart,
                       totalSectors, rootCluster);
    CanCountPopulated(boot);
  }

  /** What CountClusters accepts. */
  ghost predicate CanCount(isFat32: bool, sectorsPerCluster: nat, fatSectors: nat, room: nat, root: nat)
    requires sectorsPerCluster > 0
  {
    && sectorsPerCluster <= room
    && (isFat32 ==>
          && 2 <= root <= TypeLimit(Fat32) && EntryEnd(Fat32, root) <= fatSectors * SECTOR
          && root <= room / sectorsPerCluster + 1)
  }

  lemma CanCountPopulated(boot: seq<Byte>)
    requires |boot| == SECTOR && boot[13] > 0 && DataStart(boot) < TotalSectors(boot)
    ensures Populated(boot) <==>
            CanCount(Le16(boot, 22) == 0, boot[13] as int, FatSize(boot), TotalSectors(boot) - DataStart(boot),
                     if Le16(boot, 22) == 0 then Le32(boot, 44) else 0)
  {
    hide Le16, Le32, EntryEnd, TotalSectors, DataStart, FatSize;
  }

  /** The part of fat_mount that works out the type and the last cluster. */
  method CountClusters(isFat32: bool, sectorsPerCluster: nat, fatStart: nat, fatSectors: nat, dataStart: nat,
                       totalSectors: nat, rootCluster: nat) returns (r: Mounted)
    requires sectorsPerCluster > 0 && fatSectors > 0 && fatStart > 0 && dataStart < totalSectors
    requires fatStart + fatSectors <= dataStart
    ensures r.Ok? <==> CanCount(isFat32, sectorsPerCluster, fatSectors, totalSectors - dataStart, rootCluster)
    ensures r.Ok? ==> MountOk(r.volume, r.totalSectors) && MaxClusterIs(r.volume, r.clusterCount)
    ensures r.Ok? ==> r.volume.fatType == if isFat32 then Fat32 else if r.clusterCount < 4085 then Fat12 else Fat16
    ensures r.Ok? ==> r.clusterCount == (totalSectors - dataStart) / sectorsPerCluster
    ensures r.Ok? ==> r.totalSectors == totalSectors
    ensures r.Ok? ==> r.volume == Volume(r.volume.fatType, sectorsPerCluster, fatStart, fatSectors, dataStart,
                                         r.volume.maxCluster, rootCluster)
  {
    hide EntryEnd, MountOk, MaxClusterIs;
    var clusterCount := (totalSectors - dataStart) / sectorsPerCluster;
    var fatType := if isFat32 then Fat32 else if clusterCount < 4085 then Fat12 else Fat16;
    var capacity := TableCapacity(fatType, fatSectors * SECTOR);
    var maxCluster := Min(Min(clusterCount + 1, TypeLimit(fatType)), capacity);
    WholeCluster(totalSectors - dataStart, sectorsPerCluster);
    CapacityHolds(fatType, fatSectors, capacity, rootCluster);
    if maxCluster < 2 {
      return NotSupported;
    }
    if isFat32 && (rootCluster < 2 || rootCluster > maxCluster) {
      return NotSupported;
    }
    var v := Volume(fatType, sectorsPerCluster, fatStart, fatSectors, dataStart, maxCluster, rootCluster);
    MountedOk(v, totalSectors, clusterCount, capacity);
    r := Ok(v, totalSectors, clusterCount);
  }

  lemma WholeCluster(room: nat, sectorsPerCluster: nat)
    requires sectorsPerCluster > 0
    ensures room / sectorsPerCluster >= 1 <==> sectorsPerCluster <= room
  {
    if sectorsPerCluster > room {
      assert room / sectorsPerCluster == 0;
    }
  }

  /** A table of a sector or more has room for more than two entries; and the capacity is where the room ends. */
  lemma CapacityHolds(t: FatType, fatSectors: nat, capacity: nat, c: nat)
    requires fatSectors > 0 && EntryEnd(t, capacity) <= fatSectors * SECTOR < EntryEnd(t, capacity + 1)
    ensures capacity >= 2
    ensures EntryEnd(t, c) <= fatSectors * SECTOR <==> c <= capacity
  {
    assert EntryEnd(t, capacity + 1) <= 4 * capacity + 8;
    if c < capacity { EntryEndGrows(t, c, capacity); }
    if c > capacity + 1 { EntryEndGrows(t, capacity + 1, c); }
  }

  lemma TableBeforeData(reserved: nat, fatCount: nat, fatSectors: nat, rootDir: nat, active: nat)
    requires active < fatCount
    ensures reserved + active * fatSectors + fatSectors <= reserved + fatCount * fatSectors + rootDir
  {
    assert fatCount * fatSectors == active * fatSectors + (fatCount - active) * fatSectors;
    Multiples(1, fatCount - active, fatSectors);
  }

  lemma MountedOk(v: Volume, totalSectors: nat, clusterCount: nat, capacity: nat)
    requires v.sectorsPerCluster > 0 && v.fatSectors > 0 && v.fatStartSector > 0 && v.maxCluster >= 2
    requires v.dataStartSector < totalSectors
        && clusterCount == (totalSectors - v.dataStartSector) / v.sectorsPerCluster
    requires EntryEnd(v.fatType, capacity) <= v.fatSectors * SECTOR < EntryEnd(v.fatType, capacity + 1)
    requires v.maxCluster == Min(Min(clusterCount + 1, TypeLimit(v.fatType)), capacity)
    requires v.fatStartSector + v.fatSectors <= v.dataStartSector
    requires v.fatType.Fat32? ==> IsCluster(v, v.rootCluster)
    ensures MountOk(v, totalSectors) && MaxClusterIs(v, clusterCount)
  {
    hide EntryEnd;
    forall c | 0 <= c <= v.maxCluster
      ensures EntryEnd(v.fatType, c) <= v.fatSectors * SECTOR
    {
      if c < capacity { EntryEndGrows(v.fatType, c, capacity); }
    }
    forall c | IsCluster(v, c)
      ensures ClusterToByte(v, c) + ClusterBytes(v) <= totalSectors * SECTOR
    {
      ClusterInside(v, totalSectors, clusterCount, c);
    }
  }

  lemma ClusterInside(v: Volume, totalSectors: nat, clusterCount: nat, c: nat)
    requires v.sectorsPerCluster > 0 && v.dataStartSector < totalSectors
    requires clusterCount == (totalSectors - v.dataStartSector) / v.sectorsPerCluster && 2 <= c <= clusterCount + 1
    ensures ClusterToByte(v, c) + ClusterBytes(v) <= totalSectors * SECTOR
  {
    var spc, room := v.sectorsPerCluster, totalSectors - v.dataStartSector;
    assert room == clusterCount * spc + room % spc;
    Multiples(c - 1, clusterCount, spc);
    assert (c - 1) * spc == (c - 2) * spc + spc;
  }
}
