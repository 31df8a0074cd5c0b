/** Reading a file: a disk that may fail or fall short, a two-sector table cache, a seek hint, and runs of clusters. */
module FatReader {
  import opened Arithmetic
  import opened Words
  import opened FatVolume

  /** The disk. Its contents never change; a transfer may fail, or move fewer bytes than asked. A reliable disk does
      neither while the bytes asked for exist. */
  class Disk {
    const bytes: seq<Byte>
    const reliable: bool

    constructor (contents: seq<Byte>, sound: bool)
      ensures bytes == contents && reliable == sound
    {
      bytes, reliable := contents, sound;
    }

    /** Moves up to `length` bytes from `offset` on into the buffer. A failed transfer may leave anything behind. */
    method Transfer(buffer: array<Byte>, at: nat, length: nat, offset: nat) returns (status: int, transferred: nat)
      requires at + length <= buffer.Length
      modifies buffer
      ensures forall i :: 0 <= i < buffer.Length && !(at <= i < at + length) ==> buffer[i] == old(buffer[i])
      ensures status >= 0
      ensures status == 0 ==>
                && transferred <= length
                && (transferred > 0 ==>
                      offset + transferred <= |bytes|
                          && buffer[at..at + transferred] == bytes[offset..offset + transferred])
      ensures reliable && offset + length <= |bytes| ==> status == 0 && transferred == length
    {
      var broken: bool := *;
      if broken && !reliable {
        var junk: seq<Byte> := *;
        forall i | 0 <= i < length && i < |junk| {
          buffer[at + i] := junk[i];
        }
        status, transferred := EIO, 0;
      } else {
        var available := if offset < |bytes| then |bytes| - offset else 0;
        var most := if length < available then length else available;
        transferred := most;
        if !reliable {
          transferred :| 0 <= transferred <= most;
        }
        forall i | 0 <= i < transferred {
          buffer[at + i] := bytes[offset + i];
        }
        status := 0;
      }
    }

    /** fat_disk_read: exactly `length` bytes, or an error. */
    method Read(buffer: array<Byte>, length: nat, offset: nat) returns (status: int)
      requires length <= buffer.Length && length > 0
      modifies buffer
      ensures status >= 0
      ensures status == 0 ==> offset + length <= |bytes| && buffer[..length] == bytes[offset..offset + length]
      ensures reliable && offset + length <= |bytes| ==> status == 0
    {
      var transferred;
      status, transferred := Transfer(buffer, 0, length, offset);
      if status == 0 && transferred != length {
        status := EIO;
      }
    }
  }

  /** A transfer in progress: where the next byte goes, what it is in the file, and how many are still wanted. */
  class Transfer {
    const buffer: array<Byte>
    var address: nat
    var offset: nat
    var lengthRemaining: nat

    constructor (destination: array<Byte>, length: nat, at: nat)
      requires length <= destination.Length
      ensures buffer == destination && address == 0 && offset == at && lengthRemaining == length
    {
      buffer, address, offset, lengthRemaining := destination, 0, at, length;
    }

    ghost predicate Room()
      reads this
    {
      address + lengthRemaining <= buffer.Length
    }

    method Advance(n: nat)
      requires n <= lengthRemaining
      modifies this
      ensures address == old(address) + n && offset == old(offset) + n && lengthRemaining == old(lengthRemaining) - n
    {
      address, offset, lengthRemaining := address + n, offset + n, lengthRemaining - n;
    }
  }

  // ---- The table cache ----

  datatype CacheSlot = CacheSlot(valid: bool, sector: nat, data: seq<Byte>)

  function TableSlice(disk: seq<Byte>, v: Volume, off: nat, n: nat): (s: seq<Byte>)
    ensures |s| == n && forall k :: 0 <= k < n ==> s[k] == TableByte(disk, v, off + k)
  {
    seq<Byte>(n, (k: int) requires 0 <= k < n => TableByte(disk, v, off + k))
  }

  /** The table's sector. */
  predicate SectorIs(disk: seq<Byte>, v: Volume, sector: nat, data: seq<Byte>) {
    data == TableSlice(disk, v, sector * SECTOR, SECTOR)
  }

  predicate CacheOk(disk: seq<Byte>, v: Volume, cache: seq<CacheSlot>, mru: nat) {
    && |cache| == 2 && mru < 2
    && forall i :: 0 <= i < 2 && cache[i].valid ==> SectorIs(disk, v, cache[i].sector, cache[i].data)
  }

  /** The hint names the true cluster of its chain. */
  predicate HintOk(disk: seq<Byte>, v: Volume, first: nat, index: nat, cluster: nat) {
    first != 0 ==> Nth(disk, v, first, index) == To(cluster)
  }

  /** The whole volume is there to be read: the table, and every cluster. */
  ghost predicate Complete(disk: seq<Byte>, v: Volume) {
    && (v.fatStartSector + v.fatSectors) * SECTOR <= |disk|
    && forall c :: IsCluster(v, c) ==> ClusterToByte(v, c) + ClusterBytes(v) <= |disk|
  }

  class Fat {
    const disk: Disk
    const volume: Volume
    var cache: seq<CacheSlot>
    var cacheMru: nat
    var hintFirstCluster: nat
    var hintIndex: nat
    var hintCluster: nat

    ghost predicate Valid()
      reads this
    {
      && CacheOk(disk.bytes, volume, cache, cacheMru)
      && HintOk(disk.bytes, volume, hintFirstCluster, hintIndex, hintCluster)
      && volume.sectorsPerCluster > 0 && EntriesInside(volume)
    }

    /** Nothing can go wrong but the file itself. */
    ghost predicate Healthy() {
      disk.reliable && Complete(disk.bytes, volume)
    }

    constructor (d: Disk, v: Volume)
      requires v.sectorsPerCluster > 0 && EntriesInside(v)
      ensures Valid() && disk == d && volume == v
    {
      disk, volume := d, v;
      cache := [CacheSlot(false, 0, []), CacheSlot(false, 0, [])];
      cacheMru, hintFirstCluster, hintIndex, hintCluster := 0, 0, 0, 0;
    }

    /** fat_cache_get: a sector of the table, from the cache or the disk. */
    method CacheGet(sector: nat) returns (status: int, data: seq<Byte>)
      requires Valid()
      modifies this`cache, this`cacheMru
      ensures Valid() && status >= 0
      ensures status == 0 ==> SectorIs(disk.bytes, volume, sector, data)
      ensures Healthy() && sector < volume.fatSectors ==> status == 0
    {
      hide EntriesInside, SectorIs, HintOk;
      for i := 0 to 2
        invariant Valid() && cache == old(cache)
      {
        if cache[i].valid && cache[i].sector == sector {
          cacheMru := i;
          return 0, cache[i].data;
        }
      }
      var victim := if !cache[0].valid then 0 else if !cache[1].valid then 1 else 1 - cacheMru;
      cache := cache[victim := cache[victim].(valid := false)];
      var buffer := new Byte[SECTOR];
      status := disk.Read(buffer, SECTOR, (volume.fatStartSector + sector) * SECTOR);
      if status != 0 {
        HealthySector(disk.bytes, volume, sector);
        return status, [];
      }
      data := buffer[..];
      SectorRead(disk.bytes, volume, sector, data);
      cache := cache[victim := CacheSlot(true, sector, data)];
      cacheMru := victim;
    }

    /** fat_read_entry: the value stored for a cluster, which may lie across two sectors. */
    method ReadEntry(cluster: nat) returns (status: int, value: nat)
      requires Valid() && cluster <= volume.maxCluster
      modifies this`cache, this`cacheMru
      ensures Valid() && status >= 0
      ensures status == 0 ==> value == EntryValue(disk.bytes, volume, cluster)
      ensures Healthy() ==> status == 0
    {
      hide EntriesInside, SectorIs, HintOk, CacheOk, EntryValue, Complete, EntryOf, TableSlice;
      value := 0;
      var offset, length := EntryOffset(volume.fatType, cluster), EntryLength(volume.fatType);
      var bytes;
      EntryPlace(volume, cluster);
      status, bytes := TableBytes(offset, length);
      if status == 0 {
        EntryFrom(disk.bytes, volume, cluster, bytes);
        value := EntryOf(volume.fatType, cluster, bytes[0], bytes[1], if length == 4 then bytes[2] else 0,
                         if length == 4 then bytes[3] else 0);
      }
    }

    /** The bytes that hold an entry, from one sector of the table or from two. */
    method TableBytes(offset: nat, length: nat) returns (status: int, bytes: seq<Byte>)
      requires Valid() && 2 <= length <= 4
      modifies this`cache, this`cacheMru
      ensures Valid() && status >= 0
      ensures status == 0 ==> |bytes| == length && bytes == TableSlice(disk.bytes, volume, offset, length)
      ensures Healthy() && offset / SECTOR < volume.fatSectors ==>
                (offset % SECTOR + length > SECTOR ==> offset / SECTOR + 1 < volume.fatSectors) ==> status == 0
    {
      hide EntriesInside, SectorIs, HintOk, CacheOk, Complete, TableSlice;
      var sector, within := offset / SECTOR, offset % SECTOR;
      var firstPart := if length < SECTOR - within then length else SECTOR - within;
      var data;
      bytes := [];
      if sector >= volume.fatSectors {
        status := EIO;
      } else {
        status, data := CacheGet(sector);
      }
      if status == 0 {
        SectorSlice(disk.bytes, volume, sector, data, within, firstPart);
        bytes := data[within..within + firstPart];
        if firstPart < length {
          if sector + 1 >= volume.fatSectors {
            status := EIO;
          } else {
            status, data := CacheGet(sector + 1);
          }
          if status == 0 {
            SectorSlice(disk.bytes, volume, sector + 1, data, 0, length - firstPart);
            bytes := bytes + data[..length - firstPart];
          }
        }
        SliceJoin(disk.bytes, volume, offset, firstPart, length - firstPart);
      }
    }

    /** fat_next_cluster. */
    method NextCluster(cluster: nat) returns (status: int, next: nat)
      requires Valid()
      modifies this`cache, this`cacheMru
      ensures Valid() && status >= FAT_END
      ensures status == 0 ==> NextOf(disk.bytes, volume, cluster) == To(next)
      ensures status == FAT_END ==> NextOf(disk.bytes, volume, cluster) == End
      ensures Healthy() ==> (status > 0 <==> NextOf(disk.bytes, volume, cluster) == Broken)
    {
      hide EntriesInside, CacheOk, HintOk, EntryValue, Complete;
      next := 0;
      if cluster < 2 || cluster > volume.maxCluster {
        return EIO, 0;
      }
      var entry;
      status, entry := ReadEntry(cluster);
      if status != 0 {
        return;
      }
      if entry >= EndMarker(volume.fatType) {
        return FAT_END, 0;
      }
      if entry < 2 || entry > volume.maxCluster {
        return EIO, 0;
      }
      next := entry;
    }

    method SetHint(first: nat, index: nat, cluster: nat)
      requires Valid() && (first != 0 ==> Nth(disk.bytes, volume, first, index) == To(cluster))
      modifies this`hintFirstCluster, this`hintIndex, this`hintCluster
      ensures Valid()
    {
      hide EntriesInside, CacheOk, Nth;
      hintFirstCluster, hintIndex, hintCluster := first, index, cluster;
    }

    /** fat_cluster_at: the cluster a number of steps along a chain, from the hint if that is on the way. */
    method ClusterAt(first: nat, index: nat) returns (status: int, cluster: nat)
      requires Valid() && first != 0
      modifies this
      ensures Valid() && status >= FAT_END
      ensures status == 0 ==> Nth(disk.bytes, volume, first, index) == To(cluster)
      ensures status == FAT_END ==> Nth(disk.bytes, volume, first, index) == End
      ensures Healthy() ==> (status > 0 <==> Nth(disk.bytes, volume, first, index) == Broken)
    {
      hide EntriesInside, CacheOk, NextOf, Complete;
      cluster := first;
      var i := 0;
      if hintFirstCluster == first && hintIndex <= index {
        cluster, i := hintCluster, hintIndex;
      }
      while i < index
        invariant Valid() && i <= index && Nth(disk.bytes, volume, first, i) == To(cluster)
      {
        var next;
        status, next := NextCluster(cluster);
        if status != 0 {
          NthStays(disk.bytes, volume, first, i + 1, index);
          return;
        }
        cluster, i := next, i + 1;
      }
      SetHint(first, index, cluster);
      status := 0;
    }

    // ---- File data ----

    /** fat_read_linear: copies a stretch of the disk into the transfer, whole sectors directly and the rest by way of a
        buffer. The whole sectors it touches lie below `limit`. */
    method ReadLinear(from: nat, length: nat, io: Transfer, ghost limit: nat) returns (status: int)
      requires io.Room() && length <= io.lengthRemaining && limit % SECTOR == 0 && from + length <= limit
      modifies io, io.buffer
      ensures status >= 0 && io.Room()
      ensures status == 0 ==>
                && io.address == old(io.address) + length && io.offset == old(io.offset) + length
                && io.lengthRemaining == old(io.lengthRemaining) - length
      ensures status == 0 && length > 0 ==>
                && from + length <= |disk.bytes|
                && io.buffer[old(io.address)..old(io.address) + length] == disk.bytes[from..from + length]
      ensures Untouched(old(io.buffer[..]), io.buffer[..], old(io.address), length)
      ensures disk.reliable && limit <= |disk.bytes| ==> status == 0
    {
      var diskByte, count := from, length;
      ghost var a0, done, before := io.address, 0, io.buffer[..];
      while count != 0
        invariant io.Room() && done + count == length && diskByte == from + done
        invariant io.address == a0 + done && io.offset == old(io.offset) + done
        invariant io.lengthRemaining == old(io.lengthRemaining) - done
        invariant done > 0 ==> from + done <= |disk.bytes| && io.buffer[a0..a0 + done] == disk.bytes[from..from + done]
        invariant Untouched(before, io.buffer[..], a0, length)
        decreases count
      {
        var n;
        status, n := ReadPart(diskByte, count, io, limit);
        if status != 0 {
          return;
        }
        PartJoins(disk.bytes, io.buffer[..], a0, from, done, n);
        io.Advance(n);
        diskByte, count := diskByte + n, count - n;
        done := done + n;
      }
      status := 0;
    }

    /** One step of fat_read_linear. */
    method ReadPart(diskByte: nat, count: nat, io: Transfer, ghost limit: nat) returns (status: int, n: nat)
      requires io.Room() && 0 < count <= io.lengthRemaining && limit % SECTOR == 0 && diskByte + count <= limit
      modifies io.buffer
      ensures status >= 0
      ensures status == 0 ==>
                && 0 < n <= count && diskByte + n <= |disk.bytes|
                && io.buffer[io.address..io.address + n] == disk.bytes[diskByte..diskByte + n]
      ensures Untouched(old(io.buffer[..]), io.buffer[..], io.address, count)
      ensures io.buffer[..io.address] == old(io.buffer[..io.address])
      ensures disk.reliable && limit <= |disk.bytes| ==> status == 0
    {
      n := 0;
      var sectorOffset := diskByte % SECTOR;
      if sectorOffset == 0 && count >= SECTOR {
        var length := count - count % SECTOR;
        status, n := disk.Transfer(io.buffer, io.address, length, diskByte);
        if status == 0 && n == 0 {
          status := EIO;
        }
      } else {
        SectorBelow(diskByte, count, limit);
        status, n := ReadPartial(diskByte, count, io);
      }
    }

    /** Part of one sector, by way of a buffer. */
    method ReadPartial(diskByte: nat, count: nat, io: Transfer) returns (status: int, n: nat)
      requires io.Room() && 0 < count <= io.lengthRemaining
      modifies io.buffer
      ensures status >= 0
      ensures status == 0 ==>
                && 0 < n <= count && diskByte + n <= |disk.bytes|
                && io.buffer[io.address..io.address + n] == disk.bytes[diskByte..diskByte + n]
      ensures Untouched(old(io.buffer[..]), io.buffer[..], io.address, count)
      ensures io.buffer[..io.address] == old(io.buffer[..io.address])
      ensures disk.reliable && diskByte - diskByte % SECTOR + SECTOR <= |disk.bytes| ==> status == 0
    {
      n := 0;
      var sectorOffset := diskByte % SECTOR;
      var sectorBuffer := new Byte[SECTOR];
      status := disk.Read(sectorBuffer, SECTOR, diskByte - sectorOffset);
      if status == 0 {
        n := if SECTOR - sectorOffset < count then SECTOR - sectorOffset else count;
        ghost var data := sectorBuffer[..];
        SubSlice(disk.bytes, diskByte - sectorOffset, data, sectorOffset, n);
        CopyBytes(io.buffer, io.address, sectorBuffer, sectorOffset, n);
      }
    }

    /** memcpy. */
    static method CopyBytes(dest: array<Byte>, at: nat, src: array<Byte>, from: nat, n: nat)
      requires at + n <= dest.Length && from + n <= src.Length && dest != src
      modifies dest
      ensures dest[at..at + n] == src[from..from + n] && dest[..at] == old(dest[..at])
      ensures Untouched(old(dest[..]), dest[..], at, n)
    {
      for k := 0 to n
        invariant dest[at..at + k] == src[from..from + k] && dest[..at] == old(dest[..at])
        invariant dest[at + n..] == old(dest[at + n..])
      {
        dest[at + k] := src[from + k];
        assert dest[at..at + k + 1] == dest[at..at + k] + [dest[at + k]];
      }
      UntouchedIf(old(dest[..]), dest[..], at, n);
    }

    /** How far consecutive clusters go on from here, as far as the read needs them. */
    method FindRun(cluster: nat, within: nat, want: nat)
        returns (status: int, last: nat, next: nat, runBytes: nat, ended: bool)
      requires Valid() && IsCluster(volume, cluster) && within < ClusterBytes(volume)
      modifies this`cache, this`cacheMru
      ensures Valid() && status >= 0
      ensures status == 0 ==>
                && cluster <= last && RunFrom(disk.bytes, volume, cluster, last - cluster)
                && runBytes + within == (last - cluster + 1) * ClusterBytes(volume)
                && (last == cluster || runBytes < want + ClusterBytes(volume))
      ensures status == 0 && runBytes < want ==>
                NextOf(disk.bytes, volume, last) == (if ended then End else To(next))
      ensures Healthy() && status != 0 ==>
                exists k: nat {:trigger Stuck(disk.bytes, volume, cluster, k)} ::
                  Stuck(disk.bytes, volume, cluster, k) && (k + 1) * ClusterBytes(volume) < within + want
    {
      hide EntriesInside, CacheOk, HintOk, NextOf, Complete, RunFrom;
      var clusterBytes := ClusterBytes(volume);
      runBytes, last, next, ended := clusterBytes - within, cluster, 0, false;
      RunStart(disk.bytes, volume, cluster);
      status := 0;
      while runBytes < want
        invariant Valid() && cluster <= last && RunFrom(disk.bytes, volume, cluster, last - cluster)
        invariant runBytes + within == (last - cluster + 1) * clusterBytes && !ended
        invariant last == cluster || runBytes < want + clusterBytes
        decreases want - runBytes
      {
        status, next := NextCluster(last);
        if status == FAT_END {
          ended := true;
          status := 0;
          break;
        } else if status != 0 {
          RunStuck(disk.bytes, volume, cluster, last - cluster);
          return;
        }
        if next != last + 1 {
          break;
        }
        RunGrows(disk.bytes, volume, cluster, last - cluster);
        last := next;
        runBytes := runBytes + clusterBytes;
        assert (last - cluster + 1) * clusterBytes == (last - cluster) * clusterBytes + clusterBytes;
      }
    }

    /** fat_read_file_sync. On success it has delivered exactly the bytes asked for that the file has; and where
        nothing is wrong with the disk it succeeds exactly if the chain reaches the last cluster it needs. */
    method ReadFileSync(first: nat, fileSize: nat, io: Transfer) returns (status: int)
      requires Valid() && io.Room()
      modifies this, io, io.buffer
      ensures Valid() && status >= 0
      ensures status == 0 ==>
                var n := Wanted(old(io.offset), old(io.lengthRemaining), fileSize);
                && io.address == old(io.address) + n && io.offset == old(io.offset) + n
                && io.lengthRemaining == old(io.lengthRemaining) - n
                && Delivered(disk.bytes, volume, first, old(io.offset), io.buffer[..], old(io.address), n)
      ensures Untouched(old(io.buffer[..]), io.buffer[..], old(io.address),
                        Wanted(old(io.offset), old(io.lengthRemaining), fileSize))
      ensures Healthy() ==>
                (status == 0 <==> old(io.offset) >= fileSize || Reaches(disk.bytes, volume, first,
                   LastCluster(volume, old(io.offset), Wanted(old(io.offset), old(io.lengthRemaining), fileSize))))
    {
      hide EntriesInside, CacheOk, HintOk, Complete, Delivered, LastCluster, Nth, Untouched;
      NothingDelivered(disk.bytes, volume, first, io.offset, io.buffer[..], io.address);
      if io.offset >= fileSize {
        return 0;
      }
      var sizeLeft := fileSize - io.offset;
      if first < 2 || first > volume.maxCluster {
        return EIO;
      }
      var clusterBytes := ClusterBytes(volume);
      var index, within := io.offset / clusterBytes, io.offset % clusterBytes;
      ghost var n := Wanted(io.offset, io.lengthRemaining, fileSize);
      LastAfter(volume, io.offset, n);
      var cluster;
      status, cluster := ClusterAt(first, index);
      if status != 0 {
        NthStays(disk.bytes, volume, first, index, LastCluster(volume, io.offset, n));
        return if status == FAT_END then EIO else status;
      }
      status := ReadRuns(first, index, within, cluster, sizeLeft, io);
    }

    /** The loop of fat_read_file_sync: one run of consecutive clusters at a time. */
    method ReadRuns(first: nat, index0: nat, within0: nat, cluster0: nat, size: nat, io: Transfer) returns (status: int)
      requires Valid() && io.Room() && IsCluster(volume, first) && size > 0
      requires Nth(disk.bytes, volume, first, index0) == To(cluster0) && within0 < ClusterBytes(volume)
      requires io.offset == index0 * ClusterBytes(volume) + within0
      modifies this, io, io.buffer
      ensures Valid() && status >= 0
      ensures status == 0 ==>
                var n := if old(io.lengthRemaining) < size then old(io.lengthRemaining) else size;
                && io.address == old(io.address) + n && io.offset == old(io.offset) + n
                && io.lengthRemaining == old(io.lengthRemaining) - n
                && Delivered(disk.bytes, volume, first, old(io.offset), io.buffer[..], old(io.address), n)
      ensures Untouched(old(io.buffer[..]), io.buffer[..], old(io.address),
                        if old(io.lengthRemaining) < size then old(io.lengthRemaining) else size)
      ensures Healthy() ==>
                var n := if old(io.lengthRemaining) < size then old(io.lengthRemaining) else size;
                (status == 0 <==> Nth(disk.bytes, volume, first, LastCluster(volume, old(io.offset), n)).To?)
    {
      hide EntriesInside, CacheOk, HintOk, Complete, Delivered, LastCluster, Nth, Untouched;
      var index: nat, within: nat, cluster: nat, sizeLeft: nat := index0, within0, cluster0, size;
      ghost var n := if io.lengthRemaining < size then io.lengthRemaining else size;
      ghost var off0, a0, len0, before, done := io.offset, io.address, io.lengthRemaining, io.buffer[..], 0;
      assert ClusterBytes(volume) > 0;
      QuotientIs(index0, within0, ClusterBytes(volume));
      hide ClusterBytes, IsCluster;
      NothingDelivered(disk.bytes, volume, first, off0, before, a0);
      while io.lengthRemaining != 0 && sizeLeft != 0
        invariant Valid() && io.Room() && io.offset == off0 + done && io.address == a0 + done && done <= n
        invariant io.lengthRemaining == len0 - done && sizeLeft == size - done
        invariant Delivered(disk.bytes, volume, first, off0, io.buffer[..], a0, done)
        invariant Untouched(before, io.buffer[..], a0, n)
        invariant Nth(disk.bytes, volume, first, index) == To(cluster) && within < ClusterBytes(volume)
        invariant io.offset == index * ClusterBytes(volume) + within
        decreases sizeLeft
      {
        var want := if io.lengthRemaining < sizeLeft then io.lengthRemaining else sizeLeft;
        ghost var b1 := io.buffer[..];
        SameLast(volume, off0, n, done, want);
        var last, next, count, ended;
        status, last, next, count, ended := ReadRun(first, index, within, cluster, want, io);
        UntouchedMore(before, b1, io.buffer[..], a0, n, done, want);
        if status != 0 {
          return;
        }
        DeliveredMore(disk.bytes, volume, first, off0, b1, io.buffer[..], a0, done, count, want);
        sizeLeft, done := sizeLeft - count, done + count;
        if io.lengthRemaining == 0 || sizeLeft == 0 {
          break;
        }
        LastPast(volume, off0, n, done, index + (last - cluster) + 1);
        if ended {
          NthStays(disk.bytes, volume, first, index + (last - cluster) + 1, LastCluster(volume, off0, n));
          return EIO;
        }
        index := index + (last - cluster) + 1;
        cluster := next;
        within := 0;
      }
      DeliveredReaches(disk.bytes, volume, first, off0, io.buffer[..], a0, n, index0);
      status := 0;
    }

    /** One run: found, read, and remembered. */
    method ReadRun(first: nat, index: nat, within: nat, cluster: nat, want: nat, io: Transfer)
      returns (status: int, last: nat, next: nat, count: nat, ended: bool)
      requires Valid() && io.Room() && IsCluster(volume, first) && 0 < want <= io.lengthRemaining
      requires Nth(disk.bytes, volume, first, index) == To(cluster) && within < ClusterBytes(volume)
      requires io.offset == index * ClusterBytes(volume) + within
      modifies this, io, io.buffer
      ensures Valid() && io.Room() && status >= 0
      ensures status == 0 ==>
                && 0 < count <= want && cluster <= last && io.address == old(io.address) + count
                && io.offset == old(io.offset) + count && io.lengthRemaining == old(io.lengthRemaining) - count
                && Delivered(disk.bytes, volume, first, old(io.offset), io.buffer[..], old(io.address), count)
      ensures status == 0 && count < want ==>
                && old(io.offset) + count == (index + (last - cluster) + 1) * ClusterBytes(volume)
                && Nth(disk.bytes, volume, first, index + (last - cluster) + 1) == if ended then End else To(next)
      ensures Untouched(old(io.buffer[..]), io.buffer[..], old(io.address), want)
      ensures Healthy() && status != 0 ==>
                !Nth(disk.bytes, volume, first, LastCluster(volume, old(io.offset), want)).To?
    {
      hide EntriesInside, CacheOk, HintOk, Delivered, LastCluster, Nth, Untouched, RunFrom, NextOf, Stuck,
           ClusterToByte;
      NthIsCluster(disk.bytes, volume, first, index);
      NothingDelivered(disk.bytes, volume, first, io.offset, io.buffer[..], io.address);
      ghost var off := io.offset;
      var runBytes;
      count := 0;
      status, last, next, runBytes, ended := FindRun(cluster, within, want);
      if status != 0 {
        StuckBefore(disk.bytes, volume, first, index, within, cluster, want);
        return;
      }
      count := if want < runBytes then want else runBytes;
      status := ReadFound(first, index, within, cluster, last, count, io);
      UntouchedWider(old(io.buffer[..]), io.buffer[..], old(io.address), count, want);
      if count < want {
        RunEnd(disk.bytes, volume, first, index, within, cluster, last - cluster, count);
      }
    }

    /** Reads part of a run, and remembers the cluster of the last byte read. */
    method ReadFound(first: nat, index: nat, within: nat, cluster: nat, last: nat, count: nat, io: Transfer)
        returns (status: int)
      requires Valid() && io.Room() && 0 < count <= io.lengthRemaining && cluster <= last && first != 0
      requires Nth(disk.bytes, volume, first, index) == To(cluster)
          && RunFrom(disk.bytes, volume, cluster, last - cluster)
      requires io.offset == index * ClusterBytes(volume) + within
      requires within + count <= (last - cluster + 1) * ClusterBytes(volume)
      modifies this, io, io.buffer
      ensures Valid() && io.Room() && status >= 0
      ensures status == 0 ==>
                && io.address == old(io.address) + count && io.offset == old(io.offset) + count
                && io.lengthRemaining == old(io.lengthRemaining) - count
                && Delivered(disk.bytes, volume, first, old(io.offset), io.buffer[..], old(io.address), count)
      ensures Untouched(old(io.buffer[..]), io.buffer[..], old(io.address), count)
      ensures Healthy() ==> status == 0
    {
      hide EntriesInside, CacheOk, HintOk, Delivered, Nth, Untouched, RunFrom, NextOf, ClusterToByte;
      ghost var off, a0, k := io.offset, io.address, last - cluster;
      var clusterBytes := ClusterBytes(volume);
      hide ClusterBytes;
      RunPlace(disk.bytes, volume, cluster, k, within, count);
      status := ReadLinear(ClusterToByte(volume, cluster) + within, count, io,
          ClusterToByte(volume, last) + clusterBytes);
      if status != 0 {
        return;
      }
      RunHolds(disk.bytes, volume, first, index, within, cluster, k, off, count, io.buffer[..], a0);
      SetRunHint(first, index, cluster, k, within + count - 1);
    }

    /** Remembers the cluster that holds byte x of a run. */
    method SetRunHint(first: nat, index: nat, cluster: nat, ghost k: nat, x: nat)
      requires Valid() && first != 0 && Nth(disk.bytes, volume, first, index) == To(cluster)
      requires RunFrom(disk.bytes, volume, cluster, k) && x < (k + 1) * ClusterBytes(volume)
      modifies this`hintFirstCluster, this`hintIndex, this`hintCluster
      ensures Valid()
    {
      hide EntriesInside, CacheOk, HintOk, Nth, RunFrom;
      var clusterBytes := ClusterBytes(volume);
      hide ClusterBytes;
      var hops := x / clusterBytes;
      QuotientBelow(x, k, clusterBytes);
      RunAt(disk.bytes, volume, first, index, cluster, k, hops);
      SetHint(first, index + hops, cluster + hops);
    }
  }

  /** How many bytes a read can deliver. */
  function Wanted(offset: nat, length: nat, fileSize: nat): nat {
    if offset >= fileSize then 0 else if length < fileSize - offset then length else fileSize - offset
  }

  /** The buffer holds the j-th byte of the file from an offset on. */
  predicate HeldAt(disk: seq<Byte>, v: Volume, first: nat, offset: nat, b: seq<Byte>, at: nat, j: nat) {
    at + j < |b| && FileHolds(disk, v, first, offset + j, b[at + j])
  }

  /** The buffer holds n bytes of the file from an offset on. */
  ghost predicate Delivered(disk: seq<Byte>, v: Volume, first: nat, offset: nat, b: seq<Byte>, at: nat, n: nat) {
    at + n <= |b| && forall j: nat {:trigger HeldAt(disk, v, first, offset, b, at, j)} :: j < n ==>
        HeldAt(disk, v, first, offset, b, at, j)
  }

  /** The last cluster a read needs: that of its last byte, or of its offset if it reads nothing. */
  function LastCluster(v: Volume, offset: nat, n: nat): nat {
    if ClusterBytes(v) == 0 then 0 else (if n > 0 then offset + n - 1 else offset) / ClusterBytes(v)
  }

  predicate Reaches(disk: seq<Byte>, v: Volume, first: nat, last: nat) {
    IsCluster(v, first) && Nth(disk, v, first, last).To?
  }

  lemma NothingDelivered(disk: seq<Byte>, v: Volume, first: nat, offset: nat, b: seq<Byte>, at: nat)
    requires at <= |b|
    ensures Delivered(disk, v, first, offset, b, at, 0) && forall n: nat :: Untouched(b, b, at, n)
  {
  }

  /** The chain of a cluster goes on for k more clusters, each right behind the one before. */
  ghost predicate RunFrom(disk: seq<Byte>, v: Volume, c: nat, k: nat) {
    forall i: nat {:trigger InRun(disk, v, c, i)} :: i <= k ==> InRun(disk, v, c, i)
  }

  predicate InRun(disk: seq<Byte>, v: Volume, c: nat, i: nat) {
    Nth(disk, v, c, i) == To(c + i) && IsCluster(v, c + i)
  }

  /** k clusters on, the chain is broken. */
  predicate Stuck(disk: seq<Byte>, v: Volume, c: nat, k: nat) {
    Nth(disk, v, c, k + 1) == Broken
  }

  lemma RunStart(disk: seq<Byte>, v: Volume, c: nat)
    requires IsCluster(v, c)
    ensures RunFrom(disk, v, c, 0)
  {
  }

  lemma RunGrows(disk: seq<Byte>, v: Volume, c: nat, k: nat)
    requires RunFrom(disk, v, c, k) && NextOf(disk, v, c + k) == To(c + k + 1)
    ensures RunFrom(disk, v, c, k + 1)
  {
    assert InRun(disk, v, c, k);
    NthStep(disk, v, c, k);
    assert InRun(disk, v, c, k + 1) by { hide Nth, EntryValue; }
    hide InRun;
  }

  lemma NthStep(disk: seq<Byte>, v: Volume, first: nat, n: nat)
    requires Nth(disk, v, first, n).To?
    ensures Nth(disk, v, first, n + 1) == NextOf(disk, v, Nth(disk, v, first, n).cluster)
  {
    hide NextOf;
  }

  lemma RunStuck(disk: seq<Byte>, v: Volume, c: nat, k: nat)
    requires RunFrom(disk, v, c, k)
    ensures NextOf(disk, v, c + k) == Broken ==> Stuck(disk, v, c, k)
  {
    hide NextOf;
    assert InRun(disk, v, c, k);
  }

  /** Nothing outside a range changed. */
  predicate Untouched(b: seq<Byte>, b': seq<Byte>, at: nat, n: nat) {
    |b'| == |b| && forall i :: 0 <= i < |b| && !(at <= i < at + n) ==> b'[i] == b[i]
  }

  lemma UntouchedIf(b: seq<Byte>, b': seq<Byte>, at: nat, n: nat)
    requires |b| == |b'| && at + n <= |b| && b'[..at] == b[..at] && b'[at + n..] == b[at + n..]
    ensures Untouched(b, b', at, n)
  {
    forall i | 0 <= i < |b| && !(at <= i < at + n)
      ensures b'[i] == b[i]
    {
      if i < at {
        assert b'[..at][i] == b[..at][i];
      } else {
        assert b'[at + n..][i - at - n] == b[at + n..][i - at - n];
      }
    }
  }

  lemma SubSlice(disk: seq<Byte>, at: nat, data: seq<Byte>, skip: nat, n: nat)
    requires at + |data| <= |disk| && data == disk[at..at + |data|] && skip + n <= |data|
    ensures data[skip..skip + n] == disk[at + skip..at + skip + n]
  {
    var left, right := data[skip..skip + n], disk[at + skip..at + skip + n];
    forall i | 0 <= i < n
      ensures left[i] == right[i]
    {
      assert left[i] == data[skip + i];
    }
    assert left == right;
  }

  lemma SectorBelow(x: nat, n: nat, limit: nat)
    requires n > 0 && limit % SECTOR == 0 && x + n <= limit
    ensures x - x % SECTOR + SECTOR <= limit
  {
  }

  lemma PartJoins(disk: seq<Byte>, b: seq<Byte>, a0: nat, from: nat, done: nat, n: nat)
    requires a0 + done + n <= |b| && from + done + n <= |disk|
    requires done > 0 ==> b[a0..a0 + done] == disk[from..from + done]
    requires b[a0 + done..a0 + done + n] == disk[from + done..from + done + n]
    ensures b[a0..a0 + done + n] == disk[from..from + done + n]
  {
    assert b[a0..a0 + done + n] == b[a0..a0 + done] + b[a0 + done..a0 + done + n];
    assert disk[from..from + done + n] == disk[from..from + done] + disk[from + done..from + done + n];
  }

  /** An admitted entry lies inside the table, in one sector or two. */
  lemma EntryPlace(v: Volume, cluster: nat)
    requires EntriesInside(v) && cluster <= v.maxCluster
    ensures var off := EntryOffset(v.fatType, cluster);
            && off / SECTOR < v.fatSectors
            && (off % SECTOR + EntryLength(v.fatType) > SECTOR ==> off / SECTOR + 1 < v.fatSectors)
  {
    assert EntryEnd(v.fatType, cluster) <= v.fatSectors * SECTOR;
  }

  lemma SectorSlice(disk: seq<Byte>, v: Volume, sector: nat, data: seq<Byte>, within: nat, n: nat)
    requires SectorIs(disk, v, sector, data) && within + n <= SECTOR
    ensures |data| == SECTOR && data[within..within + n] == TableSlice(disk, v, sector * SECTOR + within, n)
    ensures within == 0 ==> data[..n] == TableSlice(disk, v, sector * SECTOR, n)
  {
    hide TableByte;
  }

  lemma SliceJoin(disk: seq<Byte>, v: Volume, off: nat, a: nat, b: nat)
    ensures TableSlice(disk, v, off, a) + TableSlice(disk, v, off + a, b) == TableSlice(disk, v, off, a + b)
    ensures TableSlice(disk, v, off, a) + [] == TableSlice(disk, v, off, a)
  {
    hide TableByte;
    var s, t := TableSlice(disk, v, off, a) + TableSlice(disk, v, off + a, b), TableSlice(disk, v, off, a + b);
    forall k | 0 <= k < a + b
      ensures s[k] == t[k]
    {
      if k >= a {
        assert s[k] == TableSlice(disk, v, off + a, b)[k - a];
      }
    }
    assert s == t;
  }

  lemma EntryFrom(disk: seq<Byte>, v: Volume, cluster: nat, bytes: seq<Byte>)
    requires bytes == TableSlice(disk, v, EntryOffset(v.fatType, cluster), EntryLength(v.fatType))
    ensures EntryValue(disk, v, cluster)
         == EntryOf(v.fatType, cluster, bytes[0], bytes[1], if |bytes| == 4 then bytes[2]
             else 0, if |bytes| == 4 then bytes[3] else 0)
  {
    hide TableByte;
  }

  lemma HealthySector(disk: seq<Byte>, v: Volume, sector: nat)
    ensures Complete(disk, v) && sector < v.fatSectors ==> (v.fatStartSector + sector + 1) * SECTOR <= |disk|
  {
  }

  lemma SectorRead(disk: seq<Byte>, v: Volume, sector: nat, data: seq<Byte>)
    requires var at := (v.fatStartSector + sector) * SECTOR; at + SECTOR <= |disk| && data == disk[at..at + SECTOR]
    ensures SectorIs(disk, v, sector, data)
  {
  }

  // ---- Positions in a run ----

  lemma RunAt(disk: seq<Byte>, v: Volume, first: nat, index: nat, c: nat, k: nat, h: nat)
    requires Nth(disk, v, first, index) == To(c) && RunFrom(disk, v, c, k) && h <= k
    ensures Nth(disk, v, first, index + h) == To(c + h) && IsCluster(v, c + h)
  {
    hide NextOf, Nth;
    NthFrom(disk, v, first, index, h);
    assert InRun(disk, v, c, h);
  }

  lemma QuotientIs(q: nat, r: nat, m: nat)
    requires r < m
    ensures (q * m + r) / m == q
  {
    Quotient(q, r, m);
  }

  lemma QuotientBelow(x: nat, k: nat, m: nat)
    requires m > 0 && x < (k + 1) * m
    ensures x / m <= k
  {
    var q := x / m;
    assert x == q * m + x % m;
    if q > k {
      Multiples(k + 1, q, m);
    }
  }

  lemma QuotientAbove(x: nat, k: nat, m: nat)
    requires m > 0 && x >= k * m
    ensures x / m >= k
  {
    var q := x / m;
    assert x == q * m + x % m && (q + 1) * m == q * m + m;
    if q < k {
      Multiples(q + 1, k, m);
    }
  }

  /** Consecutive clusters lie one behind the other on the disk. */
  lemma ClusterAfter(v: Volume, c: nat, h: nat)
    requires c >= 2
    ensures ClusterToByte(v, c + h) == ClusterToByte(v, c) + h * ClusterBytes(v)
  {
    var spc := v.sectorsPerCluster;
    assert (c + h - 2) * spc == (c - 2) * spc + h * spc;
    assert h * spc * SECTOR == h * (spc * SECTOR);
  }

  /** The stretch of a run that is read ends inside its last cluster. */
  lemma RunPlace(disk: seq<Byte>, v: Volume, c: nat, k: nat, within: nat, count: nat)
    requires RunFrom(disk, v, c, k) && within + count <= (k + 1) * ClusterBytes(v)
    ensures IsCluster(v, c + k) && c >= 2
    ensures var limit := ClusterToByte(v, c + k) + ClusterBytes(v);
            limit % SECTOR == 0 && ClusterToByte(v, c) + within + count <= limit
    ensures Complete(disk, v) ==> ClusterToByte(v, c + k) + ClusterBytes(v) <= |disk|
  {
    hide ClusterToByte, ClusterBytes, Complete, Nth;
    RunClusters(disk, v, c, k);
    hide RunFrom;
    ClusterAfter(v, c, k);
    ClusterAligned(v, c + k);
    NextMultiple(k, ClusterBytes(v));
    ClusterThere(disk, v, c + k);
  }

  lemma RunClusters(disk: seq<Byte>, v: Volume, c: nat, k: nat)
    requires RunFrom(disk, v, c, k)
    ensures IsCluster(v, c + k) && c >= 2
  {
    assert InRun(disk, v, c, k);
    assert InRun(disk, v, c, 0);
  }

  lemma NextMultiple(k: nat, m: nat)
    ensures (k + 1) * m == k * m + m
  {
  }

  lemma ClusterThere(disk: seq<Byte>, v: Volume, c: nat)
    requires IsCluster(v, c)
    ensures Complete(disk, v) ==> ClusterToByte(v, c) + ClusterBytes(v) <= |disk|
  {
    hide ClusterToByte, ClusterBytes;
  }

  lemma ClusterAligned(v: Volume, c: nat)
    requires c >= 2
    ensures (ClusterToByte(v, c) + ClusterBytes(v)) % SECTOR == 0
  {
    var s := v.dataStartSector + (c - 2) * v.sectorsPerCluster + v.sectorsPerCluster;
    assert ClusterToByte(v, c) + ClusterBytes(v) == s * SECTOR;
    Quotient(s, 0, SECTOR);
  }

  /** What was read from a run of clusters is the file's bytes. */
  lemma RunHolds(disk: seq<Byte>, v: Volume, first: nat, index: nat, within: nat, c: nat, k: nat, off: nat, count: nat,
                 b: seq<Byte>, at: nat)
    requires ClusterBytes(v) > 0 && Nth(disk, v, first, index) == To(c) && RunFrom(disk, v, c, k) && c >= 2
    requires off == index * ClusterBytes(v) + within && within + count <= (k + 1) * ClusterBytes(v)
    requires at + count <= |b| && ClusterToByte(v, c) + within + count <= |disk|
    requires b[at..at + count] == disk[ClusterToByte(v, c) + within..ClusterToByte(v, c) + within + count]
    ensures Delivered(disk, v, first, off, b, at, count)
  {
    hide RunFrom, Nth, FileHolds, ClusterToByte, ClusterBytes;
    forall j: nat | j < count
      ensures HeldAt(disk, v, first, off, b, at, j)
    {
      assert b[at + j] == b[at..at + count][j];
      ByteHolds(disk, v, first, index, within + j, c, k, b[at + j]);
    }
  }

  lemma ByteHolds(disk: seq<Byte>, v: Volume, first: nat, index: nat, x: nat, c: nat, k: nat, b: Byte)
    requires ClusterBytes(v) > 0 && Nth(disk, v, first, index) == To(c) && RunFrom(disk, v, c, k) && c >= 2
    requires x < (k + 1) * ClusterBytes(v) && ClusterToByte(v, c) + x < |disk| && disk[ClusterToByte(v, c) + x] == b
    ensures FileHolds(disk, v, first, index * ClusterBytes(v) + x, b)
  {
    hide RunFrom, Nth, ClusterToByte;
    var m := ClusterBytes(v);
    QuotientBelow(x, k, m);
    QuotientShift(index, x, m);
    RunAt(disk, v, first, index, c, k, x / m);
    ClusterAfter(v, c, x / m);
    assert x == x / m * m + x % m;
  }

  lemma RunEnd(disk: seq<Byte>, v: Volume, first: nat, index: nat, within: nat, c: nat, k: nat, count: nat)
    requires Nth(disk, v, first, index) == To(c) && RunFrom(disk, v, c, k)
    requires count + within == (k + 1) * ClusterBytes(v)
    ensures Nth(disk, v, first, index + k + 1) == NextOf(disk, v, c + k)
    ensures index * ClusterBytes(v) + within + count == (index + k + 1) * ClusterBytes(v)
  {
    hide RunFrom, NextOf;
    RunAt(disk, v, first, index, c, k, k);
    assert (index + k + 1) * ClusterBytes(v) == index * ClusterBytes(v) + (k + 1) * ClusterBytes(v);
  }

  lemma StuckBefore(disk: seq<Byte>, v: Volume, first: nat, index: nat, within: nat, c: nat, want: nat)
    requires ClusterBytes(v) > 0 && Nth(disk, v, first, index) == To(c) && want > 0
    ensures (exists k: nat {:trigger Stuck(disk, v, c, k)} ::
               Stuck(disk, v, c, k) && (k + 1) * ClusterBytes(v) < within + want) ==>
              !Nth(disk, v, first, LastCluster(v, index * ClusterBytes(v) + within, want)).To?
  {
    hide Nth, NextOf;
    var m := ClusterBytes(v);
    if k: nat {:trigger Stuck(disk, v, c, k)} :| Stuck(disk, v, c, k) && (k + 1) * m < within + want {
      NthFrom(disk, v, first, index, k + 1);
      assert Nth(disk, v, first, index + (k + 1)) == Broken;
      QuotientShift(index, within + want - 1, m);
      QuotientAbove(within + want - 1, k + 1, m);
      NthStays(disk, v, first, index + (k + 1), LastCluster(v, index * m + within, want));
    }
  }

  // ---- Joining what was delivered ----

  lemma LastAfter(v: Volume, offset: nat, n: nat)
    requires ClusterBytes(v) > 0
    ensures offset / ClusterBytes(v) <= LastCluster(v, offset, n)
    ensures offset == offset / ClusterBytes(v) * ClusterBytes(v) + offset % ClusterBytes(v)
  {
    var m := ClusterBytes(v);
    assert offset == offset / m * m + offset % m;
    if n > 0 {
      QuotientAbove(offset + n - 1, offset / m, m);
    }
  }

  lemma SameLast(v: Volume, off: nat, n: nat, done: nat, want: nat)
    requires want == n - done && want > 0
    ensures LastCluster(v, off + done, want) == LastCluster(v, off, n)
  {
  }

  lemma LastPast(v: Volume, off: nat, n: nat, done: nat, index: nat)
    requires ClusterBytes(v) > 0 && done < n && off + done == index * ClusterBytes(v)
    ensures index <= LastCluster(v, off, n)
  {
    QuotientAbove(off + n - 1, index, ClusterBytes(v));
  }

  lemma UntouchedMore(b: seq<Byte>, b1: seq<Byte>, b2: seq<Byte>, a0: nat, n: nat, done: nat, want: nat)
    requires Untouched(b, b1, a0, n) && Untouched(b1, b2, a0 + done, want) && done + want <= n
    ensures Untouched(b, b2, a0, n)
  {
  }

  lemma UntouchedWider(b: seq<Byte>, b': seq<Byte>, at: nat, n: nat, m: nat)
    requires Untouched(b, b', at, n) && n <= m
    ensures Untouched(b, b', at, m)
  {
  }

  lemma DeliveredMore(disk: seq<Byte>, v: Volume, first: nat, off: nat, b1: seq<Byte>, b2: seq<Byte>, a0: nat,
      done: nat, count: nat,
                      want: nat)
    requires Delivered(disk, v, first, off, b1, a0, done) && Delivered(disk, v, first, off + done, b2, a0 + done, count)
    requires Untouched(b1, b2, a0 + done, want)
    ensures Delivered(disk, v, first, off, b2, a0, done + count)
  {
    hide FileHolds;
    forall j: nat | j < done + count
      ensures HeldAt(disk, v, first, off, b2, a0, j)
    {
      if j < done {
        assert HeldAt(disk, v, first, off, b1, a0, j);
      } else {
        assert HeldAt(disk, v, first, off + done, b2, a0 + done, j - done);
      }
    }
  }

  lemma DeliveredReaches(disk: seq<Byte>, v: Volume, first: nat, off: nat, b: seq<Byte>, a0: nat, n: nat, index: nat)
    requires Delivered(disk, v, first, off, b, a0, n) && ClusterBytes(v) > 0
    requires Nth(disk, v, first, index).To? && off / ClusterBytes(v) == index
    ensures Nth(disk, v, first, LastCluster(v, off, n)).To?
  {
    hide Nth;
    if n > 0 {
      assert HeldAt(disk, v, first, off, b, a0, n - 1);
    }
  }
}
