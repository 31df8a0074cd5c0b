/** Boot sectors as the standard lays them out: a volume so described is one the driver mounts, and reads so. */
module FatBoot {
  import opened Words
  import opened Arithmetic
  import opened FatVolume

  /** What a volume's boot sector says of it. The 32-bit kind has its root directory in a chain, and may keep only one
      copy of its table up to date. */
  datatype Layout =
    | Small(sectorsPerCluster: Byte, reserved: nat, fats: Byte, rootEntries: nat, total: nat, media: Byte, fatSize: nat)
    | Large(sectorsPerCluster: Byte, reserved: nat, fats: Byte, total: nat, media: Byte, fatSize: nat, rootCluster: nat,
            mirrored: bool, active: nat)

  predicate Writable(l: Layout) {
    && l.sectorsPerCluster > 0 && IsPower2(l.sectorsPerCluster as int) && 0 < l.reserved < 0x1_0000 && l.fats > 0
    && (l.media == 0xF0 || l.media >= 0xF8) && 0 < l.total < 0x1_0000_0000 && l.fatSize > 0
    && match l
       case Small(_, _, _, rootEntries, _, _, fatSize) => 0 < rootEntries < 0x1_0000 && fatSize < 0x1_0000
       case Large(_, _, fats, _, _, fatSize, rootCluster, _, active) =>
         fatSize < 0x1_0000_0000 && rootCluster < 0x1_0000_0000 && active < 16 && active < fats as int
  }

  /** Byte k of a number, the lowest first. */
  function ByteOf(n: nat, k: nat): Byte {
    n / (if k == 0 then 1 else if k == 1 then 0x100 else if k == 2 then 0x1_0000 else 0x100_0000) % 0x100
  }

  /** The 16-bit count of sectors, or 0 if it goes in the 32-bit one. */
  function ShortTotal(l: Layout): nat {
    if l.Small? && l.total < 0x1_0000 then l.total else 0
  }

  /** Bytes 36 on, which the two kinds use differently. */
  function TypeByte(l: Layout, at: nat): Byte {
    if l.Small? then 0
    else if 36 <= at < 40 then ByteOf(l.fatSize, at - 36)
    else if 40 <= at < 42 then ByteOf(if l.mirrored then 0 else 0x80 + l.active, at - 40)
    else if 44 <= at < 48 then ByteOf(l.rootCluster, at - 44)
    else 0
  }

  /** The standard's section "Boot Sector and BPB", byte by byte; what the driver does not look at is 0. */
  function BootByte(l: Layout, at: nat): Byte {
    if at == 0 then 0xEB
    else if 11 <= at < 13 then ByteOf(512, at - 11)
    else if at == 13 then l.sectorsPerCluster
    else if 14 <= at < 16 then ByteOf(l.reserved, at - 14)
    else if at == 16 then l.fats
    else if 17 <= at < 19 then ByteOf(if l.Small? then l.rootEntries else 0, at - 17)
    else if 19 <= at < 21 then ByteOf(ShortTotal(l), at - 19)
    else if at == 21 then l.media
    else if 22 <= at < 24 then ByteOf(if l.Small? then l.fatSize else 0, at - 22)
    else if 32 <= at < 36 then ByteOf(if ShortTotal(l) == 0 then l.total else 0, at - 32)
    else if 36 <= at < 510 then TypeByte(l, at)
    else if at == 510 then 0x55
    else if at == 511 then 0xAA
    else 0
  }

  function BootBytes(l: Layout): (boot: seq<Byte>)
    ensures |boot| == 512
  {
    seq(512, at requires 0 <= at < 512 => BootByte(l, at))
  }

  lemma WordWritten(boot: seq<Byte>, at: nat, n: nat)
    requires at + 2 <= |boot| && n < 0x1_0000 && boot[at] == ByteOf(n, 0) && boot[at + 1] == ByteOf(n, 1)
    ensures Le16(boot, at) == n
  {
  }

  lemma DwordWritten(boot: seq<Byte>, at: nat, n: nat)
    requires at + 4 <= |boot| && n < 0x1_0000_0000
    requires boot[at] == ByteOf(n, 0) && boot[at + 1] == ByteOf(n, 1) && boot[at + 2] == ByteOf(n, 2)
    requires boot[at + 3] == ByteOf(n, 3)
    ensures Le32(boot, at) == n
  {
    LittleEndian(boot, at, n);
  }

  /** The fields are read back. */
  lemma FieldsRead(l: Layout)
    requires Writable(l)
    ensures var boot := BootBytes(l);
            && Le16(boot, 11) == 512 && Le16(boot, 14) == l.reserved && Le16(boot, 19) == ShortTotal(l)
            && Le16(boot, 17) == (if l.Small? then l.rootEntries else 0)
            && Le16(boot, 22) == (if l.Small? then l.fatSize else 0)
            && Le32(boot, 32) == (if ShortTotal(l) == 0 then l.total else 0)
    ensures var boot := BootBytes(l);
            l.Large? ==> && Le32(boot, 36) == l.fatSize && Le16(boot, 42) == 0 && Le32(boot, 44) == l.rootCluster
                         && Le16(boot, 40) == if l.mirrored then 0 else 0x80 + l.active
  {
    var boot := BootBytes(l);
    assert ByteOf(0, 0) == 0 && ByteOf(0, 1) == 0;
    hide ByteOf, Le16, Le32, IsPower2;
    WordWritten(boot, 11, 512);
    WordWritten(boot, 14, l.reserved);
    WordWritten(boot, 17, if l.Small? then l.rootEntries else 0);
    WordWritten(boot, 19, ShortTotal(l));
    WordWritten(boot, 22, if l.Small? then l.fatSize else 0);
    DwordWritten(boot, 32, if ShortTotal(l) == 0 then l.total else 0);
    if l.Large? {
      DwordWritten(boot, 36, l.fatSize);
      WordWritten(boot, 40, if l.mirrored then 0 else 0x80 + l.active);
      WordWritten(boot, 42, 0);
      DwordWritten(boot, 44, l.rootCluster);
    }
  }

  lemma FlagsRead(l: Layout)
    requires Writable(l)
    ensures ActiveFat(BootBytes(l)) == if l.Small? || l.mirrored then 0 else l.active
  {
    FieldsRead(l);
    hide Le16, Le32, IsPower2, BootBytes;
  }

  /** 32 bytes to an entry, in whole sectors. */
  lemma RootSectors(entries: nat)
    ensures (entries * 32 + 511) / 512 == (entries + 15) / 16
  {
  }

  lemma SizesRead(l: Layout)
    requires Writable(l)
    ensures var boot := BootBytes(l);
            && TotalSectors(boot) == l.total && FatSize(boot) == l.fatSize
            && RootDirSectors(boot) == if l.Small? then (l.rootEntries + 15) / 16 else 0
  {
    FieldsRead(l);
    if l.Small? {
      RootSectors(l.rootEntries);
    }
    hide Le16, Le32, IsPower2, BootBytes;
  }

  lemma SinglesRead(l: Layout)
    ensures var boot := BootBytes(l);
            && boot[0] == 0xEB && boot[13] == l.sectorsPerCluster && boot[16] == l.fats && boot[21] == l.media
            && boot[510] == 0x55 && boot[511] == 0xAA
  {
  }

  /** The driver knows every volume laid out by the standard, and finds its parts: the table in use behind the reserved
      sectors, the data behind all its copies and the sectors of the root directory. */
  lemma StandardRecognised(l: Layout)
    requires Writable(l)
    ensures var boot := BootBytes(l);
            && Recognised(boot) && TotalSectors(boot) == l.total && FatSize(boot) == l.fatSize
            && ActiveFat(boot) == (if l.Small? || l.mirrored then 0 else l.active)
            && DataStart(boot) == l.reserved + l.fats as int * l.fatSize
                                  + if l.Small? then (l.rootEntries + 15) / 16 else 0
  {
    FieldsRead(l);
    FlagsRead(l);
    SizesRead(l);
    SinglesRead(l);
    hide BootBytes, Le16, Le32, IsPower2, TotalSectors, FatSize, ActiveFat, RootDirSectors;
  }
}
