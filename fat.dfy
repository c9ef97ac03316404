/** The FAT16/FAT32 reader of src/fat.c: the BIOS parameter block arithmetic of
    the Microsoft FAT specification (fatgen103), 8.3 names, the FAT chain and the
    root directory listing. The disk is a parameter: `ok(lba)` says whether
    `read_sector(lba, buf)` (one ATA read) succeeds and `data(lba)` is the sector
    it fills in. A sector is given by its bytes at every offset, so a read past
    the 512 bytes of the C buffer still yields a byte, where the C reads whatever
    lies beside the buffer. */
module Fat {
  import opened Common
  import CStr

  type Sector = nat -> u8

  datatype Disk = Disk(ok: u32 -> bool, data: u32 -> Sector)

  /** Little-endian 16- and 32-bit fields of a packed structure. */
  function Le16At(s: Sector, off: nat): (v: nat)
    ensures v < 0x1_0000
  {
    s(off) + s(off + 1) * 0x100
  }

  function Le32At(s: Sector, off: nat): (v: u32)
  {
    Le16At(s, off) + Le16At(s, off + 2) * 0x1_0000
  }

  /** The fields of `struct bpb_common` and `struct bpb_fat32` (at sector offset 36)
      that the reader uses. */
  datatype Bpb = Bpb(
    bytesPerSector: nat, sectorsPerCluster: u8, reservedSectors: nat, fatCount: u8,
    rootEntries: nat, totalSectors16: nat, sectorsPerFat16: nat, totalSectors32: u32,
    sectorsPerFat32: u32, rootCluster: u32)

  /** The boot sector read as `struct bpb_common` followed by `struct bpb_fat32`. */
  function ParseBpb(s: Sector): (b: Bpb)
    ensures b.bytesPerSector < 0x1_0000 && b.reservedSectors < 0x1_0000 && b.rootEntries < 0x1_0000
    ensures b.totalSectors16 < 0x1_0000 && b.sectorsPerFat16 < 0x1_0000
  {
    Bpb(Le16At(s, 11), s(13), Le16At(s, 14), s(16), Le16At(s, 17), Le16At(s, 19), Le16At(s, 22),
        Le32At(s, 32), Le32At(s, 36), Le32At(s, 44))
  }

  /** `get_total_sectors` and `get_sectors_per_fat`: the 16-bit field unless it
      is 0, then the 32-bit one. */
  function TotalSectors(b: Bpb): u32
    requires b.totalSectors16 < 0x1_0000
  {
    if b.totalSectors16 != 0 then b.totalSectors16 else b.totalSectors32
  }

  function SectorsPerFat(b: Bpb): u32
    requires b.sectorsPerFat16 < 0x1_0000
  {
    if b.sectorsPerFat16 != 0 then b.sectorsPerFat16 else b.sectorsPerFat32
  }

  /** The sectors of the FAT12/FAT16 root directory, rounded up. */
  function RootDirSectors(b: Bpb): (n: u32)
    requires 0 < b.bytesPerSector < 0x1_0000 && b.rootEntries < 0x1_0000
  {
    (b.rootEntries * 32 + (b.bytesPerSector - 1)) / b.bytesPerSector
  }

  /** The sectors of 32-byte directory entries each root directory sector read
      holds: the rounding up leaves room for every entry. */
  lemma RootDirSectorsHoldEntries(b: Bpb)
    requires 0 < b.bytesPerSector < 0x1_0000 && b.rootEntries < 0x1_0000
    ensures b.rootEntries * 32 <= RootDirSectors(b) * b.bytesPerSector
    ensures RootDirSectors(b) * b.bytesPerSector < b.rootEntries * 32 + b.bytesPerSector
  {
    var bps := b.bytesPerSector;
    var x := b.rootEntries * 32 + (bps - 1);
    assert x == (x / bps) * bps + x % bps;
  }

  /** The data clusters `detect_fat_type` counts, in `uint32_t` arithmetic: the
      sectors before the data region are subtracted from the total, and the
      difference wraps when they are more than the total. */
  function ClusterCount(b: Bpb, total: u32, spf: u32): u32
    requires 0 < b.bytesPerSector < 0x1_0000 && b.rootEntries < 0x1_0000 && b.sectorsPerCluster != 0
  {
    Wrap32(total - Wrap32(MetaSectors(b, spf))) / b.sectorsPerCluster
  }

  /** The sectors before the data region: reserved sectors, the FATs and the
      root directory. */
  function MetaSectors(b: Bpb, spf: u32): nat
    requires 0 < b.bytesPerSector < 0x1_0000 && b.rootEntries < 0x1_0000
  {
    b.reservedSectors + b.fatCount * spf + RootDirSectors(b)
  }

  const FAT12: u8 := 12
  const FAT16: u8 := 16
  const FAT32: u8 := 32
  const MAX_FAT12_CLUSTERS: nat := 4085
  const MAX_FAT16_CLUSTERS: nat := 65525

  /** `detect_fat_type`: the FAT type follows from the cluster count alone. */
  function DetectFatType(b: Bpb, total: u32, spf: u32): (t: u8)
    requires 0 < b.bytesPerSector < 0x1_0000 && b.rootEntries < 0x1_0000 && b.sectorsPerCluster != 0
    ensures t == FAT12 || t == FAT16 || t == FAT32
  {
    var clusters := ClusterCount(b, total, spf);
    if clusters < MAX_FAT12_CLUSTERS then FAT12
    else if clusters < MAX_FAT16_CLUSTERS then FAT16
    else FAT32
  }

  /** When the reserved sectors, the FATs and the root directory fit in the
      volume, the type is that of the fatgen103 rule on the number of whole
      clusters in the rest: below 4085 FAT12, below 65525 FAT16, FAT32 above. */
  lemma DetectFatTypeClassifies(b: Bpb, total: u32, spf: u32)
    requires 0 < b.bytesPerSector < 0x1_0000 && b.rootEntries < 0x1_0000 && b.sectorsPerCluster != 0
    requires MetaSectors(b, spf) <= total
    ensures var clusters := (total - MetaSectors(b, spf)) / b.sectorsPerCluster;
      && (DetectFatType(b, total, spf) == FAT12 <==> clusters < MAX_FAT12_CLUSTERS)
      && (DetectFatType(b, total, spf) == FAT16 <==> MAX_FAT12_CLUSTERS <= clusters < MAX_FAT16_CLUSTERS)
      && (DetectFatType(b, total, spf) == FAT32 <==> MAX_FAT16_CLUSTERS <= clusters)
  {
    var meta := MetaSectors(b, spf);
    assert ClusterCount(b, total, spf) == (total - meta) / b.sectorsPerCluster by {
      assert Wrap32(meta) == meta;
      assert Wrap32(total - meta) == total - meta;
    }
  }

  /** The per-volume state of `struct fat_fs`, as `fat_mount` computes it. */
  datatype FsParams = FsParams(
    partLba: u32, fatLba: u32, rootDirLba: u32, dataLba: u32, sectorsPerFat: u32,
    totalSectors: u32, rootDirSectors: u32, rootCluster: u32, bytesPerSector: nat,
    sectorsPerCluster: u8, fatCount: u8, fatType: u8)

  /** The fields `fat_mount` stores for the boot sector `b` at `partLba`, once
      it has accepted the volume as type `t`. */
  function Mounted(b: Bpb, partLba: u32, t: u8): (p: FsParams)
    requires 0 < b.bytesPerSector < 0x1_0000 && b.rootEntries < 0x1_0000
    requires b.totalSectors16 < 0x1_0000 && b.sectorsPerFat16 < 0x1_0000
  {
    var spf := SectorsPerFat(b);
    var fatLba := Wrap32(partLba + b.reservedSectors);
    var rootDirLba := Wrap32(fatLba + b.fatCount * spf);
    FsParams(partLba, fatLba, rootDirLba, Wrap32(rootDirLba + RootDirSectors(b)), spf, TotalSectors(b),
      RootDirSectors(b), if t == FAT32 then b.rootCluster else 0, b.bytesPerSector, b.sectorsPerCluster,
      b.fatCount, t)
  }

  /** What `fat_mount` mounts from the boot sector at `partLba`: nothing when the
      read fails, either divisor field is 0 or the volume is FAT12. */
  function MountSpec(disk: Disk, partLba: u32): (m: Option<FsParams>)
  {
    if !disk.ok(partLba) then None
    else
      var b := ParseBpb(disk.data(partLba));
      if b.bytesPerSector == 0 || b.sectorsPerCluster == 0 then None
      else
        var t := DetectFatType(b, TotalSectors(b), SectorsPerFat(b));
        if t != FAT16 && t != FAT32 then None else Some(Mounted(b, partLba, t))
  }

  /** A volume mounts exactly when its boot sector reads, has nonzero sector
      and cluster sizes, and is FAT16 or FAT32; a mounted volume has nonzero
      divisors and keeps the type it was detected with. */
  lemma MountAccepts(disk: Disk, partLba: u32)
    ensures MountSpec(disk, partLba).Some? <==>
      && disk.ok(partLba)
      && var b := ParseBpb(disk.data(partLba));
      && b.bytesPerSector != 0 && b.sectorsPerCluster != 0
      && DetectFatType(b, TotalSectors(b), SectorsPerFat(b)) != FAT12
    ensures var m := MountSpec(disk, partLba);
      m.Some? ==> (m.value.bytesPerSector != 0 && m.value.sectorsPerCluster != 0
        && (m.value.fatType == FAT16 || m.value.fatType == FAT32) && m.value.partLba == partLba)
  {
  }

  /** On a mounted volume that does not wrap the 32-bit sector numbers, the
      regions follow each other: the reserved sectors from the partition start,
      then the FATs, then the root directory (FAT16), then the data region; only
      FAT32 has a root cluster. */
  lemma MountLayout(b: Bpb, partLba: u32, t: u8)
    requires 0 < b.bytesPerSector < 0x1_0000 && b.rootEntries < 0x1_0000
    requires b.totalSectors16 < 0x1_0000 && b.sectorsPerFat16 < 0x1_0000
    requires partLba + b.reservedSectors + b.fatCount * SectorsPerFat(b) + RootDirSectors(b) < U32_MOD
    ensures var p := Mounted(b, partLba, t);
      && p.fatLba == partLba + b.reservedSectors
      && p.rootDirLba == p.fatLba + b.fatCount * p.sectorsPerFat
      && p.dataLba == p.rootDirLba + p.rootDirSectors
      && (t != FAT32 ==> p.rootCluster == 0)
  {
    var f := b.fatCount * SectorsPerFat(b);
    var r := b.reservedSectors;
    assert Wrap32(partLba + r) == partLba + r;
    assert Wrap32(partLba + r + f) == partLba + r + f;
  }

  /** `struct fat_fs`, written field by field by `fat_mount`. */
  class FatFs {
    var partLba: u32
    var fatLba: u32
    var rootDirLba: u32
    var dataLba: u32
    var sectorsPerFat: u32
    var totalSectors: u32
    var rootDirSectors: u32
    var rootCluster: u32
    var bytesPerSector: nat
    var sectorsPerCluster: u8
    var fatCount: u8
    var fatType: u8

    /** A zeroed structure. */
    constructor ()
      ensures Params() == FsParams(0, 0, 0, 0, 0, 0, 0, 0, 0, 0, 0, 0)
    {
      partLba, fatLba, rootDirLba, dataLba := 0, 0, 0, 0;
      sectorsPerFat, totalSectors, rootDirSectors, rootCluster := 0, 0, 0, 0;
      bytesPerSector, sectorsPerCluster, fatCount, fatType := 0, 0, 0, 0;
    }

    /** The fields as one value. */
    function Params(): FsParams
      reads this
    {
      FsParams(partLba, fatLba, rootDirLba, dataLba, sectorsPerFat, totalSectors, rootDirSectors,
        rootCluster, bytesPerSector, sectorsPerCluster, fatCount, fatType)
    }
  }

  /** `fat_mount`: 1 and the mounted fields, or 0 with `*fs` untouched. */
  method FatMount(fs: FatFs?, partLba: u32, disk: Disk) returns (r: int)
    modifies fs
    ensures fs == null ==> r == 0
    ensures fs != null ==> (r == 1 <==> MountSpec(disk, partLba).Some?) && (r == 0 || r == 1)
    ensures fs != null && r == 1 ==> fs.Params() == MountSpec(disk, partLba).value
    ensures fs != null && r == 0 ==> fs.Params() == old(fs.Params())
  {
    if fs == null {
      return 0;
    }
    if !disk.ok(partLba) {
      return 0;
    }
    var b := ParseBpb(disk.data(partLba));
    if b.bytesPerSector == 0 || b.sectorsPerCluster == 0 {
      return 0;
    }
    var total := TotalSectors(b);
    var spf := SectorsPerFat(b);
    var rds := RootDirSectors(b);
    var t := DetectFatType(b, total, spf);
    if t != FAT16 && t != FAT32 {
      return 0;
    }
    StoreMount(fs, b, partLba, t);
    return 1;
  }

  /** The stores of `fat_mount` once the volume is accepted. */
  method StoreMount(fs: FatFs, b: Bpb, partLba: u32, t: u8)
    requires 0 < b.bytesPerSector < 0x1_0000 && b.rootEntries < 0x1_0000
    requires b.totalSectors16 < 0x1_0000 && b.sectorsPerFat16 < 0x1_0000
    modifies fs
    ensures fs.Params() == Mounted(b, partLba, t)
  {
    var rds := RootDirSectors(b);
    fs.partLba := partLba;
    fs.bytesPerSector := b.bytesPerSector;
    fs.sectorsPerCluster := b.sectorsPerCluster;
    fs.fatCount := b.fatCount;
    fs.sectorsPerFat := SectorsPerFat(b);
    fs.totalSectors := TotalSectors(b);
    fs.rootDirSectors := rds;
    fs.fatType := t;
    fs.fatLba := Wrap32(partLba + b.reservedSectors);
    fs.rootDirLba := Wrap32(fs.fatLba + fs.fatCount * fs.sectorsPerFat);
    fs.dataLba := Wrap32(fs.rootDirLba + rds);
    fs.rootCluster := 0;
    if t == FAT32 {
      fs.rootCluster := b.rootCluster;
    }
  }

  /** `fat_entry_offset`: the byte offset of a cluster's FAT entry, two bytes an
      entry on FAT16 and four otherwise, in `uint32_t`. */
  function FatEntryOffset(p: FsParams, cluster: u32): u32
  {
    if p.fatType == FAT16 then Wrap32(cluster * 2) else Wrap32(cluster * 4)
  }

  /** The sentinel `fat_get_next_cluster` returns for a failed read. */
  const READ_FAILED: u32 := 0xFFFF_FFFF

  /** `fat_get_next_cluster`: the FAT entry of `cluster`, read from the FAT sector
      that holds it; FAT32 entries keep their low 28 bits. The sentinel comes
      back exactly when the read fails, since no entry can equal it. */
  function NextCluster(disk: Disk, p: FsParams, cluster: u32): (next: u32)
    requires p.bytesPerSector != 0
    ensures next == READ_FAILED <==> !disk.ok(Wrap32(p.fatLba + FatEntryOffset(p, cluster) / p.bytesPerSector))
    ensures next != READ_FAILED && p.fatType == FAT16 ==> next < 0x1_0000
    ensures next != READ_FAILED && p.fatType != FAT16 ==> next < 0x1000_0000
  {
    var offset := FatEntryOffset(p, cluster);
    var lba := Wrap32(p.fatLba + offset / p.bytesPerSector);
    var entryOff := offset % p.bytesPerSector;
    if !disk.ok(lba) then READ_FAILED
    else if p.fatType == FAT16 then Le16At(disk.data(lba), entryOff)
    else Le32At(disk.data(lba), entryOff) % 0x1000_0000
  }

  /** The entry of a cluster lies in the FAT: at the sector and offset that
      split its byte offset. */
  lemma NextClusterReadsItsEntry(p: FsParams, cluster: u32)
    requires p.bytesPerSector != 0 && cluster < 0x1000_0000
    ensures var width := if p.fatType == FAT16 then 2 else 4;
      var offset := FatEntryOffset(p, cluster);
      && offset == cluster * width
      && offset == (offset / p.bytesPerSector) * p.bytesPerSector + offset % p.bytesPerSector
  {
  }

  const SPACE: u8 := 0x20

  /** The bytes of `s` before its first space. */
  function UntilSpace(s: seq<u8>): (t: seq<u8>)
    ensures |t| <= |s|
  {
    if s == [] || s[0] == SPACE then [] else [s[0]] + UntilSpace(s[1..])
  }

  /** The bytes before the first space are the first `j` when `j` is where the
      first space, or the end, is. */
  lemma {:induction false} UntilSpaceAt(s: seq<u8>, j: nat)
    requires j <= |s| && (j == |s| || s[j] == SPACE)
    requires forall k :: 0 <= k < j ==> s[k] != SPACE
    ensures UntilSpace(s) == s[..j]
  {
    if j > 0 {
      UntilSpaceAt(s[1..], j - 1);
      assert s[..j] == [s[0]] + s[1..][..j - 1];
    }
  }

  /** `(char)b`, the character whose code is the byte. */
  function Chars(bs: seq<u8>): (cs: seq<char>)
    ensures |cs| == |bs| && forall k :: 0 <= k < |bs| ==> cs[k] == bs[k] as char
  {
    seq(|bs|, k requires 0 <= k < |bs| => bs[k] as char)
  }

  /** The name `name_to_str` makes of an 11-byte 8.3 directory name: the base
      up to its first space, then '.' and the extension up to its first space,
      unless the extension starts with a space. */
  function ShortName(name: seq<u8>): (s: seq<char>)
    requires |name| == 11
    ensures |s| <= 12
  {
    Chars(UntilSpace(name[..8])) + if name[8] != SPACE then ['.'] + Chars(UntilSpace(name[8..])) else []
  }

  /** `name` blank-padded to `n` bytes, as names are stored on disk. */
  function Pad(s: seq<u8>, n: nat): (t: seq<u8>)
    requires |s| <= n
    ensures |t| == n
  {
    s + seq(n - |s|, _ => SPACE)
  }

  /** Reading back a stored name: a base and an extension without spaces,
      padded into 8 and 3 bytes, give the base, and '.' and the extension when
      there is one. */
  lemma ShortNameOfPadded(base: seq<u8>, ext: seq<u8>)
    requires |base| <= 8 && |ext| <= 3 && SPACE !in base && SPACE !in ext
    ensures ShortName(Pad(base, 8) + Pad(ext, 3)) == Chars(base) + if ext == [] then [] else ['.'] + Chars(ext)
  {
    var name := Pad(base, 8) + Pad(ext, 3);
    assert name[..8] == Pad(base, 8);
    assert name[8..] == Pad(ext, 3);
    UntilSpaceAt(name[..8], |base|);
    assert name[..8][..|base|] == base;
    UntilSpaceAt(name[8..], |ext|);
    assert name[8..][..|ext|] == ext;
    if ext != [] {
      assert name[8] == ext[0];
    }
  }

  /** One of `name_to_str`'s loops: the bytes of `name[from..to]` before the
      first space, as characters, into `out` from `at` on. */
  method CopyUntilSpace(name: seq<u8>, from: nat, to: nat, out: array<char>, at: nat) returns (n: nat)
    requires from <= to <= |name| && at + (to - from) <= out.Length
    modifies out
    ensures n == |UntilSpace(name[from..to])| && n <= to - from
    ensures out[..at + n] == old(out[..at]) + Chars(UntilSpace(name[from..to]))
  {
    n := 0;
    var i := from;
    while i < to
      invariant from <= i <= to && n == i - from
      invariant forall k :: from <= k < i ==> name[k] != SPACE
      invariant out[..at + n] == old(out[..at]) + Chars(name[from..i])
    {
      if name[i] == SPACE {
        break;
      }
      out[at + n] := name[i] as char;
      assert Chars(name[from..i + 1]) == Chars(name[from..i]) + [name[i] as char];
      n := n + 1;
      i := i + 1;
    }
    UntilSpaceAt(name[from..to], n);
    assert name[from..to][..n] == name[from..i];
  }

  /** `name_to_str`: the name, then a NUL, from the start of `out`. */
  method NameToStr(name: seq<u8>, out: array<char>)
    requires |name| == 11 && out.Length == 13
    modifies out
    ensures var s := ShortName(name); out[..|s|] == s && out[|s|] == '\0'
  {
    assert name[0..8] == name[..8];
    var oi := CopyUntilSpace(name, 0, 8, out, 0);
    ghost var base := Chars(UntilSpace(name[..8]));
    if name[8] != SPACE {
      out[oi] := '.';
      assert out[..oi + 1] == base + ['.'];
      assert name[8..11] == name[8..];
      var m := CopyUntilSpace(name, 8, 11, out, oi + 1);
      oi := oi + 1 + m;
    }
    ghost var s := ShortName(name);
    assert out[..oi] == s;
    out[oi] := '\0';
  }

  /** A directory entry as the callback sees it: its name as a C string, its
      size and its attribute byte. */
  datatype Listed = Listed(name: seq<char>, size: u32, attr: u8)

  /** The 32-byte `struct dir_entry` at `off` of a sector: the name is bytes 0-10,
      the attribute byte 11 and the file size bytes 28-31. */
  function EntryName(s: Sector, off: nat): (n: seq<u8>)
    ensures |n| == 11
  {
    seq(11, k requires 0 <= k => s(off + k))
  }

  function EntryListed(s: Sector, off: nat): Listed
  {
    Listed(CStr.Prefix(ShortName(EntryName(s, off))), Le32At(s, off + 28), s(off + 11))
  }

  const ENTRY_SIZE: nat := 32
  const DELETED: u8 := 0xE5
  const LONG_NAME: u8 := 0x0F
  /** The cluster numbers from this one on end a FAT32 chain. */
  const END_OF_CHAIN: u32 := 0x0FFF_FFF8

  /** How a part of the walk ends: it goes on, it met the end of the directory
      (`fat_list_root` returns 1), a read failed (it returns 0), or the chain
      was longer than the clusters the model follows. */
  datatype Status = Going | Done | Failed | OutOfFuel

  /** The entries listed so far and how the walk stands. */
  datatype Walk = Walk(status: Status, items: seq<Listed>)

  /** `acc` listed before the walk `w`. */
  function Then(acc: seq<Listed>, w: Walk): (r: Walk)
    ensures r.status == w.status && r.items == acc + w.items
  {
    Walk(w.status, acc + w.items)
  }

  /** The entries of one directory sector from byte `off` on: the walk stops at
      an entry whose name starts with 0, skips deleted entries and long-name
      entries, and lists the others in order. */
  function SectorWalk(s: Sector, bps: nat, off: nat): (w: Walk)
    ensures w.status == Going || w.status == Done
    decreases bps - off
  {
    if off >= bps then Walk(Going, [])
    else if s(off) == 0 then Walk(Done, [])
    else if s(off) == DELETED || s(off + 11) == LONG_NAME then SectorWalk(s, bps, off + ENTRY_SIZE)
    else Then([EntryListed(s, off)], SectorWalk(s, bps, off + ENTRY_SIZE))
  }

  /** The entry at `o` is in use: not the end marker, not deleted and not a
      long-name entry. */
  predicate LiveEntry(s: Sector, o: nat)
  {
    s(o) != 0 && s(o) != DELETED && s(o + 11) != LONG_NAME
  }

  /** The offset of directory entry `j` counted from `off`. */
  function Slot(off: nat, j: nat): (o: nat)
    ensures o >= off
  {
    off + 32 * j
  }

  /** `e` is what the live entry at some slot of the 32-byte grid from `off`,
      before `bps`, lists. */
  ghost predicate ListedFrom(s: Sector, bps: nat, off: nat, e: Listed)
  {
    exists j: nat :: Slot(off, j) < bps && LiveEntry(s, Slot(off, j)) && e == EntryListed(s, Slot(off, j))
  }

  /** Every entry of `items` is listed from the grid from `off`. */
  ghost predicate AllListedFrom(s: Sector, bps: nat, off: nat, items: seq<Listed>)
  {
    forall k :: 0 <= k < |items| ==> ListedFrom(s, bps, off, items[k])
  }

  /** Every listed entry is a live entry of the sector, on the 32-byte grid from
      `off` and before `bps`. */
  lemma {:induction false} SectorWalkListsLiveEntries(s: Sector, bps: nat, off: nat)
    ensures AllListedFrom(s, bps, off, SectorWalk(s, bps, off).items)
    decreases bps - off
  {
    if off < bps && s(off) != 0 {
      SectorWalkListsLiveEntries(s, bps, off + ENTRY_SIZE);
      SectorWalkStep(s, bps, off);
      var rest := SectorWalk(s, bps, off + ENTRY_SIZE).items;
      ShiftGrid(s, bps, off, rest);
      if LiveEntry(s, off) {
        ListHead(s, bps, off, rest);
      }
    }
  }

  /** Entries listed from the next slot are listed from this one. */
  lemma ShiftGrid(s: Sector, bps: nat, off: nat, items: seq<Listed>)
    requires AllListedFrom(s, bps, off + ENTRY_SIZE, items)
    ensures AllListedFrom(s, bps, off, items)
  {
    forall k | 0 <= k < |items|
      ensures ListedFrom(s, bps, off, items[k])
    {
      ShiftOne(s, bps, off, items[k]);
    }
  }

  /** An entry listed from the next slot is listed from this one. */
  lemma ShiftOne(s: Sector, bps: nat, off: nat, e: Listed)
    requires ListedFrom(s, bps, off + ENTRY_SIZE, e)
    ensures ListedFrom(s, bps, off, e)
  {
    var j: nat :| Slot(off + ENTRY_SIZE, j) < bps && LiveEntry(s, Slot(off + ENTRY_SIZE, j))
      && e == EntryListed(s, Slot(off + ENTRY_SIZE, j));
    assert Slot(off, j + 1) == Slot(off + ENTRY_SIZE, j);
  }

  /** A live entry at `off` listed before entries listed from `off`. */
  lemma ListHead(s: Sector, bps: nat, off: nat, items: seq<Listed>)
    requires off < bps && LiveEntry(s, off) && AllListedFrom(s, bps, off, items)
    ensures AllListedFrom(s, bps, off, [EntryListed(s, off)] + items)
  {
    var all := [EntryListed(s, off)] + items;
    forall k | 0 <= k < |all|
      ensures ListedFrom(s, bps, off, all[k])
    {
      if k == 0 {
        HeadListed(s, bps, off);
      } else {
        assert all[k] == items[k - 1];
      }
    }
  }

  /** A live entry at `off` is listed from `off`. */
  lemma HeadListed(s: Sector, bps: nat, off: nat)
    requires off < bps && LiveEntry(s, off)
    ensures ListedFrom(s, bps, off, EntryListed(s, off))
  {
    assert Slot(off, 0) == off;
  }

  /** The sector `fat_list_root` reads for root directory sector `i` (FAT16)
      and for sector `s` of a cluster (FAT32): `root_dir_lba` and `data_lba`
      already hold the partition start. */
  function RootSectorLba(p: FsParams, i: nat): u32
  {
    Wrap32(p.rootDirLba + i)
  }

  function ClusterSectorLba(p: FsParams, cluster: u32, s: nat): u32
  {
    Wrap32(p.dataLba + (cluster - 2) * p.sectorsPerCluster + s)
  }

  /** The root directory sectors from `i` on, each read and walked, until the
      end marker or a failed read. */
  function RootWalk(disk: Disk, p: FsParams, i: nat): (w: Walk)
    ensures w.status != OutOfFuel
    decreases p.rootDirSectors - i
  {
    if i >= p.rootDirSectors then Walk(Going, [])
    else
      var lba := RootSectorLba(p, i);
      if !disk.ok(lba) then Walk(Failed, [])
      else
        var w := SectorWalk(disk.data(lba), p.bytesPerSector, 0);
        if w.status == Done then w else Then(w.items, RootWalk(disk, p, i + 1))
  }

  /** The sectors of one cluster from `s` on. */
  function ClusterWalk(disk: Disk, p: FsParams, cluster: u32, s: nat): (w: Walk)
    ensures w.status != OutOfFuel
    decreases p.sectorsPerCluster - s
  {
    if s >= p.sectorsPerCluster then Walk(Going, [])
    else
      var lba := ClusterSectorLba(p, cluster, s);
      if !disk.ok(lba) then Walk(Failed, [])
      else
        var w := SectorWalk(disk.data(lba), p.bytesPerSector, 0);
        if w.status == Done then w else Then(w.items, ClusterWalk(disk, p, cluster, s + 1))
  }

  /** The root directory chain of FAT32 from `cluster` on, following at most
      `fuel` clusters. */
  function ChainWalk(disk: Disk, p: FsParams, cluster: u32, fuel: nat): (w: Walk)
    requires p.bytesPerSector != 0
    decreases fuel
  {
    if cluster >= END_OF_CHAIN then Walk(Going, [])
    else if fuel == 0 then Walk(OutOfFuel, [])
    else
      var w := ClusterWalk(disk, p, cluster, 0);
      if w.status != Going then w
      else
        var next := NextCluster(disk, p, cluster);
        if next == READ_FAILED then Walk(Failed, w.items)
        else Then(w.items, ChainWalk(disk, p, next, fuel - 1))
  }

  /** The whole listing: the fixed root directory on FAT16, the cluster chain
      from the root cluster otherwise. */
  function ListRootSpec(disk: Disk, p: FsParams, fuel: nat): Walk
    requires p.bytesPerSector != 0
  {
    if p.fatType == FAT16 then RootWalk(disk, p, 0) else ChainWalk(disk, p, p.rootCluster, fuel)
  }

  /** The return value of `fat_list_root` for how the walk ended. */
  function ResultOf(st: Status): int
  {
    if st == Going || st == Done then 1 else 0
  }

  /** A chain that reaches its end within the fuel lists the same as with more
      fuel: the bound only cuts chains longer than it. */
  lemma {:induction false} ChainWalkFuel(disk: Disk, p: FsParams, cluster: u32, fuel: nat, more: nat)
    requires p.bytesPerSector != 0 && fuel <= more
    requires ChainWalk(disk, p, cluster, fuel).status != OutOfFuel
    ensures ChainWalk(disk, p, cluster, more) == ChainWalk(disk, p, cluster, fuel)
    decreases fuel
  {
    if cluster < END_OF_CHAIN && fuel > 0 {
      var w := ClusterWalk(disk, p, cluster, 0);
      if w.status == Going {
        var next := NextCluster(disk, p, cluster);
        if next != READ_FAILED {
          ChainWalkStep(disk, p, cluster, fuel);
          ChainWalkStep(disk, p, cluster, more);
          ChainWalkFuel(disk, p, next, fuel - 1, more - 1);
        }
      }
    }
  }


  /** `acc` and then `more` listed before `w`. */
  lemma ThenThen(acc: seq<Listed>, more: seq<Listed>, w: Walk)
    ensures Then(acc, Then(more, w)) == Then(acc + more, w)
  {
    ConcatAssoc(acc, more, w.items);
  }

  /** One step of the sector walk at a live entry and at one it skips. */
  lemma SectorWalkStep(s: Sector, bps: nat, off: nat)
    requires off < bps && s(off) != 0
    ensures SectorWalk(s, bps, off) == if LiveEntry(s, off)
      then Then([EntryListed(s, off)], SectorWalk(s, bps, off + ENTRY_SIZE))
      else SectorWalk(s, bps, off + ENTRY_SIZE)
  {
  }

  /** The name `name_to_str` leaves in the buffer, as the callback reads it. */
  method EntryNameStr(s: Sector, off: nat, nameBuf: array<char>) returns (name: seq<char>)
    requires nameBuf.Length == 13
    modifies nameBuf
    ensures name == CStr.Prefix(ShortName(EntryName(s, off)))
  {
    var raw := EntryName(s, off);
    NameToStr(raw, nameBuf);
    name := CStr.Prefix(nameBuf[..]);
    var n := |ShortName(raw)|;
    assert nameBuf[..] == ShortName(raw) + ['\0'] + nameBuf[n + 1..];
    CStr.PrefixThroughNul(ShortName(raw), nameBuf[n + 1..]);
  }

  /** One directory sector, entry after entry; each listed name goes through
      `name_to_str` into `nameBuf`. */
  method ListSector(s: Sector, bps: nat, nameBuf: array<char>) returns (w: Walk)
    requires nameBuf.Length == 13
    modifies nameBuf
    ensures w == SectorWalk(s, bps, 0)
  {
    var items: seq<Listed> := [];
    var off := 0;
    while off < bps
      invariant Then(items, SectorWalk(s, bps, off)) == SectorWalk(s, bps, 0)
      decreases bps - off
    {
      if s(off) == 0 {
        return Walk(Done, items);
      }
      SectorWalkStep(s, bps, off);
      if s(off) == DELETED || s(off + 11) == LONG_NAME {
        off := off + ENTRY_SIZE;
        continue;
      }
      var name := EntryNameStr(s, off, nameBuf);
      var e := Listed(name, Le32At(s, off + 28), s(off + 11));
      ThenThen(items, [e], SectorWalk(s, bps, off + ENTRY_SIZE));
      items := items + [e];
      off := off + ENTRY_SIZE;
    }
    return Walk(Going, items);
  }

  /** One step of the root directory walk after a sector that read. */
  lemma RootWalkStep(disk: Disk, p: FsParams, i: nat)
    requires i < p.rootDirSectors && disk.ok(RootSectorLba(p, i))
    ensures var sw := SectorWalk(disk.data(RootSectorLba(p, i)), p.bytesPerSector, 0);
      RootWalk(disk, p, i) == if sw.status == Done then sw else Then(sw.items, RootWalk(disk, p, i + 1))
  {
  }

  /** The FAT16 root directory: sector after sector. */
  method ListFixedRoot(disk: Disk, p: FsParams, nameBuf: array<char>) returns (w: Walk)
    requires nameBuf.Length == 13
    modifies nameBuf
    ensures w == RootWalk(disk, p, 0)
  {
    var items: seq<Listed> := [];
    var i := 0;
    while i < p.rootDirSectors
      invariant Then(items, RootWalk(disk, p, i)) == RootWalk(disk, p, 0)
      decreases p.rootDirSectors - i
    {
      var lba := RootSectorLba(p, i);
      if !disk.ok(lba) {
        return Walk(Failed, items);
      }
      var sw := ListSector(disk.data(lba), p.bytesPerSector, nameBuf);
      RootWalkStep(disk, p, i);
      if sw.status == Done {
        return Then(items, sw);
      }
      ThenThen(items, sw.items, RootWalk(disk, p, i + 1));
      items := items + sw.items;
      i := i + 1;
    }
    return Walk(Going, items);
  }

  /** One step of the cluster walk after a sector that read. */
  lemma ClusterWalkStep(disk: Disk, p: FsParams, cluster: u32, s: nat)
    requires s < p.sectorsPerCluster && disk.ok(ClusterSectorLba(p, cluster, s))
    ensures var sw := SectorWalk(disk.data(ClusterSectorLba(p, cluster, s)), p.bytesPerSector, 0);
      ClusterWalk(disk, p, cluster, s) == if sw.status == Done then sw
        else Then(sw.items, ClusterWalk(disk, p, cluster, s + 1))
  {
  }

  /** The sectors of one cluster of the FAT32 root directory. */
  method ListCluster(disk: Disk, p: FsParams, cluster: u32, nameBuf: array<char>) returns (w: Walk)
    requires nameBuf.Length == 13
    modifies nameBuf
    ensures w == ClusterWalk(disk, p, cluster, 0)
  {
    var items: seq<Listed> := [];
    var s := 0;
    while s < p.sectorsPerCluster
      invariant Then(items, ClusterWalk(disk, p, cluster, s)) == ClusterWalk(disk, p, cluster, 0)
      decreases p.sectorsPerCluster - s
    {
      var lba := ClusterSectorLba(p, cluster, s);
      if !disk.ok(lba) {
        return Walk(Failed, items);
      }
      var sw := ListSector(disk.data(lba), p.bytesPerSector, nameBuf);
      ClusterWalkStep(disk, p, cluster, s);
      if sw.status == Done {
        return Then(items, sw);
      }
      ThenThen(items, sw.items, ClusterWalk(disk, p, cluster, s + 1));
      items := items + sw.items;
      s := s + 1;
    }
    return Walk(Going, items);
  }

  /** One step of the chain walk after a cluster that listed to its end. */
  lemma ChainWalkStep(disk: Disk, p: FsParams, cluster: u32, fuel: nat)
    requires p.bytesPerSector != 0 && cluster < END_OF_CHAIN && fuel > 0
    requires ClusterWalk(disk, p, cluster, 0).status == Going
    requires NextCluster(disk, p, cluster) != READ_FAILED
    ensures ChainWalk(disk, p, cluster, fuel)
      == Then(ClusterWalk(disk, p, cluster, 0).items, ChainWalk(disk, p, NextCluster(disk, p, cluster), fuel - 1))
  {
  }

  /** `target` is what `items` followed by the chain walk from `cluster`, with
      `left` clusters to go, lists. */
  predicate Owes(disk: Disk, p: FsParams, cluster: u32, left: nat, items: seq<Listed>, target: Walk)
    requires p.bytesPerSector != 0
  {
    Then(items, ChainWalk(disk, p, cluster, left)) == target
  }

  /** Before the first cluster the whole chain walk is owed. */
  lemma ChainStart(disk: Disk, p: FsParams, cluster: u32, fuel: nat)
    requires p.bytesPerSector != 0
    ensures Owes(disk, p, cluster, fuel, [], ChainWalk(disk, p, cluster, fuel))
  {
    var w := ChainWalk(disk, p, cluster, fuel);
    assert [] + w.items == w.items;
  }

  /** The walk still owed after `items` moves on to the next cluster. */
  lemma ChainAdvance(disk: Disk, p: FsParams, cluster: u32, left: nat, items: seq<Listed>, target: Walk,
                     cw: Walk, next: u32)
    requires p.bytesPerSector != 0 && cluster < END_OF_CHAIN && left > 0
    requires cw == ClusterWalk(disk, p, cluster, 0) && cw.status == Going
    requires next == NextCluster(disk, p, cluster) && next != READ_FAILED
    requires Owes(disk, p, cluster, left, items, target)
    ensures Owes(disk, p, next, left - 1, items + cw.items, target)
  {
    ChainWalkStep(disk, p, cluster, left);
    ThenThen(items, ClusterWalk(disk, p, cluster, 0).items, ChainWalk(disk, p, next, left - 1));
  }

  /** The chain walk owed at a cluster number past the last cluster lists
      nothing more. */
  lemma ChainPastEnd(disk: Disk, p: FsParams, cluster: u32, left: nat, items: seq<Listed>, target: Walk)
    requires p.bytesPerSector != 0 && cluster >= END_OF_CHAIN
    requires Owes(disk, p, cluster, left, items, target)
    ensures Walk(Going, items) == target
  {
    assert items + [] == items;
  }

  /** The chain walk owed with no fuel left runs out of fuel. */
  lemma ChainOutOfFuel(disk: Disk, p: FsParams, cluster: u32, items: seq<Listed>, target: Walk)
    requires p.bytesPerSector != 0 && cluster < END_OF_CHAIN
    requires Owes(disk, p, cluster, 0, items, target)
    ensures Walk(OutOfFuel, items) == target
  {
    assert items + [] == items;
  }

  /** The chain walk owed at a cluster whose listing stops ends with that listing. */
  lemma ChainListingEnds(disk: Disk, p: FsParams, cluster: u32, left: nat, items: seq<Listed>, target: Walk)
    requires p.bytesPerSector != 0 && cluster < END_OF_CHAIN && left > 0
    requires ClusterWalk(disk, p, cluster, 0).status != Going
    requires Owes(disk, p, cluster, left, items, target)
    ensures Then(items, ClusterWalk(disk, p, cluster, 0)) == target
  {
  }

  /** The chain walk owed at a cluster whose FAT entry cannot be read fails after
      that cluster's listing. */
  lemma ChainReadFails(disk: Disk, p: FsParams, cluster: u32, left: nat, items: seq<Listed>, target: Walk)
    requires p.bytesPerSector != 0 && cluster < END_OF_CHAIN && left > 0
    requires ClusterWalk(disk, p, cluster, 0).status == Going
    requires NextCluster(disk, p, cluster) == READ_FAILED
    requires Owes(disk, p, cluster, left, items, target)
    ensures Walk(Failed, items + ClusterWalk(disk, p, cluster, 0).items) == target
  {
  }

  /** The FAT32 root directory: cluster after cluster along the FAT chain, at
      most `fuel` of them. */
  method ListChain(disk: Disk, p: FsParams, fuel: nat, nameBuf: array<char>) returns (w: Walk)
    requires p.bytesPerSector != 0 && nameBuf.Length == 13
    modifies nameBuf
    ensures w == ChainWalk(disk, p, p.rootCluster, fuel)
  {
    ghost var target := ChainWalk(disk, p, p.rootCluster, fuel);
    var items: seq<Listed> := [];
    var cluster: u32 := p.rootCluster;
    var left := fuel;
    ChainStart(disk, p, p.rootCluster, fuel);
    while cluster < END_OF_CHAIN
      invariant Owes(disk, p, cluster, left, items, target)
      decreases left
    {
      if left == 0 {
        ChainOutOfFuel(disk, p, cluster, items, target);
        return Walk(OutOfFuel, items);
      }
      var cw := ListCluster(disk, p, cluster, nameBuf);
      if cw.status != Going {
        ChainListingEnds(disk, p, cluster, left, items, target);
        return Then(items, cw);
      }
      var next := NextCluster(disk, p, cluster);
      if next == READ_FAILED {
        ChainReadFails(disk, p, cluster, left, items, target);
        return Walk(Failed, items + cw.items);
      }
      ChainAdvance(disk, p, cluster, left, items, target, cw, next);
      items := items + cw.items;
      cluster := next;
      left := left - 1;
    }
    ChainPastEnd(disk, p, cluster, left, items, target);
    return Walk(Going, items);
  }

  /** `fat_list_root`: the entries handed to the callback, in order, and the
      result; 0 and nothing listed for a null `fs` or callback. `fs` must have
      been mounted, since the FAT32 path divides by its sector size. */
  method ListRoot(fs: FatFs?, hasCallback: bool, disk: Disk, fuel: nat) returns (r: int, listed: seq<Listed>)
    requires fs != null ==> fs.bytesPerSector != 0
    ensures fs == null || !hasCallback ==> r == 0 && listed == []
    ensures fs != null && hasCallback ==>
      var w := ListRootSpec(disk, fs.Params(), fuel);
      listed == w.items && r == ResultOf(w.status)
  {
    if fs == null || !hasCallback {
      return 0, [];
    }
    var nameBuf := new char[13];
    var p := fs.Params();
    var w;
    if p.fatType == FAT16 {
      w := ListFixedRoot(disk, p, nameBuf);
    } else {
      w := ListChain(disk, p, fuel, nameBuf);
    }
    return ResultOf(w.status), w.items;
  }

  /** As written, `fat_list_root` reads root directory sector `i` at
      `part_lba + root_dir_lba + i` and cluster sectors at
      `part_lba + first_lba + s`: the partition start a second time. */
  function RootSectorLbaAsWritten(p: FsParams, i: nat): u32
  {
    Wrap32(p.partLba + p.rootDirLba + i)
  }

  function ClusterSectorLbaAsWritten(p: FsParams, cluster: u32, s: nat): u32
  {
    Wrap32(p.partLba + Wrap32(p.dataLba + (cluster - 2) * p.sectorsPerCluster) + s)
  }

  /** The sectors read as written are off by the partition start, so on any
      partition that does not start at sector 0 they are not the directory's. */
  lemma AsWrittenReadsPastTheDirectory(p: FsParams, i: nat, cluster: u32, s: nat)
    requires p.partLba + p.rootDirLba + i < U32_MOD
    requires 2 <= cluster && p.partLba + p.dataLba + (cluster - 2) * p.sectorsPerCluster + s < U32_MOD
    ensures RootSectorLbaAsWritten(p, i) == RootSectorLba(p, i) + p.partLba
    ensures ClusterSectorLbaAsWritten(p, cluster, s) == ClusterSectorLba(p, cluster, s) + p.partLba
    ensures p.partLba > 0 ==> RootSectorLbaAsWritten(p, i) != RootSectorLba(p, i)
  {
    var d := p.dataLba + (cluster - 2) * p.sectorsPerCluster;
    assert Wrap32(d) == d;
  }

  /** A FAT16 volume in a partition at sector 2048 with one reserved sector and
      two FATs of 32 sectors: its root directory starts at sector 2113, and the
      listing as written reads sector 4161. */
  lemma AsWrittenExample()
    ensures var p := FsParams(2048, 2049, 2113, 2145, 32, 65536, 32, 0, 512, 4, 2, FAT16);
      RootSectorLba(p, 0) == 2113 && RootSectorLbaAsWritten(p, 0) == 4161
  {
  }

  /** The sectors the listing reads are those of fatgen103's layout: root
      directory sector `i` of a mounted FAT16 volume is `i` sectors past the
      reserved sectors and the FATs, counted from the partition start. */
  lemma ListingReadsTheDirectory(b: Bpb, partLba: u32, t: u8, i: nat)
    requires 0 < b.bytesPerSector < 0x1_0000 && b.rootEntries < 0x1_0000
    requires b.totalSectors16 < 0x1_0000 && b.sectorsPerFat16 < 0x1_0000
    requires partLba + b.reservedSectors + b.fatCount * SectorsPerFat(b) + RootDirSectors(b) + i < U32_MOD
    ensures RootSectorLba(Mounted(b, partLba, t), i) == partLba + b.reservedSectors + b.fatCount * SectorsPerFat(b) + i
  {
    MountLayout(b, partLba, t);
    var p := Mounted(b, partLba, t);
    assert Wrap32(p.rootDirLba + i) == p.rootDirLba + i;
  }

  /** Sector `s` of cluster `cluster` of a mounted FAT32 volume lies past the
      reserved sectors, the FATs and the root directory sectors, counted from the
      partition start, `sectors_per_cluster` sectors for every cluster before it
      from cluster 2 on. */
  lemma ListingReadsTheCluster(b: Bpb, partLba: u32, t: u8, cluster: u32, s: nat)
    requires 0 < b.bytesPerSector < 0x1_0000 && b.rootEntries < 0x1_0000
    requires b.totalSectors16 < 0x1_0000 && b.sectorsPerFat16 < 0x1_0000
    requires 2 <= cluster
    requires partLba + b.reservedSectors + b.fatCount * SectorsPerFat(b) + RootDirSectors(b)
        + (cluster - 2) * b.sectorsPerCluster + s < U32_MOD
    ensures ClusterSectorLba(Mounted(b, partLba, t), cluster, s) == partLba + b.reservedSectors
      + b.fatCount * SectorsPerFat(b) + RootDirSectors(b) + (cluster - 2) * b.sectorsPerCluster + s
  {
    MountLayout(b, partLba, t);
    var p := Mounted(b, partLba, t);
    assert p.sectorsPerCluster == b.sectorsPerCluster;
    ClusterSectorNoWrap(p, cluster, s);
  }

  /** A cluster sector below 2^32 is not wrapped. */
  lemma ClusterSectorNoWrap(p: FsParams, cluster: u32, s: nat)
    requires 2 <= cluster && p.dataLba + (cluster - 2) * p.sectorsPerCluster + s < U32_MOD
    ensures ClusterSectorLba(p, cluster, s) == p.dataLba + (cluster - 2) * p.sectorsPerCluster + s
  {
  }
}
