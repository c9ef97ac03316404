/** The Multiboot2 boot information walk of src/mb2.c (Multiboot2 specification,
    section 3.6). The information structure is given by its 32-bit words:
    `mem(k)` is the little-endian `uint32_t` stored at byte offset `k` from the
    address the loader passes. Every read of the walk is at an offset that is a
    multiple of 4, and every offset below is relative to that address. A tag is
    an 8-byte header, a 32-bit type and a 32-bit size, followed by its body; the
    next tag starts at the size rounded up to a multiple of 8. */
module Mb2 {
  import opened Common

  type Words = nat -> u32

  /** The `uint32_t` read at offset `off`. */
  function U32At(mem: Words, off: nat): (v: u32)
  {
    mem(off)
  }

  /** `total_size`, the first word of the information structure. */
  function TotalSize(mem: Words): u32
  {
    U32At(mem, 0)
  }

  /** The type and the size of the tag at `off`. */
  function TypeAt(mem: Words, off: nat): u32
  {
    U32At(mem, off)
  }

  function SizeAt(mem: Words, off: nat): u32
  {
    U32At(mem, off + 4)
  }

  /** The advance `(size + 7u) & ~7u`, computed in `uint32_t`: the sum wraps, and
      clearing the low three bits rounds down to a multiple of 8. */
  function Step(size: u32): (n: u32)
  {
    var s := Wrap32(size + 7);
    s - s % 8
  }

  /** The advance is the size rounded up to the next multiple of 8, except that
      it is 0, and so ends the walk, for size 0 and for the sizes near 2^32 whose
      rounding wraps. */
  lemma StepRoundsUp(size: u32)
    ensures Step(size) % 8 == 0
    ensures Step(size) == 0 <==> size == 0 || size > 0xFFFF_FFF8
    ensures 0 < size <= 0xFFFF_FFF8 ==> size <= Step(size) < size + 8
  {
    if size <= 0xFFFF_FFF8 {
      assert Wrap32(size + 7) == size + 7;
    } else {
      assert Wrap32(size + 7) == size + 7 - U32_MOD;
    }
  }

  /** The offsets of the tags the walk from `off` reads: it goes on while an
      8-byte header fits before `total`, stops at a tag of type 0 and after a
      tag whose advance is 0. */
  function Chain(mem: Words, total: nat, off: nat): (c: seq<nat>)
    decreases total - off
  {
    if off + 8 > total || TypeAt(mem, off) == 0 then []
    else
      var n := Step(SizeAt(mem, off));
      if n == 0 then [off] else [off] + Chain(mem, total, off + n)
  }

  /** The tag at `off` is a tag of type `want` with a size of at least `minSize`. */
  predicate Matches(mem: Words, off: nat, want: u32, minSize: nat)
  {
    TypeAt(mem, off) == want && SizeAt(mem, off) >= minSize
  }

  /** Where the walk from `off` finds its tag: the first tag that matches, unless
      the walk ends before it. */
  function Scan(mem: Words, total: nat, off: nat, want: u32, minSize: nat): (r: Option<nat>)
    decreases total - off
  {
    if off + 8 > total || TypeAt(mem, off) == 0 then None
    else if Matches(mem, off, want, minSize) then Some(off)
    else
      var n := Step(SizeAt(mem, off));
      if n == 0 then None else Scan(mem, total, off + n, want, minSize)
  }

  /** Every offset of `c` leaves room for a header before `total` and lies on the
      8-byte grid that starts at `off`. */
  predicate OnGrid(c: seq<nat>, off: nat, total: nat)
  {
    forall k :: 0 <= k < |c| ==> off <= c[k] && c[k] + 8 <= total && (c[k] - off) % 8 == 0
  }

  /** Each offset of `c` lies past the one before. */
  predicate Ascending(c: seq<nat>)
  {
    forall k :: 0 <= k < |c| - 1 ==> c[k] < c[k + 1]
  }

  /** Every tag the walk reads has its header inside `total`, on the 8-byte grid
      of the start, and each lies past the one before, so no tag is read twice. */
  lemma {:induction false} ChainShape(mem: Words, total: nat, off: nat)
    ensures OnGrid(Chain(mem, total, off), off, total) && Ascending(Chain(mem, total, off))
    decreases total - off
  {
    if off + 8 <= total && TypeAt(mem, off) != 0 {
      var n := Step(SizeAt(mem, off));
      StepRoundsUp(SizeAt(mem, off));
      if n != 0 {
        ChainShape(mem, total, off + n);
        ConsShape(off, n, Chain(mem, total, off + n), total);
        assert Chain(mem, total, off) == [off] + Chain(mem, total, off + n);
      } else {
        assert Chain(mem, total, off) == [off];
      }
    }
  }

  /** A tag header before `total`, followed by a chain on the grid from `n` bytes
      further and ascending, gives a chain on its own grid and ascending. */
  lemma ConsShape(off: nat, n: nat, rest: seq<nat>, total: nat)
    requires off + 8 <= total && 0 < n && n % 8 == 0
    requires OnGrid(rest, off + n, total) && Ascending(rest)
    ensures OnGrid([off] + rest, off, total) && Ascending([off] + rest)
  {
    var c := [off] + rest;
    forall k | 0 < k < |c|
      ensures off < c[k] && c[k] + 8 <= total && (c[k] - off) % 8 == 0
    {
      var r := rest[k - 1];
      assert c[k] == r;
      GridShift(r, off, n);
    }
    assert forall k :: 0 < k < |c| - 1 ==> c[k] == rest[k - 1] && c[k + 1] == rest[k];
  }

  /** An offset on the grid of `off + n` is on the grid of `off` when `n` is a
      multiple of 8. */
  lemma GridShift(a: nat, off: nat, n: nat)
    requires off + n <= a && (a - (off + n)) % 8 == 0 && n % 8 == 0
    ensures (a - off) % 8 == 0
  {
    var q := (a - (off + n)) / 8;
    var m := n / 8;
    assert a - off == (q + m) * 8;
  }

  /** The walk finds the first tag of the chain that matches, and nothing when
      none of them does. */
  lemma {:induction false} ScanFindsFirstMatch(mem: Words, total: nat, off: nat, want: u32, minSize: nat)
    ensures var c := Chain(mem, total, off);
      match Scan(mem, total, off, want, minSize)
      case Some(o) =>
        exists i :: 0 <= i < |c| && c[i] == o && Matches(mem, o, want, minSize)
          && forall k :: 0 <= k < i ==> !Matches(mem, c[k], want, minSize)
      case None => forall k :: 0 <= k < |c| ==> !Matches(mem, c[k], want, minSize)
    decreases total - off
  {
    var c := Chain(mem, total, off);
    if off + 8 <= total && TypeAt(mem, off) != 0 {
      var n := Step(SizeAt(mem, off));
      if Matches(mem, off, want, minSize) {
        assert c[0] == off;
      } else if n != 0 {
        ScanFindsFirstMatch(mem, total, off + n, want, minSize);
        var rest := Chain(mem, total, off + n);
        assert c == [off] + rest;
        match Scan(mem, total, off + n, want, minSize)
        case Some(o) =>
          var i :| 0 <= i < |rest| && rest[i] == o && Matches(mem, o, want, minSize)
            && forall k :: 0 <= k < i ==> !Matches(mem, rest[k], want, minSize);
          assert c[i + 1] == o;
          assert forall k :: 0 < k < i + 1 ==> c[k] == rest[k - 1];
        case None =>
          assert forall k :: 0 < k < |c| ==> c[k] == rest[k - 1];
      }
    }
  }

  /** The minimum sizes of the three tags: `struct mb2_tag_framebuffer` (type 8),
      `struct mb2_tag_basic_meminfo` (type 4) and `struct mb2_tag_mmap` (type 6). */
  const FRAMEBUFFER_TAG: u32 := 8
  const FRAMEBUFFER_TAG_SIZE: nat := 32
  const MEMINFO_TAG: u32 := 4
  const MEMINFO_TAG_SIZE: nat := 16
  const MMAP_TAG: u32 := 6
  const MMAP_TAG_SIZE: nat := 16

  /** The tag walk every finder shares: the offset of the first matching tag, or
      `None` when the structure is shorter than its 8-byte header, the walk
      reaches the end, a type-0 tag or an advance of 0. */
  method FindTag(mem: Words, want: u32, minSize: nat) returns (found: Option<nat>)
    ensures found == if TotalSize(mem) < 8 then None else Scan(mem, TotalSize(mem), 8, want, minSize)
  {
    var total := TotalSize(mem);
    if total < 8 {
      return None;
    }
    var off: nat := 8;
    while off + 8 <= total
      invariant Scan(mem, total, off, want, minSize) == Scan(mem, total, 8, want, minSize)
      decreases total - off
    {
      var tagType := TypeAt(mem, off);
      if tagType == 0 {
        break;
      }
      var size := SizeAt(mem, off);
      if tagType == want && size >= minSize {
        return Some(off);
      }
      var next := Step(size);
      if next == 0 {
        break;
      }
      off := off + next;
    }
    return None;
  }

  /** `struct framebuffer` as the finder fills it. `base` is the pointer
      `(uint8_t *)(uintptr_t)addr`, which keeps the low 32 bits of the 64-bit
      address on a 32-bit kernel. */
  datatype FbDesc = FbDesc(base: u32, width: u32, height: u32, pitch: u32, bpp: u8)

  const NO_FB := FbDesc(0, 0, 0, 0, 0)

  /** The fields of the framebuffer tag at `off`: `addr` at +8, `pitch` at +16,
      `width` at +20, `height` at +24 and `bpp`, the low byte of the word at +28. */
  function FbFields(mem: Words, off: nat): FbDesc
  {
    FbDesc(U32At(mem, off + 8), U32At(mem, off + 20), U32At(mem, off + 24), U32At(mem, off + 16), U32At(mem, off + 28) % 0x100)
  }

  /** `mb2_find_framebuffer`. `outFb` says whether the out pointer is non-null;
      the fields it would store are `fb`. Without a usable tag the fields all
      stay 0 and the result is 0. */
  method FindFramebuffer(mem: Words, outFb: bool) returns (r: int, fb: FbDesc)
    ensures !outFb ==> r == 0 && fb == NO_FB
    ensures outFb ==> var o := if TotalSize(mem) < 8 then None
          else Scan(mem, TotalSize(mem), 8, FRAMEBUFFER_TAG, FRAMEBUFFER_TAG_SIZE);
        (r == 1 <==> o.Some?) && (r == 0 <==> o.None?)
        && fb == if o.Some? then FbFields(mem, o.value) else NO_FB
  {
    fb := NO_FB;
    if !outFb {
      return 0, fb;
    }
    var found := FindTag(mem, FRAMEBUFFER_TAG, FRAMEBUFFER_TAG_SIZE);
    if found.None? {
      return 0, fb;
    }
    fb := FbFields(mem, found.value);
    return 1, fb;
  }

  /** `mb2_find_basic_meminfo`: `mem_lower` at +8 and `mem_upper` at +12 of the
      first basic memory information tag, both 0 when there is none. */
  method FindBasicMeminfo(mem: Words, outLower: bool, outUpper: bool) returns (r: int, lower: u32, upper: u32)
    ensures !(outLower && outUpper) ==> r == 0 && lower == 0 && upper == 0
    ensures outLower && outUpper ==> var o := if TotalSize(mem) < 8 then None
          else Scan(mem, TotalSize(mem), 8, MEMINFO_TAG, MEMINFO_TAG_SIZE);
        (r == 1 <==> o.Some?) && (r == 0 <==> o.None?)
        && lower == (if o.Some? then U32At(mem, o.value + 8) else 0)
        && upper == (if o.Some? then U32At(mem, o.value + 12) else 0)
  {
    if !outLower || !outUpper {
      return 0, 0, 0;
    }
    var found := FindTag(mem, MEMINFO_TAG, MEMINFO_TAG_SIZE);
    if found.None? {
      return 0, 0, 0;
    }
    return 1, U32At(mem, found.value + 8), U32At(mem, found.value + 12);
  }

  /** The number of memory map entries in a map tag of `size` bytes with entries
      of `entrySize` bytes: those that fit after the 16-byte tag header, and 0
      for an entry size of 0. */
  function EntryCount(size: u32, entrySize: u32): (count: u32)
  {
    if entrySize != 0 then Wrap32(size - MMAP_TAG_SIZE) / entrySize else 0
  }

  /** The counted entries fit in the tag, and one more would not. */
  lemma EntryCountFits(size: u32, entrySize: u32)
    requires size >= MMAP_TAG_SIZE && entrySize != 0
    ensures MMAP_TAG_SIZE + EntryCount(size, entrySize) * entrySize <= size
    ensures size < MMAP_TAG_SIZE + (EntryCount(size, entrySize) + 1) * entrySize
  {
    var body := size - MMAP_TAG_SIZE;
    assert Wrap32(body) == body;
    var q := body / entrySize;
    assert body == q * entrySize + body % entrySize;
  }

  /** `mb2_get_mmap`: the entries (as the offset where they start, `None` for a
      null pointer), the entry size and the entry count of the first memory map
      tag; `None`, 0 and 0 when there is none. */
  method GetMmap(mem: Words, outEntries: bool, outSize: bool, outCount: bool)
    returns (r: int, entries: Option<nat>, entrySize: u32, entryCount: u32)
    ensures !(outEntries && outSize && outCount) ==> r == 0 && entries == None && entrySize == 0 && entryCount == 0
    ensures outEntries && outSize && outCount ==> var o := if TotalSize(mem) < 8 then None
          else Scan(mem, TotalSize(mem), 8, MMAP_TAG, MMAP_TAG_SIZE);
        (r == 1 <==> o.Some?) && (r == 0 <==> o.None?)
        && (o.None? ==> entries == None && entrySize == 0 && entryCount == 0)
        && (o.Some? ==> (entries == Some(o.value + 16) && entrySize == U32At(mem, o.value + 8)
              && entryCount == EntryCount(SizeAt(mem, o.value), entrySize)))
  {
    if !outEntries || !outSize || !outCount {
      return 0, None, 0, 0;
    }
    var found := FindTag(mem, MMAP_TAG, MMAP_TAG_SIZE);
    if found.None? {
      return 0, None, 0, 0;
    }
    var off := found.value;
    ScanMatches(mem, TotalSize(mem), 8, MMAP_TAG, MMAP_TAG_SIZE);
    var size := SizeAt(mem, off);
    var es := U32At(mem, off + 8);
    var count: u32 := 0;
    if es != 0 {
      count := Wrap32(size - MMAP_TAG_SIZE) / es;
    }
    return 1, Some(off + 16), es, count;
  }

  /** A tag the walk finds is one that matches, with its header inside `total`. */
  lemma {:induction false} ScanMatches(mem: Words, total: nat, off: nat, want: u32, minSize: nat)
    ensures var r := Scan(mem, total, off, want, minSize);
      r.Some? ==> Matches(mem, r.value, want, minSize) && off <= r.value && r.value + 8 <= total
    decreases total - off
  {
    if off + 8 <= total && TypeAt(mem, off) != 0 && !Matches(mem, off, want, minSize) {
      if Step(SizeAt(mem, off)) != 0 {
        ScanMatches(mem, total, off + Step(SizeAt(mem, off)), want, minSize);
      }
    }
  }

  /** Only the header is checked against `total_size`: a framebuffer tag whose
      header is the last 8 bytes of the structure is found, and its fields are
      read from past the end. */
  lemma FieldsReadPastEnd()
    ensures var mem: Words := k => if k == 0 then 16 else if k == 8 then 8 else if k == 12 then 32 else 0;
      Scan(mem, TotalSize(mem), 8, FRAMEBUFFER_TAG, FRAMEBUFFER_TAG_SIZE) == Some(8)
      && 8 + FRAMEBUFFER_TAG_SIZE > TotalSize(mem)
  {
    var mem: Words := k => if k == 0 then 16 else if k == 8 then 8 else if k == 12 then 32 else 0;
    assert TotalSize(mem) == 16 && TypeAt(mem, 8) == 8 && SizeAt(mem, 8) == 32;
  }
}
