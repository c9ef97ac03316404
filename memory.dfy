/** The kernel heap (a bump allocator) and the physical page bitmap of src/memory.c.

    Pages are 4096 bytes. Bit `idx % 8` of bitmap byte `idx / 8` is set when page
    `idx` is in use. Addresses and sizes are 32-bit values. */
module Memory {
  import opened Common

  const PAGE_SIZE: nat := 4096

  // ---------------------------------------------------------------------------
  // align_up, on 32-bit values

  function Pow2(k: nat): (r: nat)
    ensures r >= 1
  {
    if k == 0 then 1 else 2 * Pow2(k - 1)
  }

  /** C's `&` on non-negative integers, bit by bit from the least significant. */
  function BitAnd(x: nat, y: nat): (r: nat)
    ensures r <= x && r <= y
  {
    if x == 0 || y == 0 then 0 else 2 * BitAnd(x / 2, y / 2) + (if x % 2 == 1 && y % 2 == 1 then 1 else 0)
  }

  /** The value of the low `k` bits of `x`. */
  function LowBits(x: nat, k: nat): (r: nat)
  {
    if k == 0 then 0 else x % 2 + 2 * LowBits(x / 2, k - 1)
  }

  /** `align_up`: `(value + align - 1u) & ~(align - 1u)` in 32-bit arithmetic, where
      `~m` of a 32-bit `m` is `0xFFFFFFFF - m`. */
  function AlignUp(value: u32, align: u32): u32
  {
    BitAnd(Wrap32(value + align - 1), 0xFFFF_FFFF - Wrap32(align - 1))
  }

  lemma {:induction false} LowBitsBound(x: nat, k: nat)
    ensures LowBits(x, k) < Pow2(k) && LowBits(x, k) <= x
  {
    if k > 0 {
      LowBitsBound(x / 2, k - 1);
    }
  }

  lemma {:induction false} LowBitsOfZero(k: nat)
    ensures LowBits(0, k) == 0
  {
    if k > 0 {
      LowBitsOfZero(k - 1);
    }
  }

  lemma {:induction false} AndAllOnes(x: nat, n: nat)
    requires x < Pow2(n)
    ensures BitAnd(x, Pow2(n) - 1) == x
  {
    if x != 0 {
      AndAllOnes(x / 2, n - 1);
    }
  }

  lemma {:induction false} Pow2Below(k: nat, n: nat)
    requires k < n
    ensures 2 * Pow2(k) <= Pow2(n)
    decreases n
  {
    if k < n - 1 {
      Pow2Below(k, n - 1);
    }
  }

  /** ANDing with the mask that keeps bits k..n-1 clears exactly the low k bits. */
  lemma {:induction false} AndHighMask(x: nat, n: nat, k: nat)
    requires k < n && x < Pow2(n)
    ensures Pow2(k) < Pow2(n)
    ensures BitAnd(x, Pow2(n) - Pow2(k)) == x - LowBits(x, k)
  {
    Pow2Below(k, n);
    if k == 0 {
      AndAllOnes(x, n);
    } else if x == 0 {
      LowBitsOfZero(k);
    } else {
      AndHighMask(x / 2, n - 1, k - 1);
      AndHighMaskStep(x, n, k);
    }
  }

  /** One bit of AndHighMask's induction: the low bit is cleared and the rest is the
      result for x / 2. */
  lemma AndHighMaskStep(x: nat, n: nat, k: nat)
    requires 0 < k < n && Pow2(k - 1) < Pow2(n - 1)
    requires BitAnd(x / 2, Pow2(n - 1) - Pow2(k - 1)) == x / 2 - LowBits(x / 2, k - 1)
    ensures BitAnd(x, Pow2(n) - Pow2(k)) == x - LowBits(x, k)
  {
    var m := Pow2(n) - Pow2(k);
    MaskHalves(n, k);
    BitAndEven(x, m);
    var h := x / 2 - LowBits(x / 2, k - 1);
    assert BitAnd(x, m) == 2 * h;
    assert LowBits(x, k) == x % 2 + 2 * LowBits(x / 2, k - 1);
  }

  /** The mask keeping bits k..n-1 is even and halves to the mask keeping bits k-1..n-2. */
  lemma MaskHalves(n: nat, k: nat)
    requires 0 < k < n
    ensures (Pow2(n) - Pow2(k)) % 2 == 0
    ensures (Pow2(n) - Pow2(k)) / 2 == Pow2(n - 1) - Pow2(k - 1)
  {
    assert Pow2(n) - Pow2(k) == 2 * (Pow2(n - 1) - Pow2(k - 1));
  }

  /** ANDing with an even mask keeps no low bit. */
  lemma BitAndEven(x: nat, m: nat)
    requires m % 2 == 0
    ensures BitAnd(x, m) == 2 * BitAnd(x / 2, m / 2)
  {
    if x == 0 || m == 0 {
      assert BitAnd(x / 2, m / 2) == 0;
    }
  }

  /** Removing the low k bits leaves a value whose low k bits are zero. */
  lemma {:induction false} LowBitsOfDifference(x: nat, k: nat)
    ensures LowBits(x, k) <= x && LowBits(x - LowBits(x, k), k) == 0
  {
    LowBitsBound(x, k);
    if k > 0 {
      LowBitsOfDifference(x / 2, k - 1);
      var l := LowBits(x / 2, k - 1);
      assert x - LowBits(x, k) == 2 * (x / 2 - l);
      assert (x - LowBits(x, k)) / 2 == x / 2 - l;
    }
  }

  lemma Pow2Of32()
    ensures Pow2(32) == 0x1_0000_0000
  {
    assert Pow2(8) == 256;
    assert Pow2(16) == 2 * 2 * 2 * 2 * 2 * 2 * 2 * 2 * Pow2(8);
    assert Pow2(24) == 2 * 2 * 2 * 2 * 2 * 2 * 2 * 2 * Pow2(16);
    assert Pow2(32) == 2 * 2 * 2 * 2 * 2 * 2 * 2 * 2 * Pow2(24);
  }

  /** For `align` = 2^k whose addition does not wrap, `align_up` gives the least
      multiple of `align` that is at least `value`: its low k bits are zero, it is not
      below `value`, and it is less than `align` above it. */
  lemma AlignUpLeast(value: u32, k: nat)
    requires k < 32 && value + Pow2(k) - 1 < 0x1_0000_0000
    ensures Pow2(k) < 0x1_0000_0000
    ensures LowBits(AlignUp(value, Pow2(k)), k) == 0
    ensures value <= AlignUp(value, Pow2(k)) < value + Pow2(k)
  {
    AlignUpRoundsDown(value, k);
    RoundDownBounds(value + Pow2(k) - 1, k, AlignUp(value, Pow2(k)));
  }

  /** Without wrap-around, `align_up` to 2^k rounds `value + 2^k - 1` down to a
      multiple of 2^k. */
  lemma AlignUpRoundsDown(value: u32, k: nat)
    requires k < 32 && value + Pow2(k) - 1 < U32_MOD
    ensures Pow2(k) < U32_MOD
    ensures AlignUp(value, Pow2(k)) == (value + Pow2(k) - 1) - LowBits(value + Pow2(k) - 1, k)
  {
    AndAlignMask(value + Pow2(k) - 1, k);
    AlignUpNoWrap(value, Pow2(k));
  }

  /** Clearing the low k bits of x gives a multiple of 2^k in (x - 2^k, x]. */
  lemma RoundDownBounds(x: nat, k: nat, r: int)
    requires r == x - LowBits(x, k)
    ensures r >= 0 && LowBits(r, k) == 0
    ensures x - Pow2(k) < r <= x
  {
    LowBitsOfDifference(x, k);
    LowBitsBound(x, k);
  }

  /** The 32-bit mask `~(2^k - 1)` clears exactly the low k bits. */
  lemma AndAlignMask(x: nat, k: nat)
    requires k < 32 && x < U32_MOD
    ensures Pow2(k) < U32_MOD
    ensures BitAnd(x, 0xFFFF_FFFF - (Pow2(k) - 1)) == x - LowBits(x, k)
  {
    Pow2Of32();
    AndHighMask(x, 32, k);
    var m := 0xFFFF_FFFF - (Pow2(k) - 1);
    assert m == Pow2(32) - Pow2(k);
  }

  /** Without wrap-around `align_up` is the mask applied to `value + align - 1`. */
  lemma AlignUpNoWrap(value: u32, align: u32)
    requires 1 <= align && value + align - 1 < U32_MOD
    ensures AlignUp(value, align) == BitAnd(value + align - 1, 0xFFFF_FFFF - (align - 1))
  {
    assert Wrap32(value + align - 1) == value + align - 1;
    assert Wrap32(align - 1) == align - 1;
  }

  /** When `value + align - 1` wraps, the result is below `value`. */
  lemma AlignUpWraps()
    ensures AlignUp(0xFFFF_FFF1, 16) == 0
  {
    assert Wrap32(0xFFFF_FFF1 + 16 - 1) == 0;
  }

  // ---------------------------------------------------------------------------
  // The page bitmap, as a sequence of bytes

  /** `1u << k` as a byte, for a bit position 0..7. */
  function Bit(k: nat): (b: bv8)
    requires k < 8
    ensures b != 0
  {
    if k == 0 then 1 else if k == 1 then 2 else if k == 2 then 4 else if k == 3 then 8
    else if k == 4 then 16 else if k == 5 then 32 else if k == 6 then 64 else 128
  }

  /** `~(1u << k)` as a byte: every bit but bit k. */
  function NotBit(k: nat): (b: bv8)
    requires k < 8
  {
    if k == 0 then 0xFE else if k == 1 then 0xFD else if k == 2 then 0xFB else if k == 3 then 0xF7
    else if k == 4 then 0xEF else if k == 5 then 0xDF else if k == 6 then 0xBF else 0x7F
  }

  /** `bitmap_test`. */
  predicate Test(bm: seq<bv8>, idx: nat)
    requires idx < |bm| * 8
  {
    bm[idx / 8] & Bit(idx % 8) != 0
  }

  /** `bitmap_set`: OR bit `idx % 8` into byte `idx / 8`. */
  function SetBit(bm: seq<bv8>, idx: nat): (r: seq<bv8>)
    requires idx < |bm| * 8
    ensures |r| == |bm|
  {
    bm[idx / 8 := bm[idx / 8] | Bit(idx % 8)]
  }

  /** `bitmap_clear`: AND byte `idx / 8` with the complement of bit `idx % 8`. */
  function ClearBit(bm: seq<bv8>, idx: nat): (r: seq<bv8>)
    requires idx < |bm| * 8
    ensures |r| == |bm|
  {
    bm[idx / 8 := bm[idx / 8] & NotBit(idx % 8)]
  }

  lemma BitOther(b: bv8, k: nat, j: nat)
    requires k < 8 && j < 8 && k != j
    ensures (b | Bit(k)) & Bit(j) == b & Bit(j)
    ensures (b & NotBit(k)) & Bit(j) == b & Bit(j)
  {
  }

  lemma BitSame(b: bv8, k: nat)
    requires k < 8
    ensures (b | Bit(k)) & Bit(k) != 0
    ensures (b & NotBit(k)) & Bit(k) == 0
  {
  }

  /** Setting bit k of a byte affects bit j exactly when j is k. */
  lemma SetByteBit(b: bv8, k: nat, j: nat)
    requires k < 8 && j < 8
    ensures ((b | Bit(k)) & Bit(j) != 0) == (j == k || b & Bit(j) != 0)
  {
    if j == k {
      BitSame(b, k);
    } else {
      BitOther(b, k, j);
    }
  }

  /** Clearing bit k of a byte affects bit j exactly when j is k. */
  lemma ClearByteBit(b: bv8, k: nat, j: nat)
    requires k < 8 && j < 8
    ensures ((b & NotBit(k)) & Bit(j) != 0) == (j != k && b & Bit(j) != 0)
  {
    if j == k {
      BitSame(b, k);
    } else {
      BitOther(b, k, j);
    }
  }

  lemma SameByteSameBit(i: nat, j: nat)
    requires i / 8 == j / 8 && i % 8 == j % 8
    ensures i == j
  {
    assert i == 8 * (i / 8) + i % 8 && j == 8 * (j / 8) + j % 8;
  }

  /** After `bitmap_set(idx)`, page idx tests as used and every other page tests as before. */
  lemma TestAfterSet(bm: seq<bv8>, idx: nat, j: nat)
    requires idx < |bm| * 8 && j < |bm| * 8
    ensures Test(SetBit(bm, idx), j) == (j == idx || Test(bm, j))
  {
    var c := SetBit(bm, idx);
    if j / 8 != idx / 8 {
      assert c[j / 8] == bm[j / 8];
    } else {
      assert (j == idx) == (j % 8 == idx % 8) by {
        if j % 8 == idx % 8 {
          SameByteSameBit(j, idx);
        }
      }
      assert c[j / 8] == bm[idx / 8] | Bit(idx % 8);
      SetByteBit(bm[idx / 8], idx % 8, j % 8);
    }
  }

  /** After `bitmap_clear(idx)`, page idx tests as free and every other page tests as before. */
  lemma TestAfterClear(bm: seq<bv8>, idx: nat, j: nat)
    requires idx < |bm| * 8 && j < |bm| * 8
    ensures Test(ClearBit(bm, idx), j) == (j != idx && Test(bm, j))
  {
    var c := ClearBit(bm, idx);
    if j / 8 != idx / 8 {
      assert c[j / 8] == bm[j / 8];
    } else {
      assert (j == idx) == (j % 8 == idx % 8) by {
        if j % 8 == idx % 8 {
          SameByteSameBit(j, idx);
        }
      }
      assert c[j / 8] == bm[idx / 8] & NotBit(idx % 8);
      ClearByteBit(bm[idx / 8], idx % 8, j % 8);
    }
  }

  /** Clearing an already clear bit changes nothing, so `phys_free_page` is idempotent. */
  lemma ClearIdempotent(bm: seq<bv8>, idx: nat)
    requires idx < |bm| * 8
    ensures ClearBit(ClearBit(bm, idx), idx) == ClearBit(bm, idx)
  {
    var c := ClearBit(bm, idx);
    var b := bm[idx / 8] & NotBit(idx % 8);
    assert c[idx / 8] == b;
    ClearTwice(bm[idx / 8], idx % 8);
    assert ClearBit(c, idx) == c[idx / 8 := b];
  }

  lemma ClearTwice(x: bv8, k: nat)
    requires k < 8
    ensures (x & NotBit(k)) & NotBit(k) == x & NotBit(k)
  {
  }

  /** The number of free pages among pages 0..n-1. */
  function FreeCount(bm: seq<bv8>, n: nat): (c: nat)
    requires n <= |bm| * 8
    ensures c <= n
  {
    if n == 0 then 0 else FreeCount(bm, n - 1) + (if Test(bm, n - 1) then 0 else 1)
  }

  /** Marking a free page below n used lowers the free count of pages 0..n-1 by one. */
  lemma FreeCountAfterSet(bm: seq<bv8>, idx: nat, n: nat)
    requires idx < n <= |bm| * 8 && !Test(bm, idx)
    ensures FreeCount(SetBit(bm, idx), n) == FreeCount(bm, n) - 1
  {
    var s := SetBit(bm, idx);
    forall j | 0 <= j < n
      ensures Test(s, j) == (j == idx || Test(bm, j))
    {
      TestAfterSet(bm, idx, j);
    }
    FreeCountOneFlip(s, bm, idx, n);
  }

  /** Freeing a used page below n raises the free count of pages 0..n-1 by one. */
  lemma FreeCountAfterClear(bm: seq<bv8>, idx: nat, n: nat)
    requires idx < n <= |bm| * 8 && Test(bm, idx)
    ensures FreeCount(ClearBit(bm, idx), n) == FreeCount(bm, n) + 1
  {
    var c := ClearBit(bm, idx);
    forall j | 0 <= j < n
      ensures Test(c, j) == (j != idx && Test(bm, j))
    {
      TestAfterClear(bm, idx, j);
    }
    FreeCountOneFlip(bm, c, idx, n);
  }

  /** Two bitmaps that differ below n only at page idx, used in `a` and free in `b`,
      differ by one in their free counts. */
  lemma {:induction false} FreeCountOneFlip(a: seq<bv8>, b: seq<bv8>, idx: nat, n: nat)
    requires idx < n <= |a| * 8 && n <= |b| * 8
    requires Test(a, idx) && !Test(b, idx)
    requires forall j :: 0 <= j < n && j != idx ==> Test(a, j) == Test(b, j)
    ensures FreeCount(b, n) == FreeCount(a, n) + 1
  {
    if idx < n - 1 {
      FreeCountOneFlip(a, b, idx, n - 1);
    } else {
      FreeCountUnchangedBelow(a, b, n - 1);
    }
  }

  /** Two bitmaps that agree on pages 0..n-1 have the same free count there. */
  lemma {:induction false} FreeCountUnchangedBelow(a: seq<bv8>, b: seq<bv8>, n: nat)
    requires n <= |a| * 8 && n <= |b| * 8
    requires forall j :: 0 <= j < n ==> Test(a, j) == Test(b, j)
    ensures FreeCount(a, n) == FreeCount(b, n)
  {
    if n > 0 {
      FreeCountUnchangedBelow(a, b, n - 1);
    }
  }

  /** With every page below n used, there is no free page below n. */
  lemma {:induction false} FreeCountAllUsed(bm: seq<bv8>, n: nat)
    requires n <= |bm| * 8
    requires forall j :: 0 <= j < n ==> Test(bm, j)
    ensures FreeCount(bm, n) == 0
  {
    if n > 0 {
      FreeCountAllUsed(bm, n - 1);
    }
  }

  /** A positive free count has a free page to show for it. */
  lemma {:induction false} FreeCountWitness(bm: seq<bv8>, n: nat) returns (p: nat)
    requires n <= |bm| * 8 && FreeCount(bm, n) > 0
    ensures p < n && !Test(bm, p)
  {
    if Test(bm, n - 1) {
      p := FreeCountWitness(bm, n - 1);
    } else {
      p := n - 1;
    }
  }

  // ---------------------------------------------------------------------------
  // Page ranges

  /** `(end + PAGE_SIZE - 1u) / PAGE_SIZE` as the source computes it, in 32 bits. */
  function PageEndAsWritten(end: u32): (r: nat)
    ensures r < 0x10_0000
  {
    Wrap32(end + PAGE_SIZE - 1) / PAGE_SIZE
  }

  /** An end clamped to 0xFFFFFFFF wraps to page 0: the range covers no page at all. */
  lemma PageEndAsWrittenLosesClampedRegion()
    ensures PageEndAsWritten(0xFFFF_FFFF) == 0
    ensures PageEndAsWritten(0xFFFF_F001) == 0
  {
  }

  /** The first page index past `end`: the round-up division done without wrapping. */
  function PageEnd(end: u32): (r: nat)
    ensures r * PAGE_SIZE >= end && (r == 0 || (r - 1) * PAGE_SIZE < end)
    ensures r <= 0x10_0000
  {
    (end + PAGE_SIZE - 1) / PAGE_SIZE
  }

  /** Both computations agree unless `end + 4095` leaves 32 bits. */
  lemma PageEndAgrees(end: u32)
    requires end <= 0xFFFF_F000
    ensures PageEndAsWritten(end) == PageEnd(end)
  {
  }

  // ---------------------------------------------------------------------------
  // The physical page allocator

  /** The page `m` steps after `last` in the allocator's wrap-around scan. */
  function Cyc(last: nat, m: nat, total: nat): (p: nat)
    requires total > 0
    ensures p < total
  {
    (last + m) % total
  }

  /** Every page is reached within `total` steps of the wrap-around scan. */
  lemma CycReaches(last: nat, p: nat, total: nat) returns (k: nat)
    requires last <= total && p < total
    ensures k < total && Cyc(last, k, total) == p
  {
    if p >= last {
      k := p - last;
      assert last + k == p;
      ModBelow(p, total);
    } else {
      k := p + total - last;
      assert last + k == p + total;
      ModBelow(p, total);
      ModOnceAbove(p, total);
    }
  }

  lemma ModBelow(x: nat, n: nat)
    requires x < n
    ensures x % n == x
  {
  }

  lemma ModOnceAbove(x: nat, n: nat)
    requires x < n
    ensures (x + n) % n == x
  {
    var q, r := (x + n) / n, (x + n) % n;
    assert x + n == q * n + r && 0 <= r < n;
    assert q == 1;
  }

  datatype MemoryStats = MemoryStats(totalPages: u32, freePages: u32, usedPages: u32, totalKb: u32)

  /** The bitmap, its page count, the free-page counter and the next-fit cursor
      `last` of `phys_alloc_page`. */
  class PageFrames {
    var bitmap: array<bv8>
    var totalPages: nat
    var freePages: nat
    var last: nat

    /** memory_init bounds the page count by 2^32 / 4096, so page addresses fit 32 bits;
        the free-page counter is exactly the number of clear bits. */
    ghost predicate Valid()
      reads this, bitmap
    {
      0 < totalPages <= 0x10_0000 && totalPages <= bitmap.Length * 8
      && last <= totalPages
      && freePages == FreeCount(bitmap[..], totalPages)
    }

    /** The state memory_init creates before it frees the usable regions: every bit that
        covers a page is set and no page is free. */
    constructor (pages: nat)
      requires 0 < pages <= 0x10_0000
      ensures Valid() && fresh(bitmap)
      ensures totalPages == pages && freePages == 0 && last == 0
      ensures forall j :: 0 <= j < bitmap.Length * 8 ==> Test(bitmap[..], j)
    {
      bitmap := new bv8[(pages + 7) / 8](_ => 0xFF);
      totalPages := pages;
      freePages := 0;
      last := 0;
      new;
      forall j | 0 <= j < bitmap.Length * 8 ensures Test(bitmap[..], j) {
        assert bitmap[..][j / 8] == 0xFF;
      }
      FreeCountAllUsed(bitmap[..], totalPages);
    }

    /** `bitmap_set`. */
    method BitmapSet(idx: nat)
      requires idx < bitmap.Length * 8
      modifies bitmap
      ensures bitmap[..] == SetBit(old(bitmap[..]), idx)
    {
      bitmap[idx / 8] := bitmap[idx / 8] | Bit(idx % 8);
    }

    /** `bitmap_clear`. */
    method BitmapClear(idx: nat)
      requires idx < bitmap.Length * 8
      modifies bitmap
      ensures bitmap[..] == ClearBit(old(bitmap[..]), idx)
    {
      bitmap[idx / 8] := bitmap[idx / 8] & NotBit(idx % 8);
    }

    /** `bitmap_test`: reads the bitmap and changes nothing. */
    method BitmapTest(idx: nat) returns (used: bool)
      requires idx < bitmap.Length * 8
      ensures used == Test(bitmap[..], idx)
      ensures used <==> bitmap[idx / 8] & Bit(idx % 8) != 0
    {
      used := bitmap[idx / 8] & Bit(idx % 8) != 0;
    }

    /** `reserve_range`: marks used every page of [start/4096, PageEnd(end)) below
        totalPages; `free_pages` drops by one per page whose bit actually flips. */
    method ReserveRange(start: u32, end: u32)
      requires Valid()
      modifies bitmap, this`freePages
      ensures Valid()
      ensures forall j :: 0 <= j < bitmap.Length * 8 ==>
        Test(bitmap[..], j) == (if start / PAGE_SIZE <= j < PageEnd(end) && j < totalPages then true
                                else Test(old(bitmap[..]), j))
    {
      var pageStart := start / PAGE_SIZE;
      var pageEnd := PageEnd(end);
      var i := pageStart;
      while i < pageEnd && i < totalPages
        invariant pageStart <= i && (i == pageStart || (i <= pageEnd && i <= totalPages))
        invariant freePages == FreeCount(bitmap[..], totalPages)
        invariant forall j :: 0 <= j < bitmap.Length * 8 ==>
          Test(bitmap[..], j) == (if pageStart <= j < i then true else Test(old(bitmap[..]), j))
        decreases totalPages - i
      {
        ReservePage(i);
        i := i + 1;
      }
    }

    /** One iteration of `reserve_range`'s loop: page i becomes used, and the free count
        drops by one when its bit was clear. */
    method ReservePage(i: nat)
      requires Valid() && i < totalPages
      modifies bitmap, this`freePages
      ensures Valid()
      ensures forall j :: 0 <= j < bitmap.Length * 8 ==> Test(bitmap[..], j) == (j == i || Test(old(bitmap[..]), j))
    {
      var used := BitmapTest(i);
      if !used {
        ghost var before := bitmap[..];
        BitmapSet(i);
        FreeCountAfterSet(before, i, totalPages);
        forall j | 0 <= j < bitmap.Length * 8
          ensures Test(bitmap[..], j) == (j == i || Test(before, j))
        {
          TestAfterSet(before, i, j);
        }
        if freePages > 0 {
          freePages := freePages - 1;
        }
      }
    }

    /** `free_range`: marks free every page of [start/4096, PageEnd(end)) below
        totalPages; `free_pages` rises by one per page whose bit actually flips. */
    method FreeRange(start: u32, end: u32)
      requires Valid()
      modifies bitmap, this`freePages
      ensures Valid()
      ensures forall j :: 0 <= j < bitmap.Length * 8 ==>
        Test(bitmap[..], j) == (if start / PAGE_SIZE <= j < PageEnd(end) && j < totalPages then false
                                else Test(old(bitmap[..]), j))
    {
      var pageStart := start / PAGE_SIZE;
      var pageEnd := PageEnd(end);
      var i := pageStart;
      while i < pageEnd && i < totalPages
        invariant pageStart <= i && (i == pageStart || (i <= pageEnd && i <= totalPages))
        invariant freePages == FreeCount(bitmap[..], totalPages)
        invariant forall j :: 0 <= j < bitmap.Length * 8 ==>
          Test(bitmap[..], j) == (if pageStart <= j < i then false else Test(old(bitmap[..]), j))
        decreases totalPages - i
      {
        FreePage(i);
        i := i + 1;
      }
    }

    /** One iteration of `free_range`'s loop: page i becomes free, and the free count
        rises by one when its bit was set. */
    method FreePage(i: nat)
      requires Valid() && i < totalPages
      modifies bitmap, this`freePages
      ensures Valid()
      ensures forall j :: 0 <= j < bitmap.Length * 8 ==> Test(bitmap[..], j) == (j != i && Test(old(bitmap[..]), j))
    {
      var used := BitmapTest(i);
      if used {
        ghost var before := bitmap[..];
        BitmapClear(i);
        FreeCountAfterClear(before, i, totalPages);
        forall j | 0 <= j < bitmap.Length * 8
          ensures Test(bitmap[..], j) == (j != i && Test(before, j))
        {
          TestAfterClear(before, i, j);
        }
        freePages := freePages + 1;
      }
    }

    /** `phys_alloc_page`: next-fit from `last`. The first free page in the cyclic
        order last, last+1, … is marked used and its address returned; with no free
        page the result is 0 and nothing changes. */
    method PhysAllocPage() returns (addr: u32, ghost found: bool)
      requires Valid()
      modifies bitmap, this`freePages, this`last
      ensures Valid()
      ensures found <==> old(freePages) > 0
      ensures !found ==> addr == 0 && bitmap[..] == old(bitmap[..]) && freePages == old(freePages)
                         && last == old(last)
      ensures found ==>
        var idx := addr / PAGE_SIZE;
        addr % PAGE_SIZE == 0 && idx < totalPages && !Test(old(bitmap[..]), idx)
        && bitmap[..] == SetBit(old(bitmap[..]), idx)
        && freePages == old(freePages) - 1 && last == idx + 1
        && exists k :: 0 <= k < totalPages && idx == Cyc(old(last), k, totalPages)
             && forall m :: 0 <= m < k ==> Test(old(bitmap[..]), Cyc(old(last), m, totalPages))
    {
      var i := 0;
      while i < totalPages
        invariant 0 <= i <= totalPages
        invariant bitmap[..] == old(bitmap[..]) && freePages == old(freePages) && last == old(last)
        invariant forall m :: 0 <= m < i ==> Test(bitmap[..], Cyc(last, m, totalPages))
      {
        var idx := (last + i) % totalPages;
        assert idx == Cyc(last, i, totalPages);
        var used := BitmapTest(idx);
        if !used {
          ghost var before := bitmap[..];
          BitmapSet(idx);
          FreeCountAfterSet(before, idx, totalPages);
          if freePages > 0 {
            freePages := freePages - 1;
          }
          last := idx + 1;
          addr := idx * PAGE_SIZE;
          found := true;
          assert addr / PAGE_SIZE == idx;
          return;
        }
        i := i + 1;
      }
      forall p | 0 <= p < totalPages ensures Test(bitmap[..], p) {
        var k := CycReaches(last, p, totalPages);
      }
      FreeCountAllUsed(bitmap[..], totalPages);
      addr := 0;
      found := false;
    }

    /** `phys_free_page`: an unaligned or out-of-range address is ignored; otherwise
        the page is marked free, counting it only if it was in use. */
    method PhysFreePage(addr: u32)
      requires Valid()
      modifies bitmap, this`freePages
      ensures Valid()
      ensures var idx := addr / PAGE_SIZE;
        bitmap[..] == (if addr % PAGE_SIZE == 0 && idx < totalPages then ClearBit(old(bitmap[..]), idx)
                       else old(bitmap[..]))
      ensures freePages == old(freePages) + (if addr % PAGE_SIZE == 0 && addr / PAGE_SIZE < totalPages
                                                  && Test(old(bitmap[..]), addr / PAGE_SIZE) then 1 else 0)
    {
      if addr % PAGE_SIZE != 0 {
        return;
      }
      var idx := addr / PAGE_SIZE;
      if idx >= totalPages {
        return;
      }
      var used := BitmapTest(idx);
      if used {
        ghost var before := bitmap[..];
        BitmapClear(idx);
        FreeCountAfterClear(before, idx, totalPages);
        freePages := freePages + 1;
      } else {
        assert bitmap[idx / 8] & NotBit(idx % 8) == bitmap[idx / 8];
        assert bitmap[..] == ClearBit(bitmap[..], idx);
      }
    }

    /** `memory_get_stats`: used pages are exactly the pages whose bit is set, and the
        size in KiB is four per page. */
    method GetStats() returns (s: MemoryStats)
      requires Valid()
      ensures s.totalPages == totalPages && s.freePages == FreeCount(bitmap[..], totalPages)
      ensures s.usedPages + s.freePages == s.totalPages
      ensures s.totalKb == 4 * totalPages
    {
      s := MemoryStats(totalPages, freePages, totalPages - freePages, totalPages * (PAGE_SIZE / 1024));
    }
  }

  // ---------------------------------------------------------------------------
  // The heap

  /** `kmalloc` as written: no check that `align_up` or `curr + size` stays within
      32 bits. Returns the block address (0 for none) and the new `heap_curr`. */
  function KmallocAsWritten(heapCurr: u32, heapLimit: u32, size: u32, align: u32): (u32, u32)
  {
    if size == 0 then (0, heapCurr)
    else
      var a := if align == 0 then 4 else align;
      var curr := AlignUp(heapCurr, a);
      var next := Wrap32(curr + size);
      if next > heapLimit then (0, heapCurr) else (curr, next)
  }

  /** A request for 0xFFFFFFFF bytes wraps `curr + size` to just below `heap_curr`:
      it succeeds, moves `heap_curr` backwards by one, and the next request is handed
      the same block again (with, for example, `heap_curr` = 0x100000). */
  lemma KmallocAsWrittenReturnsBlockTwice(curr: u32, limit: u32, size: u32)
    requires 0 < curr <= limit && curr % 4 == 0
    requires 0 < size && curr + size <= limit
    ensures KmallocAsWritten(curr, limit, 0xFFFF_FFFF, 4) == (curr, curr - 1)
    ensures KmallocAsWritten(curr - 1, limit, size, 4).0 == curr
  {
    KmallocHugeWraps(curr, limit);
    KmallocJustBelowAligned(curr, limit, size);
  }

  /** From one byte below a 4-aligned `heap_curr`, a request that fits is placed at
      that aligned address. */
  lemma KmallocJustBelowAligned(curr: u32, limit: u32, size: u32)
    requires 0 < curr <= limit && curr % 4 == 0
    requires 0 < size && curr + size <= limit
    ensures KmallocAsWritten(curr - 1, limit, size, 4).0 == curr
  {
    var below: u32 := curr - 1;
    assert below % 4 == 3 by {
      assert below == 4 * (curr / 4 - 1) + 3;
    }
    AlignFour(below);
    KmallocAsWrittenFits(below, limit, size, 4);
  }

  /** A non-empty request whose aligned block ends within 32 bits and at or below the
      limit is placed at the aligned address. */
  lemma KmallocAsWrittenFits(heapCurr: u32, heapLimit: u32, size: u32, align: u32)
    requires size > 0 && align > 0
    requires AlignUp(heapCurr, align) + size <= heapLimit
    ensures KmallocAsWritten(heapCurr, heapLimit, size, align)
      == (AlignUp(heapCurr, align), AlignUp(heapCurr, align) + size)
  {
  }

  /** The request for 0xFFFFFFFF bytes at an aligned `heap_curr`. */
  lemma KmallocHugeWraps(curr: u32, limit: u32)
    requires 0 < curr <= limit && curr % 4 == 0
    ensures KmallocAsWritten(curr, limit, 0xFFFF_FFFF, 4) == (curr, curr - 1)
  {
    AlignFour(curr);
    WrapOnce(curr + 0xFFFF_FFFF);
  }

  /** A sum of two 32-bit values that overflows wraps to itself minus 2^32. */
  lemma WrapOnce(x: int)
    requires U32_MOD <= x < 2 * U32_MOD
    ensures Wrap32(x) == x - U32_MOD
  {
  }

  /** `align_up(v, 4)` rounds up to the next multiple of 4 when that does not wrap. */
  lemma AlignFour(v: u32)
    requires v + 3 < U32_MOD
    ensures v % 4 == 0 ==> AlignUp(v, 4) == v
    ensures v % 4 == 3 ==> AlignUp(v, 4) == v + 1
  {
    var two := 2;
    assert Pow2(two) == 4;
    AlignUpLeast(v, two);
    var x := AlignUp(v, 4);
    LowBitsTwo(x);
    MultipleOfFourNear(v, x);
  }

  lemma MultipleOfFourNear(v: int, x: int)
    requires v <= x < v + 4 && x % 4 == 0
    ensures v % 4 == 0 ==> x == v
    ensures v % 4 == 3 ==> x == v + 1
  {
  }

  lemma LowBitsTwo(x: nat)
    ensures LowBits(x, 2) == x % 4
  {
    assert LowBits(x, 2) == x % 2 + 2 * ((x / 2) % 2 + 2 * LowBits(x / 4, 0));
  }

  datatype Block = Block(addr: nat, size: nat)

  /** Blocks lie one after another in address order and all end at or below `curr`. */
  predicate Disjoint(blocks: seq<Block>, curr: nat)
  {
    (forall i :: 0 <= i < |blocks| ==> blocks[i].addr + blocks[i].size <= curr)
    && (forall i, j :: 0 <= i < j < |blocks| ==> blocks[i].addr + blocks[i].size <= blocks[j].addr)
  }

  /** Two blocks of a disjoint history share no byte. */
  lemma DisjointBlocksShareNothing(blocks: seq<Block>, curr: nat, i: nat, j: nat, x: nat)
    requires Disjoint(blocks, curr) && i < |blocks| && j < |blocks| && i != j
    requires blocks[i].addr <= x < blocks[i].addr + blocks[i].size
    ensures !(blocks[j].addr <= x < blocks[j].addr + blocks[j].size)
  {
  }

  /** A block that starts at or above `curr` extends a disjoint history. */
  lemma DisjointAppend(blocks: seq<Block>, curr: nat, b: Block)
    requires Disjoint(blocks, curr) && curr <= b.addr
    ensures Disjoint(blocks + [b], b.addr + b.size)
  {
    var t := blocks + [b];
    forall i, j | 0 <= i < j < |t| ensures t[i].addr + t[i].size <= t[j].addr {
      if j < |blocks| {
        assert t[i] == blocks[i] && t[j] == blocks[j];
      } else {
        assert t[i] == blocks[i] && t[j] == b;
      }
    }
  }

  /** The bump allocator: `heap_curr`, `heap_limit`, and as ghost state every block
      handed out so far. */
  class Heap {
    var heapCurr: u32
    var heapLimit: u32
    ghost var blocks: seq<Block>

    ghost predicate Valid()
      reads this
    {
      Disjoint(blocks, heapCurr)
    }

    constructor (start: u32, limit: u32)
      ensures Valid() && heapCurr == start && heapLimit == limit && blocks == []
    {
      heapCurr := start;
      heapLimit := limit;
      blocks := [];
    }

    /** `kmalloc`, with the two 32-bit wrap checks the source lacks: size 0 gives 0;
        align 0 means 4; the block starts at `align_up(heap_curr, align)` and is handed
        out only if neither that rounding nor `curr + size` wraps and the end is within
        `heap_limit`. On failure nothing changes. Every block handed out is disjoint
        from all earlier ones, and a power-of-two alignment is honoured. */
    method Kmalloc(size: u32, align: u32) returns (p: u32, ghost ok: bool)
      requires Valid()
      modifies this`heapCurr, this`blocks
      ensures Valid()
      ensures var a := if align == 0 then 4 else align;
        var curr := AlignUp(old(heapCurr), a);
        ok <==> (size != 0 && old(heapCurr) <= curr && curr + size <= heapLimit)
      ensures ok ==> p == AlignUp(old(heapCurr), if align == 0 then 4 else align)
                     && heapCurr == p + size && blocks == old(blocks) + [Block(p, size)]
      ensures ok ==> forall k :: 0 <= k < 32 && Pow2(k) == align ==> LowBits(p, k) == 0
      ensures !ok ==> p == 0 && heapCurr == old(heapCurr) && blocks == old(blocks)
      ensures old(heapCurr) <= heapCurr
    {
      ok := false;
      p := 0;
      if size == 0 {
        return;
      }
      var a := align;
      if a == 0 {
        a := 4;
      }
      var curr := AlignUp(heapCurr, a);
      if curr < heapCurr || curr + size > 0xFFFF_FFFF {
        return;
      }
      var next := curr + size;
      if next > heapLimit {
        return;
      }
      forall k | 0 <= k < 32 && Pow2(k) == align ensures LowBits(curr, k) == 0 {
        // had `heap_curr + align - 1` wrapped, `curr` would lie below `heap_curr`
        assert heapCurr + Pow2(k) - 1 < 0x1_0000_0000;
        AlignUpLeast(heapCurr, k);
      }
      DisjointAppend(blocks, heapCurr, Block(curr, size));
      blocks := blocks + [Block(curr, size)];
      heapCurr := next;
      p := curr;
      ok := true;
    }
  }
}
