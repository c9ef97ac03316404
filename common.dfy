/** Helpers shared by every module: an Option type and the little-endian,
    fixed-width integer conventions of a 32-bit x86 kernel. */
module Common {

  datatype Option<T> = None | Some(value: T)

  /** 2^32: C's uint32_t arithmetic is arithmetic modulo this number. */
  const U32_MOD: int := 0x1_0000_0000

  /** A value a C `uint32_t` can hold, for quantities the model does arithmetic on. */
  type u32 = x: int | 0 <= x < 0x1_0000_0000

  /** A value a C `uint8_t` holds, for quantities the model does arithmetic on. */
  type u8 = x: int | 0 <= x < 0x100

  /** The value a C `uint32_t` holds after an assignment of the mathematical value `x`. */
  function Wrap32(x: int): (r: nat)
    ensures r < U32_MOD
    ensures 0 <= x < U32_MOD ==> r == x
  {
    x % U32_MOD
  }

  /** A little-endian 16-bit value assembled from two bytes. */
  function Le16(lo: bv8, hi: bv8): (r: bv16)
    ensures (r & 0xFF) as bv8 == lo && (r >> 8) as bv8 == hi
  {
    (lo as bv16) | ((hi as bv16) << 8)
  }

  /** A little-endian 32-bit value assembled from four bytes. */
  function Le32(b0: bv8, b1: bv8, b2: bv8, b3: bv8): (r: bv32)
    ensures (r & 0xFF) as bv8 == b0 && ((r >> 8) & 0xFF) as bv8 == b1
    ensures ((r >> 16) & 0xFF) as bv8 == b2 && (r >> 24) as bv8 == b3
  {
    (b0 as bv32) | ((b1 as bv32) << 8) | ((b2 as bv32) << 16) | ((b3 as bv32) << 24)
  }

  /** Byte `k` (0 = least significant) of a 32-bit word, as stored in memory on x86. */
  function ByteOf(w: bv32, k: bv8): (b: bv8)
    requires k < 4
  {
    if k == 0 then (w & 0xFF) as bv8
    else if k == 1 then ((w >> 8) & 0xFF) as bv8
    else if k == 2 then ((w >> 16) & 0xFF) as bv8
    else (w >> 24) as bv8
  }

  /** Splitting a word into its four memory bytes and reassembling them gives the word back. */
  lemma Le32OfBytes(w: bv32)
    ensures Le32(ByteOf(w, 0), ByteOf(w, 1), ByteOf(w, 2), ByteOf(w, 3)) == w
  {
  }

  /** Sequence concatenation is associative (stated once so that callers need not
      re-derive it by extensionality on large terms). */
  lemma ConcatAssoc<T>(a: seq<T>, b: seq<T>, c: seq<T>)
    ensures a + (b + c) == (a + b) + c
  {
  }

  /** Appending single elements one by one builds the same sequence as appending
      them as one display. */
  lemma AppendFour<T>(p: seq<T>, a: T, b: T, c: T, d: T)
    ensures p + [a] + [b] + [c] + [d] == p + [a, b, c, d]
  {
  }

  lemma AppendSix<T>(p: seq<T>, a: T, b: T, c: T, d: T, e: T, f: T)
    ensures p + [a] + [b] + [c] + [d] + [e] + [f] == p + [a, b, c, d, e, f]
  {
  }

  /** Regrouping a five-part concatenation. */
  lemma RegroupFive<T>(a: seq<T>, b: seq<T>, c: seq<T>, d: seq<T>, e: seq<T>)
    ensures a + b + c + d + e == a + (b + (c + d + e))
  {
  }

  /** Taking one more element. */
  lemma TakeStep<T>(s: seq<T>, k: nat)
    requires k < |s|
    ensures s[..k + 1] == s[..k] + [s[k]]
  {
  }

  /** Extending a taken prefix by one element. */
  lemma TakeOneMore<T>(p: seq<T>, s: seq<T>, k: nat)
    requires k < |s|
    ensures p + s[..k + 1] == (p + s[..k]) + [s[k]]
  {
    assert s[..k + 1] == s[..k] + [s[k]];
  }

  /** C's `(int8_t)b`: the byte read as a two's-complement signed value. */
  function SignedByte(b: bv8): (r: int)
    ensures -128 <= r < 128
    ensures (r - b as int) % 256 == 0
  {
    if b < 0x80 then b as int else b as int - 256
  }

  /** The byte values that read as -2, 5 and -128. */
  lemma SignedByteExamples()
    ensures SignedByte(0xFE) == -2 && SignedByte(0x05) == 5 && SignedByte(0x80) == -128
  {
  }
}
