/** The string helpers, the CPU name and the periodic tasks of src/kernel.c. Its
    `str_copy` is `CStr.StrCopy`. The `cpuid` instruction is not modelled: the
    register values it returns are the parameters of `FillCpuString`. */
module Kernel {
  import opened Common
  import opened CStr

  /** `s` without its trailing spaces. */
  function TrimRight(s: seq<char>): (t: seq<char>)
    ensures |t| <= |s|
  {
    if s != [] && s[|s| - 1] == ' ' then TrimRight(s[..|s| - 1]) else s
  }

  /** Trimming keeps a prefix that does not end in a space, and only spaces are
      cut off. */
  lemma {:induction false} TrimRightSpec(s: seq<char>)
    ensures TrimRight(s) == s[..|TrimRight(s)|]
    ensures TrimRight(s) == [] || TrimRight(s)[|TrimRight(s)| - 1] != ' '
    ensures forall k :: |TrimRight(s)| <= k < |s| ==> s[k] == ' '
  {
    if s != [] && s[|s| - 1] == ' ' {
      TrimRightSpec(s[..|s| - 1]);
      assert s[..|s| - 1][..|TrimRight(s)|] == s[..|TrimRight(s)|];
    }
  }

  /** Trimming is determined by that: a string that does not end in a space,
      followed by spaces, trims to that string. */
  lemma {:induction false} TrimRightUnique(t: seq<char>, n: nat)
    requires t == [] || t[|t| - 1] != ' '
    ensures TrimRight(t + seq(n, _ => ' ')) == t
  {
    if n > 0 {
      var s := t + seq(n, _ => ' ');
      assert s[..|s| - 1] == t + seq(n - 1, _ => ' ');
      TrimRightUnique(t, n - 1);
    } else {
      assert t + seq(0, _ => ' ') == t;
    }
  }

  /** Trimming twice trims no more. */
  lemma TrimRightIdempotent(s: seq<char>)
    ensures TrimRight(TrimRight(s)) == TrimRight(s)
  {
    TrimRightSpec(s);
  }

  /** `n` NUL characters. */
  function Nuls(n: nat): (z: seq<char>)
    ensures |z| == n && forall k :: 0 <= k < n ==> z[k] == '\0'
  {
    seq(n, _ => '\0')
  }

  /** What `str_trim_right` leaves in a buffer holding `buf`: every trailing space
      of its C string is overwritten with a NUL, and nothing else changes. */
  function Trimmed(buf: seq<char>): (r: seq<char>)
  {
    var p := Prefix(buf);
    var t := TrimRight(p);
    t + Nuls(|p| - |t|) + buf[|p|..]
  }

  /** After `str_trim_right` the buffer is as long as before and holds the
      trimmed C string. */
  lemma TrimmedString(buf: seq<char>)
    requires '\0' in buf
    ensures |Trimmed(buf)| == |buf|
    ensures Prefix(Trimmed(buf)) == TrimRight(Prefix(buf))
  {
    var p := Prefix(buf);
    PrefixEndsAtNul(buf);
    var t := TrimRight(p);
    TrimRightSpec(p);
    assert '\0' !in t by {
      assert forall k :: 0 <= k < |t| ==> t[k] == p[k];
    }
    var z := Nuls(|p| - |t|);
    if |z| > 0 {
      assert Trimmed(buf) == t + ['\0'] + (z[1..] + buf[|p|..]);
    } else {
      assert Trimmed(buf) == t + ['\0'] + buf[|p| + 1..];
    }
    PrefixOfTerminated(t, if |z| > 0 then z[1..] + buf[|p|..] else buf[|p| + 1..]);
  }

  /** One trailing space less trims to the same string. */
  lemma TrimStep(p: seq<char>, len: nat)
    requires 0 < len <= |p| && p[len - 1] == ' '
    ensures TrimRight(p[..len - 1]) == TrimRight(p[..len])
  {
    assert p[..len][..len - 1] == p[..len - 1];
  }

  /** Once the last character is not a space, what is left is the trimmed string. */
  lemma TrimDone(p: seq<char>, len: nat)
    requires len <= |p| && TrimRight(p[..len]) == TrimRight(p)
    requires len == 0 || p[len - 1] != ' '
    ensures TrimRight(p) == p[..len]
  {
    var q := p[..len];
    assert |q| == len && (q == [] || q[|q| - 1] != ' ');
    assert TrimRight(q) == q;
  }

  /** Overwriting the last kept character with a NUL. */
  lemma BlankLast(p: seq<char>, len: nat, n: nat, rest: seq<char>)
    requires 0 < len <= |p|
    ensures (p[..len] + Nuls(n) + rest)[len - 1 := '\0'] == p[..len - 1] + Nuls(n + 1) + rest
  {
    assert p[..len] == p[..len - 1] + [p[len - 1]];
    assert Nuls(n + 1) == ['\0'] + Nuls(n);
  }

  /** `str_trim_right`: nothing for null; otherwise the trailing spaces of the C
      string become NULs, from the last one back. */
  method StrTrimRight(s: array?<char>)
    requires s != null ==> '\0' in s[..]
    modifies s
    ensures s != null ==> s[..] == Trimmed(old(s[..]))
  {
    if s == null {
      return;
    }
    var len := StrLen(s);
    ghost var buf := s[..];
    ghost var p := Prefix(buf);
    PrefixEndsAtNul(buf);
    assert p[..len] == p;
    assert buf == p[..len] + Nuls(0) + buf[|p|..];
    while len > 0 && s[len - 1] == ' '
      invariant len <= |p| && TrimRight(p[..len]) == TrimRight(p)
      invariant s[..] == p[..len] + Nuls(|p| - len) + buf[|p|..]
    {
      assert s[len - 1] == p[len - 1];
      TrimStep(p, len);
      BlankLast(p, len, |p| - len, buf[|p|..]);
      s[len - 1] := '\0';
      len := len - 1;
    }
    assert len > 0 ==> s[len - 1] == p[len - 1];
    TrimDone(p, len);
  }

  /** The character of a byte. */
  function ByteChar(b: bv8): char
  {
    (b as int) as char
  }

  /** A 32-bit register stored to memory, as four characters, low byte first. */
  function WordChars(w: bv32): (s: seq<char>)
    ensures |s| == 4
  {
    [ByteChar(ByteOf(w, 0)), ByteChar(ByteOf(w, 1)), ByteChar(ByteOf(w, 2)), ByteChar(ByteOf(w, 3))]
  }

  /** Registers stored one after another. */
  function WordsChars(ws: seq<bv32>): (s: seq<char>)
    ensures |s| == 4 * |ws|
  {
    if ws == [] then [] else WordChars(ws[0]) + WordsChars(ws[1..])
  }

  /** What `cpuid` reports: EBX, EDX and ECX of leaf 0 (the vendor id), EAX of
      leaf 0x80000000 (the highest extended leaf) and the twelve registers
      EAX, EBX, ECX, EDX of leaves 0x80000002 to 0x80000004 (the brand string). */
  datatype CpuId = CpuId(ebx: bv32, edx: bv32, ecx: bv32, maxExt: u32, brand: seq<bv32>)

  /** The lowest highest-extended-leaf value with the brand string leaves. */
  const BRAND_LEAF: u32 := 0x8000_0004

  /** The CPU name `fill_cpu_string` chooses: the brand string without trailing
      spaces when the brand leaves exist, otherwise the vendor id; either of them
      ends at its first NUL byte. */
  function CpuName(id: CpuId): (s: seq<char>)
    requires |id.brand| == 12
  {
    if id.maxExt >= BRAND_LEAF then TrimRight(Prefix(WordsChars(id.brand)))
    else Prefix(WordsChars([id.ebx, id.edx, id.ecx]))
  }

  /** The name holds no NUL; a brand name does not end in a space and is the
      start of the brand string. */
  lemma CpuNameShape(id: CpuId)
    requires |id.brand| == 12
    ensures '\0' !in CpuName(id) && |CpuName(id)| <= 48
    ensures id.maxExt >= BRAND_LEAF ==> (CpuName(id) <= WordsChars(id.brand)
      && (CpuName(id) == [] || CpuName(id)[|CpuName(id)| - 1] != ' '))
    ensures id.maxExt < BRAND_LEAF ==> |CpuName(id)| <= 12
  {
    var b := WordsChars(id.brand);
    PrefixEndsAtNul(b);
    PrefixEndsAtNul(WordsChars([id.ebx, id.edx, id.ecx]));
    var t := TrimRight(Prefix(b));
    TrimRightSpec(Prefix(b));
    assert forall k :: 0 <= k < |t| ==> t[k] == Prefix(b)[k] == b[k];
  }

  /** The vendor id is the registers' bytes in the order EBX, EDX, ECX: the
      registers of a "GenuineIntel" processor give that name. */
  lemma GenuineIntel(maxExt: u32, brand: seq<bv32>)
    requires |brand| == 12 && maxExt < BRAND_LEAF
    ensures CpuName(CpuId(0x756E_6547, 0x4965_6E69, 0x6C65_746E, maxExt, brand)) == "GenuineIntel"
  {
    var w := WordsChars([0x756E_6547, 0x4965_6E69, 0x6C65_746E]);
    VendorChars();
    assert '\0' !in w;
    PrefixEndsAtNul(w);
  }

  /** The bytes of the three vendor registers of an Intel processor. */
  lemma VendorChars()
    ensures WordsChars([0x756E_6547, 0x4965_6E69, 0x6C65_746E]) == "GenuineIntel"
  {
    WordChars4(0x756E_6547, 0x47, 0x65, 0x6E, 0x75);
    WordChars4(0x4965_6E69, 0x69, 0x6E, 0x65, 0x49);
    WordChars4(0x6C65_746E, 0x6E, 0x74, 0x65, 0x6C);
    ThreeWords(0x756E_6547, 0x4965_6E69, 0x6C65_746E);
  }

  /** Three registers stored one after another. */
  lemma ThreeWords(a: bv32, b: bv32, c: bv32)
    ensures WordsChars([a, b, c]) == WordChars(a) + WordChars(b) + WordChars(c)
  {
    assert [c][1..] == [];
    assert WordsChars([c]) == WordChars(c) + [];
    assert [b, c][1..] == [c];
    assert WordsChars([b, c]) == WordChars(b) + WordChars(c);
    assert [a, b, c][1..] == [b, c];
  }

  /** A word assembled from four bytes stores them low byte first. */
  lemma WordChars4(w: bv32, b0: bv8, b1: bv8, b2: bv8, b3: bv8)
    requires w == Le32(b0, b1, b2, b3)
    ensures WordChars(w) == [ByteChar(b0), ByteChar(b1), ByteChar(b2), ByteChar(b3)]
  {
  }

  /** `fill_cpu_string`: nothing for a null buffer or max_len 0; otherwise the
      buffer holds the CPU name as `str_copy` leaves it. */
  method FillCpuString(out: array?<char>, maxLen: u32, id: CpuId)
    requires |id.brand| == 12
    requires out != null && maxLen > 0 ==> maxLen <= out.Length
    modifies out
    ensures out == null || maxLen == 0 ==> out == null || out[..] == old(out[..])
    ensures out != null && maxLen > 0 ==> out[..] == Copied(old(out[..]), CpuName(id), maxLen)
  {
    if out == null || maxLen == 0 {
      return;
    }
    ghost var buf := out[..];
    out[0] := '\0';
    CopiedIgnoresFirst(buf, CpuName(id), maxLen, '\0');
    CpuNameShape(id);
    var name: array<char>;
    if id.maxExt >= BRAND_LEAF {
      name := BrandBuffer(id.brand);
    } else {
      name := VendorBuffer(id.ebx, id.edx, id.ecx);
    }
    StrCopy(out, Some(Prefix(name[..])), maxLen);
  }

  /** The 49-byte buffer of `fill_cpu_string` after the twelve brand registers are
      copied in, terminated and trimmed: it holds the brand name. */
  method BrandBuffer(brand: seq<bv32>) returns (brandBuf: array<char>)
    requires |brand| == 12
    ensures fresh(brandBuf) && brandBuf.Length == 49
    ensures Prefix(brandBuf[..]) == TrimRight(Prefix(WordsChars(brand)))
  {
    var chars := WordsChars(brand);
    brandBuf := new char[49];
    for i := 0 to 48
      invariant brandBuf[..i] == chars[..i]
    {
      brandBuf[i] := chars[i];
      TakeStep(brandBuf[..], i);
      TakeStep(chars, i);
    }
    brandBuf[48] := '\0';
    assert brandBuf[..] == chars + ['\0'] by {
      assert brandBuf[..48] == chars;
    }
    ghost var raw := brandBuf[..];
    StrTrimRight(brandBuf);
    TrimmedString(raw);
    PrefixThroughNul(chars, []);
    assert chars + ['\0'] + [] == chars + ['\0'];
  }

  /** The 13-byte vendor buffer: EBX, EDX and ECX stored in that order and a NUL. */
  method VendorBuffer(ebx: bv32, edx: bv32, ecx: bv32) returns (vendor: array<char>)
    ensures fresh(vendor) && vendor.Length == 13
    ensures Prefix(vendor[..]) == Prefix(WordsChars([ebx, edx, ecx]))
  {
    var words := WordsChars([ebx, edx, ecx]);
    vendor := new char[13](k => if k < 12 then words[k] else '\0');
    assert vendor[..] == words + ['\0'] + [];
    PrefixThroughNul(words, []);
  }

  /** The counters of `usb_task` and `ui_task` and the calls they make, which
      are counted rather than performed. */
  class Tasks {
    var usbDiv: u32
    var usbPolls: nat
    var frameDiv: u32
    var updates: nat
    var renders: nat

    /** The static counters start at zero. */
    constructor ()
      ensures usbDiv == 0 && usbPolls == 0 && frameDiv == 0 && updates == 0 && renders == 0
    {
      usbDiv := 0;
      usbPolls := 0;
      frameDiv := 0;
      updates := 0;
      renders := 0;
    }

    /** `usb_task`: the counter advances, and `usb_poll` runs when its low three
        bits are zero, i.e. when it is a multiple of 8. */
    method UsbTask()
      modifies this`usbDiv, this`usbPolls
      ensures usbDiv == Wrap32(old(usbDiv) + 1)
      ensures usbPolls == old(usbPolls) + if usbDiv % 8 == 0 then 1 else 0
    {
      usbDiv := Wrap32(usbDiv + 1);
      if usbDiv % 8 == 0 {
        usbPolls := usbPolls + 1;
      }
    }

    /** `ui_task`: `ui_update` on every call; the counter advances, and
        `ui_render` with `fb_blit` run when it is even. */
    method UiTask()
      modifies this`frameDiv, this`updates, this`renders
      ensures updates == old(updates) + 1
      ensures frameDiv == Wrap32(old(frameDiv) + 1)
      ensures renders == old(renders) + if frameDiv % 2 == 0 then 1 else 0
    {
      updates := updates + 1;
      frameDiv := Wrap32(frameDiv + 1);
      if frameDiv % 2 == 0 {
        renders := renders + 1;
      }
    }
  }

  /** The counter after `k` calls from zero. */
  function CounterAfter(k: nat): (d: u32)
  {
    if k == 0 then 0 else Wrap32(CounterAfter(k - 1) + 1)
  }

  /** The counter is the number of calls modulo 2^32. */
  lemma {:induction false} CounterAfterIsWrapped(k: nat)
    ensures CounterAfter(k) == Wrap32(k)
  {
    if k > 0 {
      CounterAfterIsWrapped(k - 1);
      WrapSucc(k - 1);
    }
  }

  /** Wrapping commutes with one increment. */
  lemma WrapSucc(k: nat)
    ensures Wrap32(Wrap32(k) + 1) == Wrap32(k + 1)
  {
  }

  /** The counter wraps at a multiple of 8, so the k-th call of `usb_task` polls
      exactly when k is a multiple of 8, forever. */
  lemma UsbPollsEveryEighth(k: nat)
    requires k > 0
    ensures CounterAfter(k) % 8 == 0 <==> k % 8 == 0
  {
    CounterAfterIsWrapped(k);
    WrapKeepsLowBits(k);
  }

  /** The k-th call of `ui_task` renders exactly when k is even. */
  lemma UiRendersEverySecond(k: nat)
    requires k > 0
    ensures CounterAfter(k) % 2 == 0 <==> k % 2 == 0
  {
    CounterAfterIsWrapped(k);
    WrapKeepsLowBits(k);
  }

  /** 2^32 is a multiple of 8, so wrapping keeps the three low bits. */
  lemma WrapKeepsLowBits(k: nat)
    ensures Wrap32(k) % 8 == k % 8 && Wrap32(k) % 2 == k % 2
  {
    var q := k / U32_MOD;
    var r := k % U32_MOD;
    assert k == 8 * (q * 0x2000_0000) + r;
  }
}
