/** NUL-terminated strings in fixed-size character buffers, as the bounded string
    helpers of src/app_settings.c and src/kernel.c handle them. A `const char *`
    argument is given by the characters before its NUL (`None` for a null
    pointer), and `At` reads it the way C does, the NUL included; a destination
    buffer is an `array?<char>`, `null` for a null pointer. */
module CStr {
  import opened Common

  /** The C string a buffer holds: its characters before the first NUL. */
  function Prefix(s: seq<char>): (p: seq<char>)
    ensures |p| <= |s|
  {
    if s == [] || s[0] == '\0' then [] else [s[0]] + Prefix(s[1..])
  }

  /** The C string is a part of the buffer without a NUL, and it ends at the first
      NUL when there is one. */
  lemma {:induction false} PrefixEndsAtNul(s: seq<char>)
    ensures Prefix(s) <= s && '\0' !in Prefix(s)
    ensures |Prefix(s)| < |s| ==> s[|Prefix(s)|] == '\0'
    ensures '\0' in s ==> |Prefix(s)| < |s|
  {
    if s != [] && s[0] != '\0' {
      PrefixEndsAtNul(s[1..]);
      assert '\0' in s ==> '\0' in s[1..] by {
        if '\0' in s {
          var k :| 0 <= k < |s| && s[k] == '\0';
          assert s[1..][k - 1] == '\0';
        }
      }
    }
  }

  /** A prefix that stops at a NUL is the C string. */
  lemma {:induction false} PrefixOfTerminated(p: seq<char>, rest: seq<char>)
    requires '\0' !in p
    ensures Prefix(p + ['\0'] + rest) == p
  {
    if p != [] {
      assert (p + ['\0'] + rest)[1..] == p[1..] + ['\0'] + rest;
      PrefixOfTerminated(p[1..], rest);
    }
  }

  /** A NUL ends the C string whatever comes before or after it. */
  lemma {:induction false} PrefixThroughNul(p: seq<char>, rest: seq<char>)
    ensures Prefix(p + ['\0'] + rest) == Prefix(p)
  {
    if p != [] && p[0] != '\0' {
      assert (p + ['\0'] + rest)[1..] == p[1..] + ['\0'] + rest;
      PrefixThroughNul(p[1..], rest);
    }
  }

  /** Character `i` of the C string whose characters are `s`: its terminator at `|s|`. */
  function At(s: seq<char>, i: nat): (c: char)
    requires i <= |s|
    ensures c == '\0' <==> i == |s| || s[i] == '\0'
  {
    if i < |s| then s[i] else '\0'
  }

  /** The first `n` characters of `s`, or all of them. */
  function Take(s: seq<char>, n: int): (t: seq<char>)
    ensures |t| == if n < 0 then 0 else if n < |s| then n else |s|
    ensures forall k :: 0 <= k < |t| ==> t[k] == s[k]
  {
    if n <= 0 then [] else if n < |s| then s[..n] else s
  }

  /** Overwriting the character just past `x` in `x + y`. */
  lemma ReplaceAt(x: seq<char>, y: seq<char>, c: char)
    requires |y| > 0
    ensures (x + y)[|x| := c] == (x + [c]) + y[1..]
  {
  }

  /** Writing the terminator just past the copied characters. */
  lemma Terminate(buf: seq<char>, start: nat, t: seq<char>, cur: seq<char>)
    requires start + |t| < |buf| && cur == buf[..start] + t + buf[start + |t|..]
    ensures cur[start + |t| := '\0'] == buf[..start] + t + ['\0'] + buf[start + |t| + 1..]
  {
    ReplaceAt(buf[..start] + t, buf[start + |t|..], '\0');
    assert buf[start + |t|..][1..] == buf[start + |t| + 1..];
  }

  /** `str_len`: the number of characters before the first NUL, 0 for null. */
  method StrLen(s: array?<char>) returns (len: nat)
    requires s != null ==> '\0' in s[..]
    ensures s == null ==> len == 0
    ensures s != null ==> len == |Prefix(s[..])| && len < s.Length && s[len] == '\0'
  {
    len := 0;
    if s == null {
      return;
    }
    ghost var p := Prefix(s[..]);
    PrefixEndsAtNul(s[..]);
    while s[len] != '\0'
      invariant len <= |p| && s[..len] == p[..len]
      decreases |p| - len
    {
      assert s[..len + 1] == s[..len] + [s[len]];
      if len == |p| {
        assert false;
      }
      len := len + 1;
    }
  }

  /** The copying loop `str_copy` and `str_append` share: characters of `s` go to
      `dst` from index `start` on until the NUL, or until only the place for the
      terminator below max_len is left. */
  method CopyChars(dst: array<char>, s: seq<char>, start: nat, maxLen: nat) returns (len: nat)
    requires start < dst.Length && maxLen <= dst.Length && '\0' !in s
    modifies dst
    ensures len == start + |Take(s, maxLen - 1 - start)| && len < dst.Length
    ensures dst[..] == old(dst[..])[..start] + Take(s, maxLen - 1 - start) + old(dst[..])[len..]
  {
    ghost var buf := dst[..];
    ghost var d := buf[..start];
    len := start;
    var i := 0;
    while len + 1 < maxLen && At(s, i) != '\0'
      invariant len == start + i && i <= |s| && len < dst.Length
      invariant i > 0 ==> len < maxLen
      invariant dst[..] == d + s[..i] + buf[len..]
    {
      dst[len] := At(s, i);
      ReplaceAt(d + s[..i], buf[len..], s[i]);
      assert s[..i + 1] == s[..i] + [s[i]];
      len := len + 1;
      i := i + 1;
    }
    assert i < |s| ==> s[i] in s;
  }

  /** What `str_copy(dst, src, max_len)` leaves in a buffer holding `buf`: the first
      max_len-1 characters of `src`, a NUL, and the rest of `buf`. */
  function Copied(buf: seq<char>, src: seq<char>, maxLen: nat): (r: seq<char>)
    requires 0 < maxLen <= |buf|
    ensures |r| == |buf|
  {
    var t := Take(src, maxLen - 1);
    t + ['\0'] + buf[|t| + 1..]
  }

  /** The copy holds the source string cut to at most max_len-1 characters, and
      nothing from max_len on changes. */
  lemma CopiedString(buf: seq<char>, src: seq<char>, maxLen: nat)
    requires 0 < maxLen <= |buf| && '\0' !in src
    ensures Prefix(Copied(buf, src, maxLen)) == Take(src, maxLen - 1)
    ensures |Prefix(Copied(buf, src, maxLen))| < maxLen
    ensures Copied(buf, src, maxLen)[maxLen..] == buf[maxLen..]
  {
    var t := Take(src, maxLen - 1);
    assert '\0' !in t by {
      assert forall k :: 0 <= k < |t| ==> t[k] == src[k];
    }
    PrefixOfTerminated(t, buf[|t| + 1..]);
  }

  /** `str_copy` (both copies, in src/app_settings.c and src/kernel.c): a null
      argument or max_len 0 writes nothing; otherwise the buffer becomes `Copied`. */
  method StrCopy(dst: array?<char>, src: Option<seq<char>>, maxLen: u32)
    requires dst != null && src.Some? && maxLen > 0 ==> maxLen <= dst.Length && '\0' !in src.value
    modifies dst
    ensures dst == null || src.None? || maxLen == 0 ==> dst == null || dst[..] == old(dst[..])
    ensures dst != null && src.Some? && maxLen > 0 ==> dst[..] == Copied(old(dst[..]), src.value, maxLen)
  {
    if dst == null || src.None? || maxLen == 0 {
      return;
    }
    ghost var buf := dst[..];
    var len := CopyChars(dst, src.value, 0, maxLen);
    ghost var cur := dst[..];
    dst[len] := '\0';
    Terminate(buf, 0, Take(src.value, maxLen - 1), cur);
    assert buf[..0] + Take(src.value, maxLen - 1) == Take(src.value, maxLen - 1);
  }

  /** What `str_append(dst, src, max_len)` leaves: dst's string followed by as much
      of `src` as keeps the whole within max_len-1 characters, then a NUL. A string
      already that long gets its own NUL rewritten in place. */
  function Appended(buf: seq<char>, src: seq<char>, maxLen: nat): (r: seq<char>)
    requires '\0' in buf && maxLen <= |buf|
    ensures |r| == |buf|
  {
    var d := Prefix(buf);
    PrefixEndsAtNul(buf);
    var a := Take(src, maxLen - 1 - |d|);
    d + a + ['\0'] + buf[|d| + |a| + 1..]
  }

  /** `Appended` spelt out around the position of the old terminator. */
  lemma AppendedAt(buf: seq<char>, src: seq<char>, maxLen: nat)
    requires '\0' in buf && maxLen <= |buf|
    ensures var start := |Prefix(buf)|; var t := Take(src, maxLen - 1 - start);
      start + |t| < |buf| && Appended(buf, src, maxLen) == buf[..start] + t + ['\0'] + buf[start + |t| + 1..]
  {
    PrefixEndsAtNul(buf);
  }

  /** The appended string is the concatenation, cut so that it stays within
      max_len-1 characters. */
  lemma AppendedString(buf: seq<char>, src: seq<char>, maxLen: nat)
    requires '\0' in buf && maxLen <= |buf| && '\0' !in src
    ensures Prefix(Appended(buf, src, maxLen))
      == Prefix(buf) + Take(src, maxLen - 1 - |Prefix(buf)|)
    ensures |Prefix(buf)| < maxLen ==> |Prefix(Appended(buf, src, maxLen))| < maxLen
  {
    var d := Prefix(buf);
    PrefixEndsAtNul(buf);
    var a := Take(src, maxLen - 1 - |d|);
    assert '\0' !in d + a by {
      assert forall k :: 0 <= k < |a| ==> a[k] == src[k];
    }
    var rest := buf[|d| + |a| + 1..];
    var r := Appended(buf, src, maxLen);
    assert r == d + a + ['\0'] + rest;
    PrefixOfTerminated(d + a, rest);
    assert Prefix(r) == d + a;
  }

  /** `str_append`: a null argument or max_len 0 writes nothing; otherwise the
      buffer becomes `Appended`. */
  method StrAppend(dst: array?<char>, src: Option<seq<char>>, maxLen: u32)
    requires dst != null && src.Some? && maxLen > 0 ==> maxLen <= dst.Length && '\0' in dst[..] && '\0' !in src.value
    modifies dst
    ensures dst == null || src.None? || maxLen == 0 ==> dst == null || dst[..] == old(dst[..])
    ensures dst != null && src.Some? && maxLen > 0 ==> dst[..] == Appended(old(dst[..]), src.value, maxLen)
  {
    if dst == null || src.None? || maxLen == 0 {
      return;
    }
    ghost var buf := dst[..];
    var start := StrLen(dst);
    var len := CopyChars(dst, src.value, start, maxLen);
    AppendTerminated(buf, src.value, maxLen, start, len, dst[..]);
    dst[len] := '\0';
  }

  /** The buffer after the copy, with a terminator after the copied characters,
      is the appended string. */
  lemma AppendTerminated(buf: seq<char>, src: seq<char>, maxLen: nat, start: nat, len: nat, cur: seq<char>)
    requires '\0' in buf && maxLen <= |buf| && start == |Prefix(buf)|
    requires len == start + |Take(src, maxLen - 1 - start)| && len < |buf|
    requires cur == buf[..start] + Take(src, maxLen - 1 - start) + buf[len..]
    ensures len < |cur| && cur[len := '\0'] == Appended(buf, src, maxLen)
  {
    Terminate(buf, start, Take(src, maxLen - 1 - start), cur);
    AppendedAt(buf, src, maxLen);
  }

  /** Cutting a concatenation is cutting the first part, then the second in the
      room that is left. */
  lemma TakeConcat(a: seq<char>, b: seq<char>, n: int)
    ensures Take(a, n) + Take(b, n - |Take(a, n)|) == Take(a + b, n)
  {
    var ta := Take(a, n);
    var tb := Take(b, n - |ta|);
    var t := Take(a + b, n);
    assert |ta + tb| == |t|;
    forall k | 0 <= k < |t|
      ensures (ta + tb)[k] == t[k]
    {
      if k < |ta| {
        assert (ta + tb)[k] == a[k];
      } else {
        assert (ta + tb)[k] == b[k - |ta|];
      }
    }
  }

  /** Appending to an emptied buffer is copying. */
  lemma AppendToEmpty(buf: seq<char>, src: seq<char>, maxLen: nat)
    requires 0 < maxLen <= |buf| && buf[0] == '\0'
    ensures Appended(buf, src, maxLen) == Copied(buf, src, maxLen)
  {
    assert Prefix(buf) == [];
  }

  /** Appending to a copy is copying the concatenation. */
  lemma AppendAfterCopy(buf: seq<char>, a: seq<char>, b: seq<char>, maxLen: nat)
    requires 0 < maxLen <= |buf| && '\0' !in a
    ensures '\0' in Copied(buf, a, maxLen)
    ensures Appended(Copied(buf, a, maxLen), b, maxLen) == Copied(buf, a + b, maxLen)
  {
    var c := Copied(buf, a, maxLen);
    var ta := Take(a, maxLen - 1);
    var tb := Take(b, maxLen - 1 - |ta|);
    TakeConcat(a, b, maxLen - 1);
    CopiedParts(buf, a, maxLen, |ta| + |tb| + 1);
    CopiedString(buf, a, maxLen);
    AppendedAfter(c, b, maxLen, ta);
    var t := Take(a + b, maxLen - 1);
    var rest := buf[|t| + 1..];
    var head := c[..|ta|];
    var tail := c[|ta| + |tb| + 1..];
    assert head == ta && tail == rest && ta + tb == t;
    assert head + tb + ['\0'] + tail == t + ['\0'] + rest;
  }

  /** `Appended` when the string already in the buffer is `p`. */
  lemma AppendedAfter(buf: seq<char>, src: seq<char>, maxLen: nat, p: seq<char>)
    requires '\0' in buf && maxLen <= |buf| && |Prefix(buf)| == |p|
    ensures var t := Take(src, maxLen - 1 - |p|);
      |p| + |t| < |buf| && Appended(buf, src, maxLen) == buf[..|p|] + t + ['\0'] + buf[|p| + |t| + 1..]
  {
    AppendedAt(buf, src, maxLen);
  }

  /** The copy starts with the copied string and ends with the buffer from past
      its terminator on. */
  lemma CopiedParts(buf: seq<char>, src: seq<char>, maxLen: nat, j: nat)
    requires 0 < maxLen <= |buf|
    requires |Take(src, maxLen - 1)| < j <= |buf|
    ensures var t := Take(src, maxLen - 1);
      Copied(buf, src, maxLen)[..|t|] == t && Copied(buf, src, maxLen)[|t|] == '\0'
      && Copied(buf, src, maxLen)[j..] == buf[j..]
  {
  }

  /** A buffer whose first character was overwritten copies like the original. */
  lemma CopiedIgnoresFirst(buf: seq<char>, src: seq<char>, maxLen: nat, c: char)
    requires 0 < maxLen <= |buf|
    ensures Copied(buf[0 := c], src, maxLen) == Copied(buf, src, maxLen)
  {
    var t := Take(src, maxLen - 1);
    assert buf[0 := c][|t| + 1..] == buf[|t| + 1..];
  }
}
