/** The settings window of src/app_settings.c: number formatting into bounded
    character buffers and the theme swatch hit test. Its `str_len`, `str_copy`
    and `str_append` are `CStr.StrLen`, `CStr.StrCopy` and `CStr.StrAppend`. */
module AppSettings {
  import opened Common
  import opened Decimal
  import opened CStr
  import opened Framebuffer
  import opened UiTypes

  /** Decimal digits hold no NUL. */
  lemma DigitsNoNul(n: nat)
    ensures '\0' !in Digits(n)
  {
    var s := Digits(n);
    assert forall k :: 0 <= k < |s| ==> s[k] != '\0';
  }

  /** `u32_to_dec`: a null buffer or max_len 0 writes nothing; otherwise the
      buffer holds the digits of `value`, cut to max_len-1 characters, as
      `str_copy` of the digit string would leave it. */
  method U32ToDec(value: u32, out: array?<char>, maxLen: u32)
    requires out != null && maxLen > 0 ==> maxLen <= out.Length
    modifies out
    ensures out == null || maxLen == 0 ==> out == null || out[..] == old(out[..])
    ensures out != null && maxLen > 0 ==> out[..] == Copied(old(out[..]), Digits(value), maxLen)
  {
    if out == null || maxLen == 0 {
      return;
    }
    DigitsOfU32(value);
    var tmp: array<char>;
    var i: nat;
    if value == 0 {
      tmp := new char[16];
      tmp[0] := '0';
      i := 1;
    } else {
      tmp, i := DigitsBackwards(value, 16, 16);
    }
    ghost var buf := out[..];
    var outI := CopyDigitsOut(out, tmp, Digits(value), i, maxLen);
    ghost var t := Take(Digits(value), maxLen - 1);
    ghost var cur := out[..];
    out[outI] := '\0';
    Terminate(buf, 0, t, cur);
    assert buf[..0] + t == t;
  }

  /** The second loop of `u32_to_dec`: the `n` digits kept least significant first
      in `tmp` go to `out` the other way round, as long as room for the
      terminator below max_len is left. */
  method CopyDigitsOut(out: array<char>, tmp: array<char>, ghost ds: seq<char>, n: nat, maxLen: nat)
    returns (outI: nat)
    requires out != tmp && n == |ds| <= tmp.Length && 0 < maxLen <= out.Length
    requires forall k :: 0 <= k < n ==> ds[k] == tmp[n - 1 - k]
    modifies out
    ensures outI == |Take(ds, maxLen - 1)| && outI < out.Length
    ensures out[..] == old(out[..])[..0] + Take(ds, maxLen - 1) + old(out[..])[outI..]
  {
    ghost var buf := out[..];
    var i := n;
    outI := 0;
    while i > 0 && outI + 1 < maxLen
      invariant 0 <= i && outI + i == n && outI < maxLen
      invariant out[..] == ds[..outI] + buf[outI..]
    {
      i := i - 1;
      out[outI] := tmp[i];
      ReplaceAt(ds[..outI], buf[outI..], ds[outI]);
      TakeStep(ds, outI);
      outI := outI + 1;
    }
    assert ds[..outI] == Take(ds, maxLen - 1);
    assert buf[..0] + ds[..outI] == ds[..outI];
  }

  /** The text `format_ram` writes for `ram_kb` kibibytes. */
  function RamText(ramKb: u32): (s: seq<char>)
  {
    if ramKb == 0 then "Unknown" else Digits(ramKb / 1024) + " MB"
  }

  /** The text `format_resolution` writes. */
  function ResolutionText(w: u32, h: u32): (s: seq<char>)
  {
    Digits(w) + "x" + Digits(h)
  }

  /** The text `format_bpp` writes. */
  function BppText(bpp: u8): (s: seq<char>)
  {
    Digits(bpp) + " bpp"
  }

  /** A known size reads back as whole mebibytes followed by " MB"; an unknown one
      is "Unknown", which no size is written as. */
  lemma RamTextReadsBack(ramKb: u32)
    ensures var s := RamText(ramKb);
      ramKb == 0 <==> s == "Unknown"
    ensures ramKb > 0 ==> var s := RamText(ramKb);
      |s| > 3 && s[|s| - 3..] == " MB" && Value(s[..|s| - 3]) == ramKb / 1024
  {
    if ramKb > 0 {
      var d := Digits(ramKb / 1024);
      var s := d + " MB";
      assert s[..|s| - 3] == d && s[|s| - 3..] == " MB";
      ValueOfDigits(ramKb / 1024);
      assert s[0] == d[0] && '0' <= s[0] <= '9';
      assert s != "Unknown" by {
        assert "Unknown"[0] == 'U';
      }
    }
  }

  /** A resolution reads back: the one 'x' splits it into the width's and the
      height's digits. */
  lemma ResolutionTextReadsBack(w: u32, h: u32)
    ensures var s := ResolutionText(w, h); var p := |Digits(w)|;
      && p < |s| && s[p] == 'x'
      && (forall k :: 0 <= k < |s| && s[k] == 'x' ==> k == p)
      && Value(s[..p]) == w && Value(s[p + 1..]) == h
  {
    var dw, dh := Digits(w), Digits(h);
    var s := dw + "x" + dh;
    var p := |dw|;
    assert s[..p] == dw && s[p + 1..] == dh;
    forall k | 0 <= k < |s| && k != p
      ensures s[k] != 'x'
    {
      if k < p {
        assert s[k] == dw[k];
      } else {
        assert s[k] == dh[k - p - 1];
      }
    }
    ValueOfDigits(w);
    ValueOfDigits(h);
  }

  /** A colour depth reads back as the number before " bpp". */
  lemma BppTextReadsBack(bpp: u8)
    ensures var s := BppText(bpp);
      |s| > 4 && s[|s| - 4..] == " bpp" && Value(s[..|s| - 4]) == bpp
  {
    var d := Digits(bpp);
    var s := d + " bpp";
    assert s[..|s| - 4] == d && s[|s| - 4..] == " bpp";
    ValueOfDigits(bpp);
  }

  /** Copies the C string of a scratch buffer that `U32ToDec` filled with `value`. */
  lemma ScratchHoldsDigits(scratch: seq<char>, buf: seq<char>, value: u32)
    requires |Digits(value)| < |buf| && scratch == Copied(buf, Digits(value), |buf|)
    ensures Prefix(scratch) == Digits(value) && '\0' !in Digits(value)
  {
    DigitsNoNul(value);
    CopiedString(buf, Digits(value), |buf|);
  }

  /** The emptied buffer after appending `a` and then `b`. */
  lemma EmptyThenAppend(buf: seq<char>, a: seq<char>, b: seq<char>, maxLen: nat)
    requires 0 < maxLen <= |buf| && '\0' !in a
    ensures '\0' in buf[0 := '\0'] && '\0' in Copied(buf, a, maxLen)
    ensures Appended(buf[0 := '\0'], a, maxLen) == Copied(buf, a, maxLen)
    ensures Appended(Copied(buf, a, maxLen), b, maxLen) == Copied(buf, a + b, maxLen)
  {
    assert buf[0 := '\0'][0] == '\0';
    AppendToEmpty(buf[0 := '\0'], a, maxLen);
    CopiedIgnoresFirst(buf, a, maxLen, '\0');
    AppendAfterCopy(buf, a, b, maxLen);
  }

  /** `format_ram`: "Unknown" for 0, otherwise the size in whole mebibytes and
      " MB", cut to max_len-1 characters as `str_copy` would. With max_len 0 only
      a known size clears the first character. */
  method FormatRam(ramKb: u32, out: array<char>, maxLen: u32)
    requires out.Length > 0 && maxLen <= out.Length
    modifies out
    ensures maxLen > 0 ==> out[..] == Copied(old(out[..]), RamText(ramKb), maxLen)
    ensures maxLen == 0 && ramKb == 0 ==> out[..] == old(out[..])
    ensures maxLen == 0 && ramKb > 0 ==> out[..] == old(out[..])[0 := '\0']
  {
    if ramKb == 0 {
      StrCopy(out, Some("Unknown"), maxLen);
    } else {
      DigitsOfU32(ramKb / 1024);
      FormatWithUnit(ramKb / 1024, 16, " MB", out, maxLen);
    }
  }

  /** What `format_ram` (for a known size) and `format_bpp` share: the number is
      written into a scratch buffer of `numSize` characters by `u32_to_dec`, the
      output is emptied, and the number and then `unit` are appended to it. */
  method FormatWithUnit(value: u32, numSize: nat, unit: seq<char>, out: array<char>, maxLen: u32)
    requires |Digits(value)| < numSize <= 0xFFFF_FFFF && '\0' !in unit
    requires out.Length > 0 && maxLen <= out.Length
    modifies out
    ensures maxLen > 0 ==> out[..] == Copied(old(out[..]), Digits(value) + unit, maxLen)
    ensures maxLen == 0 ==> out[..] == old(out[..])[0 := '\0']
  {
    ghost var buf := out[..];
    var num := new char[numSize];
    ghost var numBuf := num[..];
    U32ToDec(value, num, numSize);
    ScratchHoldsDigits(num[..], numBuf, value);
    var digits := Prefix(num[..]);
    out[0] := '\0';
    assert out[..] == buf[0 := '\0'];
    if maxLen > 0 {
      EmptyThenAppend(buf, digits, unit, maxLen);
    }
    StrAppend(out, Some(digits), maxLen);
    StrAppend(out, Some(unit), maxLen);
  }

  /** `format_resolution`: `w`, "x" and `h`, cut to max_len-1 characters; the
      first character is cleared whatever max_len is. */
  method FormatResolution(w: u32, h: u32, out: array<char>, maxLen: u32)
    requires out.Length > 0 && maxLen <= out.Length
    modifies out
    ensures maxLen > 0 ==> out[..] == Copied(old(out[..]), ResolutionText(w, h), maxLen)
    ensures maxLen == 0 ==> out[..] == old(out[..])[0 := '\0']
  {
    ghost var buf := out[..];
    var num := new char[16];
    out[0] := '\0';
    DigitsOfU32(w);
    ghost var numBuf := num[..];
    U32ToDec(w, num, 16);
    ScratchHoldsDigits(num[..], numBuf, w);
    if maxLen > 0 {
      EmptyThenAppend(buf, Digits(w), "x", maxLen);
    }
    StrAppend(out, Some(Prefix(num[..])), maxLen);
    StrAppend(out, Some("x"), maxLen);
    DigitsOfU32(h);
    numBuf := num[..];
    U32ToDec(h, num, 16);
    ScratchHoldsDigits(num[..], numBuf, h);
    if maxLen > 0 {
      AppendAfterCopy(buf, Digits(w) + "x", Digits(h), maxLen);
    }
    StrAppend(out, Some(Prefix(num[..])), maxLen);
  }

  /** An 8-bit number has at most three digits. */
  lemma DigitsOfByte(n: u8)
    ensures |Digits(n)| <= 3
  {
    assert Pow10(3) == 1000;
    DigitsLength(n, 3);
  }

  /** `format_bpp`: the colour depth and " bpp", cut to max_len-1 characters; the
      first character is cleared whatever max_len is. */
  method FormatBpp(bpp: u8, out: array<char>, maxLen: u32)
    requires out.Length > 0 && maxLen <= out.Length
    modifies out
    ensures maxLen > 0 ==> out[..] == Copied(old(out[..]), BppText(bpp), maxLen)
    ensures maxLen == 0 ==> out[..] == old(out[..])[0 := '\0']
  {
    DigitsOfByte(bpp);
    FormatWithUnit(bpp, 8, " bpp", out, maxLen);
  }

  /** How many theme swatches the settings window shows. */
  const SWATCH_COUNT: nat := 5

  /** The box `app_settings_handle_click` tests for swatch `i` of a window at
      `panel`: 24 by 24 pixels, 34 apart, from 16 right of and 44 below the
      window's corner. */
  function Swatch(panel: Rect, i: int): (r: Rect)
    ensures r.w == 24 && r.h == 24 && r.y == panel.y + 44
  {
    Rect(panel.x + 16 + i * 34, panel.y + 44, 24, 24)
  }

  /** The swatches do not overlap, so the first one hit is the only one. */
  lemma SwatchesDisjoint(panel: Rect, px: int, py: int, i: int, j: int)
    requires PointInRect(px, py, Swatch(panel, i)) && PointInRect(px, py, Swatch(panel, j))
    ensures i == j
  {
  }

  /** The box `app_settings_render` draws swatch `i` in: 50 below the corner. */
  function DrawnSwatch(panel: Rect, i: int): (r: Rect)
    ensures r.x == Swatch(panel, i).x && r.y == Swatch(panel, i).y + 6 && r.w == 24 && r.h == 24
  {
    Rect(panel.x + 16 + i * 34, panel.y + 36 + 14, 24, 24)
  }

  /** The hit boxes sit six pixels above the drawn swatches: a click on the
      bottom six rows of a drawn swatch hits nothing. */
  lemma DrawnSwatchBottomMisses(panel: Rect, i: int, px: int, py: int)
    requires 0 <= i < SWATCH_COUNT && PointInRect(px, py, DrawnSwatch(panel, i))
    requires py >= panel.y + 68
    ensures forall j :: !PointInRect(px, py, Swatch(panel, j))
  {
  }

  /** `app_settings_handle_click`: the first swatch, counted from 0, that holds the
      point becomes the theme and 1 is returned; with none, 0 and no change. */
  method HandleClick(state: UiState, mouseX: int, mouseY: int) returns (handled: int)
    modifies state`themeIndex
    ensures handled == 1 || handled == 0
    ensures handled == 1 <==> exists i :: 0 <= i < SWATCH_COUNT && PointInRect(mouseX, mouseY, Swatch(state.settingsRect, i))
    ensures handled == 1 ==> (0 <= state.themeIndex < SWATCH_COUNT
      && PointInRect(mouseX, mouseY, Swatch(state.settingsRect, state.themeIndex)))
    ensures handled == 0 ==> state.themeIndex == old(state.themeIndex)
  {
    var panel := state.settingsRect;
    var i := 0;
    while i < SWATCH_COUNT
      invariant i <= SWATCH_COUNT && state.themeIndex == old(state.themeIndex)
      invariant forall j :: 0 <= j < i ==> !PointInRect(mouseX, mouseY, Swatch(panel, j))
    {
      var button := Rect(panel.x + 16 + i * 34, panel.y + 44, 24, 24);
      if PointInRect(mouseX, mouseY, button) {
        state.themeIndex := i;
        assert PointInRect(mouseX, mouseY, Swatch(state.settingsRect, i));
        return 1;
      }
      i := i + 1;
    }
    return 0;
  }
}
