/** Decimal and hexadecimal digit strings of unsigned numbers, the notation the
    serial log (src/log.c) and the settings window (src/app_settings.c) print. */
module Decimal {
  import opened Common

  /** The character of one decimal digit, `'0' + d` in C. */
  function DigitChar(d: nat): (c: char)
    requires d < 10
    ensures '0' <= c <= '9'
  {
    (48 + d) as char
  }

  /** The decimal digits of `n`, most significant first, without leading zeros. */
  function Digits(n: nat): (s: seq<char>)
    ensures |s| >= 1
    ensures forall k :: 0 <= k < |s| ==> '0' <= s[k] <= '9'
  {
    if n < 10 then [DigitChar(n)] else Digits(n / 10) + [DigitChar(n % 10)]
  }

  /** The number a string of decimal digits denotes. */
  function Value(s: seq<char>): nat
  {
    if s == [] then 0
    else
      var c := s[|s| - 1];
      var d := if '0' <= c <= '9' then c as int - 48 else 0;
      Value(s[..|s| - 1]) * 10 + d
  }

  /** Reading back the digits gives the number. */
  lemma {:induction false} ValueOfDigits(n: nat)
    ensures Value(Digits(n)) == n
  {
    if n >= 10 {
      var s := Digits(n);
      assert s[..|s| - 1] == Digits(n / 10);
      ValueOfDigits(n / 10);
    }
  }

  /** Different numbers have different digit strings. */
  lemma DigitsInjective(m: nat, n: nat)
    requires Digits(m) == Digits(n)
    ensures m == n
  {
    ValueOfDigits(m);
    ValueOfDigits(n);
  }

  /** Only zero is written with a leading `'0'`. */
  lemma {:induction false} LeadingDigit(n: nat)
    ensures Digits(n)[0] == '0' <==> n == 0
  {
    if n >= 10 {
      LeadingDigit(n / 10);
      assert Digits(n)[0] == Digits(n / 10)[0];
    }
  }

  /** Ten to the `k`. */
  function Pow10(k: nat): (r: nat)
    ensures r >= 1
  {
    if k == 0 then 1 else 10 * Pow10(k - 1)
  }

  /** A number below 10^k has at most k digits; a 32-bit number at most ten. */
  lemma {:induction false} DigitsLength(n: nat, k: nat)
    requires k >= 1 && n < Pow10(k)
    ensures |Digits(n)| <= k
  {
    if n >= 10 {
      assert k >= 2;
      assert n / 10 < Pow10(k - 1) by {
        assert (n / 10) * 10 <= n < 10 * Pow10(k - 1);
      }
      DigitsLength(n / 10, k - 1);
    }
  }

  /** 32-bit numbers have at most ten decimal digits. */
  lemma DigitsOfU32(n: u32)
    ensures |Digits(n)| <= 10
  {
    assert Pow10(10) == 10000000000;
    DigitsLength(n, 10);
  }

  /** `s` back to front. */
  function Reverse(s: seq<char>): (r: seq<char>)
    ensures |r| == |s|
    ensures forall k :: 0 <= k < |s| ==> r[k] == s[|s| - 1 - k]
  {
    if s == [] then [] else [s[|s| - 1]] + Reverse(s[..|s| - 1])
  }

  /** Reversing twice gives the string back. */
  lemma ReverseReverse(s: seq<char>)
    ensures Reverse(Reverse(s)) == s
  {
  }

  /** Sixteen to the `k`. */
  function Pow16(k: nat): (r: nat)
    ensures r >= 1
  {
    if k == 0 then 1 else 16 * Pow16(k - 1)
  }

  /** The character of one hexadecimal digit, from the table "0123456789ABCDEF". */
  function HexChar(d: nat): (c: char)
    requires d < 16
  {
    "0123456789ABCDEF"[d]
  }

  /** The value of one hexadecimal digit character, 0 for any other character. */
  function HexDigitValue(c: char): (d: nat)
    ensures d < 16
  {
    if '0' <= c <= '9' then c as int - 48
    else if 'A' <= c <= 'F' then c as int - 55
    else 0
  }

  /** `HexDigitValue` reads back `HexChar`. */
  lemma HexCharValue(d: nat)
    requires d < 16
    ensures HexDigitValue(HexChar(d)) == d
  {
  }

  /** The low `n` hexadecimal digits of `v`, most significant first: digit `i`
      counted from the right is `(v >> 4i) & 0xF`. */
  function HexN(v: nat, n: nat): (s: seq<char>)
    ensures |s| == n
  {
    if n == 0 then [] else [HexChar((v / Pow16(n - 1)) % 16)] + HexN(v, n - 1)
  }

  /** The number a string of hexadecimal digits denotes. */
  function HexValue(s: seq<char>): nat
  {
    if s == [] then 0 else HexDigitValue(s[0]) * Pow16(|s| - 1) + HexValue(s[1..])
  }

  /** Position `k` of `HexN(v, n)` holds digit n-1-k of `v`. */
  lemma {:induction false} HexNAt(v: nat, n: nat, k: nat)
    requires k < n
    ensures HexN(v, n)[k] == HexChar((v / Pow16(n - 1 - k)) % 16)
  {
    if k > 0 {
      HexNAt(v, n - 1, k - 1);
    }
  }

  /** Division with remainder has one answer. */
  lemma ModUnique(v: nat, m: nat, q: nat, r: nat)
    requires m > 0 && v == q * m + r && r < m
    ensures v % m == r && v / m == q
  {
    var q2, r2 := v / m, v % m;
    assert (q - q2) * m == r2 - r;
    if q > q2 {
      MulAtLeast(q - q2, m);
    } else if q < q2 {
      MulAtLeast(q2 - q, m);
    }
  }

  /** A positive multiple of m is at least m. */
  lemma MulAtLeast(a: int, m: nat)
    requires a >= 1
    ensures a * m >= m
  {
    assert a * m == (a - 1) * m + m;
  }

  /** (16 hi + lo) p regrouped. */
  lemma Regroup(hi: nat, lo: nat, p: nat)
    ensures (hi * 16 + lo) * p == hi * (16 * p) + lo * p
  {
  }

  /** A digit's multiple of p stays below 16 p. */
  lemma MulAtMost(lo: nat, p: nat)
    requires lo < 16
    ensures lo * p <= 15 * p
  {
    assert 15 * p == lo * p + (15 - lo) * p;
  }

  /** Taking digit n-1 off the front of the low n digits. */
  lemma ModSplit(v: nat, p: nat)
    requires p > 0
    ensures v % (16 * p) == ((v / p) % 16) * p + v % p
  {
    var a, b := v / p, v % p;
    var hi, lo := a / 16, a % 16;
    Regroup(hi, lo, p);
    MulAtMost(lo, p);
    ModUnique(v, 16 * p, hi, lo * p + b);
  }

  /** The low n hexadecimal digits read back as v modulo 16^n. */
  lemma {:induction false} HexValueOfHexN(v: nat, n: nat)
    ensures HexValue(HexN(v, n)) == v % Pow16(n)
  {
    if n > 0 {
      HexValueOfHexN(v, n - 1);
      HexValueStep(v, n);
    }
  }

  /** One more digit in front extends the value by that digit times 16^(n-1). */
  lemma HexValueStep(v: nat, n: nat)
    requires n > 0 && HexValue(HexN(v, n - 1)) == v % Pow16(n - 1)
    ensures HexValue(HexN(v, n)) == v % Pow16(n)
  {
    var s, p, d := HexN(v, n), Pow16(n - 1), (v / Pow16(n - 1)) % 16;
    assert s[0] == HexChar(d) && s[1..] == HexN(v, n - 1);
    HexCharValue(d);
    assert HexValue(s) == d * p + v % p;
    ModSplit(v, p);
  }

  /** The number of hexadecimal digits of a 32-bit word. */
  const WORD_DIGITS: nat := 8

  /** Eight hexadecimal digits write out every 32-bit number exactly. */
  lemma HexValueOfU32(v: u32)
    ensures HexValue(HexN(v, WORD_DIGITS)) == v
  {
    HexValueOfHexN(v, WORD_DIGITS);
    var m := Pow16(WORD_DIGITS);
    assert m == U32_MOD;
    ModUnique(v, m, 0, v);
  }

  /** Moving the last digit of `v` to the digits written out so far, which are
      kept least significant first. */
  lemma PushDigit(value: nat, v: nat, r: seq<char>)
    requires v > 0 && Digits(value) == Digits(v) + Reverse(r)
    ensures var r' := r + [DigitChar(v % 10)];
      && (v / 10 > 0 ==> Digits(value) == Digits(v / 10) + Reverse(r'))
      && (v / 10 == 0 ==> Digits(value) == Reverse(r'))
  {
    var d := DigitChar(v % 10);
    assert Reverse(r + [d]) == [d] + Reverse(r) by {
      assert (r + [d])[..|r|] == r;
    }
    if v >= 10 {
      ConcatAssoc(Digits(v / 10), [d], Reverse(r));
    }
  }

  /** The digit loop `log_dec32` and `u32_to_dec` share: `value % 10` goes into a
      fresh buffer of `size` characters, then `value /= 10`, while the value is
      nonzero and fewer than `cap` digits are written. Room for the ten digits
      of a 32-bit number means nothing is cut. */
  method DigitsBackwards(value: u32, size: nat, cap: nat) returns (buf: array<char>, n: nat)
    requires value > 0 && |Digits(value)| <= cap <= size
    ensures fresh(buf) && buf.Length == size && n == |Digits(value)|
    ensures forall k :: 0 <= k < n ==> Digits(value)[k] == buf[n - 1 - k]
  {
    buf := new char[size];
    var i := 0;
    var v: u32 := value;
    while v > 0 && i < cap
      invariant i <= cap
      invariant v > 0 ==> i + |Digits(v)| == |Digits(value)|
      invariant v > 0 ==> Digits(value) == Digits(v) + Reverse(buf[..i])
      invariant v == 0 ==> Digits(value) == Reverse(buf[..i])
    {
      var d := DigitChar(v % 10);
      PushDigit(value, v, buf[..i]);
      buf[i] := d;
      assert buf[..i + 1] == buf[..i] + [d];
      i := i + 1;
      v := v / 10;
    }
    assert v == 0 by {
      assert |Digits(v)| >= 1;
    }
    n := i;
    assert forall k :: 0 <= k < n ==> Digits(value)[k] == buf[..n][n - 1 - k];
  }
}
