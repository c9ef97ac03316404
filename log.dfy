/** The polled serial log of src/log.c on COM1. Port input is the environment:
    `lineStatus(k)` is what the k-th read of the line status register (COM1+5)
    returns, and the characters written to the data register (COM1) are the
    `sent` trace. */
module Log {
  import opened Common
  import opened Decimal
  import CStr

  /** How many times `log_putc` polls before it drops a character. */
  const POLL_LIMIT: nat := 100000

  /** `log_ready`: the transmitter holding register is empty (LSR bit 5). */
  predicate Ready(lsr: bv8)
  {
    lsr & 0x20 != 0
  }

  /** The outcome of printing: the characters that reached the data register and
      the number of status polls made so far. */
  datatype Outcome = Outcome(sent: seq<char>, polls: nat)

  /** The transmitter is ready at the k-th status read. */
  predicate ReadyAt(status: nat -> bv8, k: nat)
  {
    Ready(status(k))
  }

  /** One `log_putc` poll loop starting at read `from` with `budget` polls left:
      the polls it makes and whether it found the transmitter ready. */
  function Attempt(status: nat -> bv8, from: nat, budget: nat): (r: (nat, bool))
    ensures r.0 <= budget && (r.1 ==> r.0 >= 1)
    decreases budget
  {
    if budget == 0 then (0, false)
    else if ReadyAt(status, from) then (1, true)
    else
      var rest := Attempt(status, from + 1, budget - 1);
      (rest.0 + 1, rest.1)
  }

  /** The poll loop stops at the first ready read, and it sends exactly when
      there is one within the budget; otherwise it spends the whole budget. */
  lemma {:induction false} AttemptStopsAtFirstReady(status: nat -> bv8, from: nat, budget: nat)
    ensures var r := Attempt(status, from, budget);
      && (r.1 ==> ReadyAt(status, from + r.0 - 1))
      && (forall k :: from <= k < from + r.0 - 1 ==> !ReadyAt(status, k))
      && (!r.1 ==> r.0 == budget && forall k :: from <= k < from + budget ==> !ReadyAt(status, k))
    decreases budget
  {
    if budget > 0 && !ReadyAt(status, from) {
      AttemptStopsAtFirstReady(status, from + 1, budget - 1);
    }
  }

  /** After `i` busy reads, a ready one ends the loop with `i + 1` polls. */
  lemma {:induction false} AttemptFindsFirstReady(status: nat -> bv8, from: nat, budget: nat, i: nat)
    requires i < budget && ReadyAt(status, from + i)
    requires forall k :: from <= k < from + i ==> !ReadyAt(status, k)
    ensures Attempt(status, from, budget) == (i + 1, true)
    decreases i
  {
    if i > 0 {
      AttemptFindsFirstReady(status, from + 1, budget - 1, i - 1);
    }
  }

  /** With every read busy the loop spends its whole budget and sends nothing. */
  lemma {:induction false} AttemptFindsNone(status: nat -> bv8, from: nat, budget: nat)
    requires forall k :: from <= k < from + budget ==> !ReadyAt(status, k)
    ensures Attempt(status, from, budget) == (budget, false)
    decreases budget
  {
    if budget > 0 {
      AttemptFindsNone(status, from + 1, budget - 1);
    }
  }

  /** A character is sent exactly when a ready status turns up within the poll limit. */
  lemma AttemptSendsIffReady(status: nat -> bv8, from: nat, limit: nat)
    ensures Attempt(status, from, limit).1
      <==> exists k :: from <= k < from + limit && ReadyAt(status, k)
  {
    var r := Attempt(status, from, limit);
    AttemptStopsAtFirstReady(status, from, limit);
    if r.1 {
      assert ReadyAt(status, from + r.0 - 1);
    }
  }

  /** What one `log_putc(c)` from read `from` on sends, and where it leaves the reads. */
  function PutcOutcome(status: nat -> bv8, limit: nat, c: char, from: nat): (o: Outcome)
    ensures from <= o.polls <= from + limit && |o.sent| <= 1
  {
    var a := Attempt(status, from, limit);
    Outcome(if a.1 then [c] else [], from + a.0)
  }

  /** Printing the characters `cs` one `log_putc` after another, from read `from` on. */
  function Emit(status: nat -> bv8, limit: nat, cs: seq<char>, from: nat): (o: Outcome)
    ensures |o.sent| <= |cs| && from <= o.polls
  {
    if cs == [] then Outcome([], from)
    else
      var before := Emit(status, limit, cs[..|cs| - 1], from);
      var last := PutcOutcome(status, limit, cs[|cs| - 1], before.polls);
      Outcome(before.sent + last.sent, last.polls)
  }

  /** Printing one more character. */
  lemma EmitStep(status: nat -> bv8, limit: nat, cs: seq<char>, c: char, from: nat)
    ensures var before := Emit(status, limit, cs, from);
      var last := PutcOutcome(status, limit, c, before.polls);
      Emit(status, limit, cs + [c], from) == Outcome(before.sent + last.sent, last.polls)
  {
    assert (cs + [c])[..|cs|] == cs;
  }

  /** A transmitter that is always ready gets every character, one read each. */
  lemma {:induction false} EmitAlwaysReady(status: nat -> bv8, limit: nat, cs: seq<char>, from: nat)
    requires forall k :: ReadyAt(status, k)
    requires limit > 0
    ensures Emit(status, limit, cs, from) == Outcome(cs, from + |cs|)
  {
    if cs != [] {
      EmitAlwaysReady(status, limit, cs[..|cs| - 1], from);
      assert cs[..|cs| - 1] + [cs[|cs| - 1]] == cs;
    }
  }

  /** A transmitter that never becomes ready gets nothing, and every character
      costs the full poll limit. */
  lemma {:induction false} EmitNeverReady(status: nat -> bv8, limit: nat, cs: seq<char>, from: nat)
    requires forall k :: !ReadyAt(status, k)
    ensures Emit(status, limit, cs, from) == Outcome([], from + |cs| * limit)
  {
    if cs != [] {
      EmitNeverReady(status, limit, cs[..|cs| - 1], from);
      var at := from + (|cs| - 1) * limit;
      AttemptFindsNone(status, at, limit);
    }
  }

  /** The serial port as `log.c` drives it. */
  class Serial {
    const lineStatus: nat -> bv8
    /** The spin bound of `log_putc`, POLL_LIMIT. */
    const pollLimit: nat
    var polls: nat
    var sent: seq<char>

    /** A port whose status register reads as `status`, nothing read or sent yet. */
    constructor (status: nat -> bv8)
      ensures lineStatus == status && pollLimit == POLL_LIMIT && polls == 0 && sent == []
    {
      lineStatus := status;
      pollLimit := POLL_LIMIT;
      polls := 0;
      sent := [];
    }

    /** Starting from `sent0` with `polls0` reads made, exactly what printing `cs`
        sends has been sent, and the reads stand where it leaves them. */
    ghost predicate Printed(cs: seq<char>, sent0: seq<char>, polls0: nat)
      reads this
    {
      var o := Emit(lineStatus, pollLimit, cs, polls0);
      sent == sent0 + o.sent && polls == o.polls
    }

    /** `log_ready`: one read of the line status register. */
    method LogReady() returns (ready: bool)
      modifies this`polls
      ensures polls == old(polls) + 1
      ensures ready == ReadyAt(lineStatus, old(polls))
    {
      ready := Ready(lineStatus(polls));
      polls := polls + 1;
    }

    /** `log_putc`: poll up to 100000 times; the first ready status sends `c`,
        and `c` is dropped when none comes. */
    method Putc(c: char)
      modifies this`polls, this`sent
      ensures var o := PutcOutcome(lineStatus, pollLimit, c, old(polls));
        sent == old(sent) + o.sent && polls == o.polls
    {
      ghost var start := polls;
      var i := 0;
      while i < pollLimit
        invariant i <= pollLimit && polls == start + i && sent == old(sent)
        invariant forall k :: start <= k < start + i ==> !ReadyAt(lineStatus, k)
      {
        var ready := LogReady();
        if ready {
          AttemptFindsFirstReady(lineStatus, start, pollLimit, i);
          sent := sent + [c];
          return;
        }
        i := i + 1;
      }
      AttemptFindsNone(lineStatus, start, pollLimit);
    }

    /** `log_putc` as the next character of a longer print. */
    method PutcNext(ghost cs: seq<char>, c: char, ghost sent0: seq<char>, ghost polls0: nat)
      requires Printed(cs, sent0, polls0)
      modifies this`polls, this`sent
      ensures Printed(cs + [c], sent0, polls0)
    {
      EmitStep(lineStatus, pollLimit, cs, c, polls0);
      Putc(c);
    }

    /** `log_write`: the first `len` characters of `s`, nothing for a null pointer. */
    method Write(s: Option<seq<char>>, len: u32)
      requires s.Some? ==> len <= |s.value|
      modifies this`polls, this`sent
      ensures s.None? ==> polls == old(polls) && sent == old(sent)
      ensures s.Some? ==> Printed(s.value[..len], old(sent), old(polls))
    {
      if s.None? {
        return;
      }
      var str := s.value;
      var i := 0;
      while i < len
        invariant i <= len
        invariant Printed(str[..i], old(sent), old(polls))
      {
        PutcNext(str[..i], str[i], old(sent), old(polls));
        TakeStep(str, i);
        i := i + 1;
      }
    }

    /** `log_puts`: the characters of a C string up to its NUL, nothing for null. */
    method Puts(s: Option<seq<char>>)
      requires s.Some? ==> '\0' !in s.value
      modifies this`polls, this`sent
      ensures s.None? ==> polls == old(polls) && sent == old(sent)
      ensures s.Some? ==> Printed(s.value, old(sent), old(polls))
    {
      if s.None? {
        return;
      }
      var str := s.value;
      var i := 0;
      while CStr.At(str, i) != '\0'
        invariant i <= |str|
        invariant Printed(str[..i], old(sent), old(polls))
        decreases |str| - i
      {
        PutcNext(str[..i], str[i], old(sent), old(polls));
        TakeStep(str, i);
        i := i + 1;
      }
      assert str[..i] == str;
    }

    /** `log_hex32`: "0x" and then the eight hexadecimal digits of `value`, the
        most significant first. */
    method Hex32(value: u32)
      modifies this`polls, this`sent
      ensures Printed("0x" + HexN(value, WORD_DIGITS), old(sent), old(polls))
    {
      ghost var digits := HexN(value, WORD_DIGITS);
      Puts(Some("0x"));
      assert "0x" + digits[..0] == "0x";
      var i: int := 7;
      while i >= 0
        invariant -1 <= i <= 7
        invariant Printed("0x" + digits[..7 - i], old(sent), old(polls))
      {
        var nibble := (value / Pow16(i)) % 16;
        HexNAt(value, WORD_DIGITS, 7 - i);
        PutcNext("0x" + digits[..7 - i], HexChar(nibble), old(sent), old(polls));
        TakeOneMore("0x", digits, 7 - i);
        i := i - 1;
      }
      assert digits[..7 - i] == digits;
    }

    /** `log_dec32`: the decimal digits of `value`, the most significant first;
        "0" for zero. */
    method Dec32(value: u32)
      modifies this`polls, this`sent
      ensures Printed(Digits(value), old(sent), old(polls))
    {
      if value == 0 {
        assert Printed([], sent, polls);
        PutcNext([], '0', sent, polls);
        assert [] + ['0'] == Digits(0);
        return;
      }
      DigitsOfU32(value);
      var buf, i := DigitsBackwards(value, 11, 10);
      ghost var n := i;
      ghost var out := Digits(value);
      assert out[..0] == [] && Printed([], old(sent), old(polls));
      while i > 0
        invariant 0 <= i <= n
        invariant forall k :: 0 <= k < n ==> out[k] == buf[n - 1 - k]
        invariant Printed(out[..n - i], old(sent), old(polls))
      {
        i := i - 1;
        assert out[n - 1 - i] == buf[i];
        PutcNext(out[..n - 1 - i], buf[i], old(sent), old(polls));
        TakeStep(out, n - 1 - i);
      }
      assert out[..n] == out;
    }
  }
}
