/** EHCI host-controller bring-up, src/ehci.c (EHCI 1.0 sections 2.2 and 2.3).

    Register reads come from the device and are unconstrained; every access is
    recorded on the bus trace. The busy-wait delays between writes are not modelled. */
module Ehci {
  import opened Common
  import opened Hw

  // Operational register offsets (EHCI 1.0 section 2.3).
  const USBCMD: nat := 0x00
  const USBSTS: nat := 0x04
  const FRINDEX: nat := 0x08
  const CONFIGFLAG: nat := 0x40

  /** PORTSC of port i (section 2.3.9). */
  function PortOff(i: nat): (off: nat)
    ensures off >= 0x44 && (off - 0x44) % 4 == 0 && (off - 0x44) / 4 == i
  {
    0x44 + i * 4
  }

  /** N_PORTS, bits 3:0 of HCSPARAMS. */
  function PortCount(hcs: bv32): (n: nat)
    ensures n < 16
  {
    (hcs & 0xF) as int
  }

  /** `struct ehci_controller`. The two pointers are addresses. */
  class Controller {
    var base: nat
    var opBase: nat
    var capLength: nat
    var hcsParams: bv32
    var hccParams: bv32

    constructor ()
      ensures base == 0 && opBase == 0 && capLength == 0 && hcsParams == 0 && hccParams == 0
    {
      base, opBase, capLength, hcsParams, hccParams := 0, 0, 0, 0, 0;
    }
  }

  /** CAPLENGTH, the low byte of capability register 0 (section 2.2.1). */
  function CapLength(cap0: bv32): (n: nat)
    ensures n < 256
  {
    (cap0 & 0xFF) as int
  }

  /** CAPLENGTH values `ehci_init` accepts. */
  predicate CapLengthOk(capLength: nat)
  {
    0x10 <= capLength <= 0x40
  }

  /** The reset sequence written after USBCMD was read as `usbcmd`: stop (Run/Stop,
      bit 0, cleared), clear the status bits, zero FRINDEX, assert and release HCRESET
      (bit 1), then route every port to this controller through CONFIGFLAG. */
  function ResetWrites(op: nat, usbcmd: bv32): (w: seq<Access>)
    ensures |w| == 6
  {
    var cmd := WithoutRun(usbcmd);
    [Wr(op, USBCMD, cmd), Wr(op, USBSTS, 0x3F), Wr(op, FRINDEX, 0),
     Wr(op, USBCMD, WithHcReset(cmd)), Wr(op, USBCMD, WithoutHcReset(cmd)), Wr(op, CONFIGFLAG, 1)]
  }

  /** A USBCMD value with Run/Stop (bit 0) cleared, and with HCRESET (bit 1) set or cleared. */
  function WithoutRun(usbcmd: bv32): bv32 { usbcmd & !1 }
  function WithHcReset(usbcmd: bv32): bv32 { usbcmd | 2 }
  function WithoutHcReset(usbcmd: bv32): bv32 { usbcmd & !2 }

  /** A write of the reset sequence: to the operational window at `op`, at USBCMD,
      USBSTS, FRINDEX or CONFIGFLAG. */
  predicate ResetRegisterWrite(op: nat, a: Access)
  {
    a.Wr? && a.base == op && (a.off == USBCMD || a.off == USBSTS || a.off == FRINDEX || a.off == CONFIGFLAG)
  }

  /** Every step of the reset writes an operational register; USBSTS gets all six
      write-one-to-clear status bits, FRINDEX zero and CONFIGFLAG one. */
  lemma ResetWritesRegisters(op: nat, usbcmd: bv32)
    ensures var w := ResetWrites(op, usbcmd);
      ResetRegisterWrite(op, w[0]) && ResetRegisterWrite(op, w[1]) && ResetRegisterWrite(op, w[2])
      && ResetRegisterWrite(op, w[3]) && ResetRegisterWrite(op, w[4]) && ResetRegisterWrite(op, w[5])
    ensures var w := ResetWrites(op, usbcmd);
      w[0].off == USBCMD && w[3].off == USBCMD && w[4].off == USBCMD
      && w[1] == Wr(op, USBSTS, 0x3F) && w[2] == Wr(op, FRINDEX, 0) && w[5] == Wr(op, CONFIGFLAG, 1)
  {
  }

  /** The first USBCMD write clears Run/Stop and keeps every other bit read. */
  lemma ResetStopsController(op: nat, usbcmd: bv32)
    ensures var w := ResetWrites(op, usbcmd); w[0].value & 1 == 0 && w[0].value & !1 == usbcmd & !1
  {
  }

  /** The second USBCMD write sets HCRESET with Run/Stop clear and keeps the other bits read. */
  lemma ResetAssertsHcReset(op: nat, usbcmd: bv32)
    ensures var w := ResetWrites(op, usbcmd); w[3].value & 3 == 2 && w[3].value & !3 == usbcmd & !3
  {
  }

  /** The third USBCMD write clears both HCRESET and Run/Stop and keeps the other bits read. */
  lemma ResetReleasesHcReset(op: nat, usbcmd: bv32)
    ensures var w := ResetWrites(op, usbcmd); w[4].value & 3 == 0 && w[4].value & !3 == usbcmd & !3
  {
  }

  /** CCS, the Current Connect Status bit of a PORTSC value (section 2.3.9). */
  predicate Connected(portsc: bv32)
  {
    portsc & 1 != 0
  }

  /** A PORTSC value with Port Reset (bit 8) set, and with it cleared. */
  function WithPortReset(portsc: bv32): bv32 { portsc | 0x100 }
  function WithoutPortReset(portsc: bv32): bv32 { portsc & !0x100 }

  /** The accesses to port i: PORTSC is read as `v`; only a connected port (bit 0)
      gets the reset bit 8 set, then PORTSC is re-read as `v2` and bit 8 cleared. */
  function PortAccesses(op: nat, i: nat, v: bv32, v2: bv32): seq<Access>
  {
    if Connected(v) then
      [Rd(op, PortOff(i), v), Wr(op, PortOff(i), WithPortReset(v)), Rd(op, PortOff(i), v2), Wr(op, PortOff(i), WithoutPortReset(v2))]
    else
      [Rd(op, PortOff(i), v)]
  }

  /** The accesses to port i touch only its PORTSC; an unconnected port is only read. */
  lemma PortAccessesShape(op: nat, i: nat, v: bv32, v2: bv32)
    ensures forall a :: a in PortAccesses(op, i, v, v2) ==> a.base == op && a.off == PortOff(i)
    ensures !Connected(v) ==> PortAccesses(op, i, v, v2) == [Rd(op, PortOff(i), v)]
  {
  }

  /** The accesses to ports 0..n-1, in order, for the values `first` and `second` read
      from each PORTSC. */
  function PortsTrace(op: nat, n: nat, first: seq<bv32>, second: seq<bv32>): seq<Access>
    requires n <= |first| && n <= |second|
  {
    if n == 0 then [] else PortsTrace(op, n - 1, first, second) + PortAccesses(op, n - 1, first[n - 1], second[n - 1])
  }

  /** The reads of the capability registers and their decoded meaning. */
  datatype CapReads = CapReads(cap0: bv32, hcs: bv32, hcc: bv32)

  /** What `ehci_init` does after the BAR check, for the values the device returns. */
  function BringUpTrace(base: nat, caps: CapReads, usbcmd: bv32, first: seq<bv32>, second: seq<bv32>): seq<Access>
    requires CapLengthOk(CapLength(caps.cap0)) ==> PortCount(caps.hcs) <= |first| && PortCount(caps.hcs) <= |second|
  {
    var capLength := CapLength(caps.cap0);
    var op := base + capLength;
    [Rd(base, 0x00, caps.cap0), Rd(base, 0x04, caps.hcs), Rd(base, 0x08, caps.hcc)]
    + (if !CapLengthOk(capLength) then []
       else [Rd(op, USBCMD, usbcmd)] + ResetWrites(op, usbcmd) + PortsTrace(op, PortCount(caps.hcs), first, second))
  }

  /** `ehci_init`. A null `out` or a BAR whose address bits (all but the low four) are
      zero fails without touching anything. Otherwise base, CAPLENGTH (low byte of
      capability offset 0), HCSPARAMS, HCCPARAMS and op_base = base + CAPLENGTH are
      stored first; init then fails exactly when CAPLENGTH is outside 0x10..0x40, and
      otherwise performs the reset and port-reset sequence and succeeds. */
  method EhciInit(out: Controller?, bar0: bv32, bus: Bus)
    returns (ok: bool, ghost caps: CapReads, ghost usbcmd: bv32, ghost first: seq<bv32>, ghost second: seq<bv32>)
    modifies bus, if out != null then {out} else {}
    ensures CapLengthOk(CapLength(caps.cap0)) ==> PortCount(caps.hcs) <= |first| && PortCount(caps.hcs) <= |second|
    ensures out == null || bar0 & 0xFFFF_FFF0 == 0 ==> !ok && bus.trace == old(bus.trace)
    ensures out != null && bar0 & 0xFFFF_FFF0 == 0 ==>
      out.base == old(out.base) && out.opBase == old(out.opBase) && out.capLength == old(out.capLength)
      && out.hcsParams == old(out.hcsParams) && out.hccParams == old(out.hccParams)
    ensures out != null && bar0 & 0xFFFF_FFF0 != 0 ==>
      out.base == (bar0 & 0xFFFF_FFF0) as int && out.capLength == CapLength(caps.cap0)
      && out.hcsParams == caps.hcs && out.hccParams == caps.hcc && out.opBase == out.base + out.capLength
      && (ok <==> CapLengthOk(out.capLength))
      && bus.trace == old(bus.trace) + BringUpTrace(out.base, caps, usbcmd, first, second)
  {
    caps, usbcmd, first, second := CapReads(0, 0, 0), 0, [], [];
    if out == null {
      return false, caps, usbcmd, first, second;
    }
    var baseMask := bar0 & 0xFFFF_FFF0;
    if baseMask == 0 {
      return false, caps, usbcmd, first, second;
    }
    ok, caps, usbcmd, first, second := BringUp(out, baseMask as int, bus);
  }

  /** `ehci_init` from the store of the base address on. */
  method BringUp(out: Controller, baseAddr: nat, bus: Bus)
    returns (ok: bool, ghost caps: CapReads, ghost usbcmd: bv32, ghost first: seq<bv32>, ghost second: seq<bv32>)
    modifies bus, out
    ensures CapLengthOk(CapLength(caps.cap0)) ==> PortCount(caps.hcs) <= |first| && PortCount(caps.hcs) <= |second|
    ensures out.base == baseAddr && out.capLength == CapLength(caps.cap0)
      && out.hcsParams == caps.hcs && out.hccParams == caps.hcc && out.opBase == out.base + out.capLength
      && (ok <==> CapLengthOk(out.capLength))
      && bus.trace == old(bus.trace) + BringUpTrace(out.base, caps, usbcmd, first, second)
  {
    usbcmd, first, second := 0, [], [];
    ghost var t0 := bus.trace;
    out.base := baseAddr;
    var cap0 := bus.Read32(out.base, 0x00);
    out.capLength := CapLength(cap0);
    out.hcsParams := bus.Read32(out.base, 0x04);
    out.hccParams := bus.Read32(out.base, 0x08);
    out.opBase := out.base + out.capLength;
    caps := CapReads(cap0, out.hcsParams, out.hccParams);
    ghost var head := [Rd(baseAddr, 0x00, caps.cap0), Rd(baseAddr, 0x04, caps.hcs), Rd(baseAddr, 0x08, caps.hcc)];
    assert bus.trace == t0 + head;

    if out.capLength < 0x10 || out.capLength > 0x40 {
      assert !CapLengthOk(CapLength(caps.cap0));
      return false, caps, usbcmd, first, second;
    }

    var op := out.opBase;
    usbcmd := ResetController(op, bus);
    ghost var reset := bus.trace;
    var ports := PortCount(out.hcsParams);
    first, second := ResetPorts(op, ports, bus);
    assert bus.trace == reset + PortsTrace(op, ports, first, second);
    RegroupFive(t0, head, [Rd(op, USBCMD, usbcmd)], ResetWrites(op, usbcmd), PortsTrace(op, ports, first, second));
    ok := true;
  }

  /** The reset part of `ehci_init`: read USBCMD, then issue the reset writes. */
  method ResetController(op: nat, bus: Bus) returns (ghost usbcmd: bv32)
    modifies bus
    ensures bus.trace == old(bus.trace) + [Rd(op, USBCMD, usbcmd)] + ResetWrites(op, usbcmd)
  {
    var cmdRead := bus.Read32(op, USBCMD);
    usbcmd := cmdRead;
    ghost var beforeReset := bus.trace;
    var cmd := WithoutRun(cmdRead);
    bus.Write32(op, USBCMD, cmd);
    bus.Write32(op, USBSTS, 0x3F);
    bus.Write32(op, FRINDEX, 0);
    bus.Write32(op, USBCMD, WithHcReset(cmd));
    bus.Write32(op, USBCMD, WithoutHcReset(cmd));
    bus.Write32(op, CONFIGFLAG, 1);
    AppendSix(beforeReset, Wr(op, USBCMD, cmd), Wr(op, USBSTS, 0x3F), Wr(op, FRINDEX, 0),
      Wr(op, USBCMD, WithHcReset(cmd)), Wr(op, USBCMD, WithoutHcReset(cmd)), Wr(op, CONFIGFLAG, 1));
  }

  /** The port loop of `ehci_init`: each of the first `ports` PORTSC registers is read,
      and a connected port is put through a reset. */
  method ResetPorts(op: nat, ports: nat, bus: Bus) returns (ghost first: seq<bv32>, ghost second: seq<bv32>)
    modifies bus
    ensures |first| == ports && |second| == ports
    ensures bus.trace == old(bus.trace) + PortsTrace(op, ports, first, second)
  {
    first, second := [], [];
    ghost var mid := bus.trace;
    var i := 0;
    while i < ports
      invariant 0 <= i <= ports && |first| == i && |second| == i
      invariant bus.trace == mid + PortsTrace(op, i, first, second)
    {
      ghost var beforePort := bus.trace;
      var portsc := bus.Read32(op, PortOff(i));
      var again: bv32 := 0;
      if Connected(portsc) {
        bus.Write32(op, PortOff(i), WithPortReset(portsc));
        again := bus.Read32(op, PortOff(i));
        bus.Write32(op, PortOff(i), WithoutPortReset(again));
        AppendFour(beforePort, Rd(op, PortOff(i), portsc), Wr(op, PortOff(i), WithPortReset(portsc)),
          Rd(op, PortOff(i), again), Wr(op, PortOff(i), WithoutPortReset(again)));
      }
      assert bus.trace == beforePort + PortAccesses(op, i, portsc, again);
      PortsTracePrefix(op, i, first, second, first + [portsc], second + [again]);
      ConcatAssoc(mid, PortsTrace(op, i, first, second), PortAccesses(op, i, portsc, again));
      first, second := first + [portsc], second + [again];
      i := i + 1;
    }
  }

  /** The accesses to the first n ports depend only on the first n values read. */
  lemma {:induction false} PortsTracePrefix(op: nat, n: nat, f: seq<bv32>, s: seq<bv32>, f2: seq<bv32>, s2: seq<bv32>)
    requires n <= |f| && n <= |s| && n <= |f2| && n <= |s2|
    requires f[..n] == f2[..n] && s[..n] == s2[..n]
    ensures PortsTrace(op, n, f, s) == PortsTrace(op, n, f2, s2)
  {
    if n > 0 {
      assert f[n - 1] == f[..n][n - 1] && f2[n - 1] == f2[..n][n - 1];
      assert s[n - 1] == s[..n][n - 1] && s2[n - 1] == s2[..n][n - 1];
      assert f[..n - 1] == f[..n][..n - 1] && f2[..n - 1] == f2[..n][..n - 1];
      assert s[..n - 1] == s[..n][..n - 1] && s2[..n - 1] == s2[..n][..n - 1];
      PortsTracePrefix(op, n - 1, f, s, f2, s2);
    }
  }

  /** A register the bring-up may write: USBCMD, USBSTS, FRINDEX, CONFIGFLAG, or the
      PORTSC of one of the first n ports. */
  predicate AllowedWrite(off: nat, n: nat)
  {
    off == USBCMD || off == USBSTS || off == FRINDEX || off == CONFIGFLAG
    || (off >= 0x44 && (off - 0x44) % 4 == 0 && (off - 0x44) / 4 < n)
  }

  lemma {:induction false} PortsTraceWritesOnlyPorts(op: nat, n: nat, f: seq<bv32>, s: seq<bv32>)
    requires n <= |f| && n <= |s|
    ensures forall a :: a in PortsTrace(op, n, f, s) ==>
      a.base == op && a.off >= 0x44 && (a.off - 0x44) % 4 == 0 && (a.off - 0x44) / 4 < n
  {
    if n > 0 {
      PortsTraceWritesOnlyPorts(op, n - 1, f, s);
    }
  }

  /** The bring-up writes nothing but the capability-relative operational registers
      USBCMD, USBSTS, FRINDEX, CONFIGFLAG and the PORTSC of existing ports. */
  lemma BringUpWritesAllowed(base: nat, caps: CapReads, usbcmd: bv32, f: seq<bv32>, s: seq<bv32>)
    requires CapLengthOk(CapLength(caps.cap0)) ==> PortCount(caps.hcs) <= |f| && PortCount(caps.hcs) <= |s|
    ensures forall a :: a in BringUpTrace(base, caps, usbcmd, f, s) && a.Wr? ==>
      a.base == base + CapLength(caps.cap0) && AllowedWrite(a.off, PortCount(caps.hcs))
  {
    var op := base + CapLength(caps.cap0);
    var n := PortCount(caps.hcs);
    var head := [Rd(base, 0x00, caps.cap0), Rd(base, 0x04, caps.hcs), Rd(base, 0x08, caps.hcc)];
    if CapLengthOk(CapLength(caps.cap0)) {
      var w := ResetWrites(op, usbcmd);
      var p := PortsTrace(op, n, f, s);
      PortsTraceWritesOnlyPorts(op, n, f, s);
      ResetWritesAllowed(op, usbcmd, n);
      var x := head + ([Rd(op, USBCMD, usbcmd)] + w + p);
      assert BringUpTrace(base, caps, usbcmd, f, s) == x;
      forall a | a in x && a.Wr?
        ensures a.base == op && AllowedWrite(a.off, n)
      {
        assert a in w || a in p;
      }
    } else {
      assert BringUpTrace(base, caps, usbcmd, f, s) == head;
    }
  }

  lemma ResetWritesAllowed(op: nat, usbcmd: bv32, n: nat)
    ensures forall a :: a in ResetWrites(op, usbcmd) ==> a.base == op && AllowedWrite(a.off, n)
  {
    var w := ResetWrites(op, usbcmd);
    ResetWritesRegisters(op, usbcmd);
    forall i | 0 <= i < 6
      ensures ResetRegisterWrite(op, w[i])
    {
    }
    forall a | a in w
      ensures a.base == op && AllowedWrite(a.off, n)
    {
      var i :| 0 <= i < 6 && w[i] == a;
      assert ResetRegisterWrite(op, w[i]);
    }
  }

  /** A port whose connect bit read as clear is never written. */
  lemma {:induction false} UnconnectedPortNotWritten(op: nat, n: nat, f: seq<bv32>, s: seq<bv32>, i: nat)
    requires n <= |f| && n <= |s| && i < n && !Connected(f[i])
    ensures forall a :: a in PortsTrace(op, n, f, s) && a.Wr? ==> a.off != PortOff(i)
  {
    var last := PortAccesses(op, n - 1, f[n - 1], s[n - 1]);
    assert PortsTrace(op, n, f, s) == PortsTrace(op, n - 1, f, s) + last;
    PortAccessesShape(op, n - 1, f[n - 1], s[n - 1]);
    if i < n - 1 {
      UnconnectedPortNotWritten(op, n - 1, f, s, i);
    } else {
      PortsTraceWritesOnlyPorts(op, n - 1, f, s);
    }
  }

  /** A port whose connect bit read as set has the reset bit written into its PORTSC. */
  lemma {:induction false} ConnectedPortReset(op: nat, n: nat, f: seq<bv32>, s: seq<bv32>, i: nat)
    requires n <= |f| && n <= |s| && i < n && Connected(f[i])
    ensures Wr(op, PortOff(i), WithPortReset(f[i])) in PortsTrace(op, n, f, s)
    ensures Wr(op, PortOff(i), WithoutPortReset(s[i])) in PortsTrace(op, n, f, s)
  {
    var last := PortAccesses(op, n - 1, f[n - 1], s[n - 1]);
    assert PortsTrace(op, n, f, s) == PortsTrace(op, n - 1, f, s) + last;
    if i < n - 1 {
      ConnectedPortReset(op, n - 1, f, s, i);
    } else {
      assert last[1] == Wr(op, PortOff(i), WithPortReset(f[i]));
      assert last[3] == Wr(op, PortOff(i), WithoutPortReset(s[i]));
    }
  }

  /** With a CAPLENGTH out of range only the three capability registers are read. */
  lemma BadCapLengthOnlyReads(base: nat, caps: CapReads, usbcmd: bv32, f: seq<bv32>, s: seq<bv32>)
    requires !CapLengthOk(CapLength(caps.cap0))
    ensures |BringUpTrace(base, caps, usbcmd, f, s)| == 3
    ensures forall a :: a in BringUpTrace(base, caps, usbcmd, f, s) ==> a.Rd? && a.base == base
  {
  }
}
