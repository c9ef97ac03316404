/** PCI configuration mechanism #1 and the bus-0 enumeration of src/pci.c.

    The configuration-data port (0xCFC) is modelled as a function `port` of the
    address word last written to the configuration-address port (0xCF8): reading
    hardware is an input, so nothing is assumed about the values it returns. */
module Pci {
  import opened Common

  /** What `port` returns for an address word: the dword read from 0xCFC. */
  type ConfigPort = bv32 -> bv32

  /** One invocation of the scan's callback. */
  datatype PciFunction = PciFunction(bus: bv8, dev: nat, func: nat,
                                     classCode: bv8, subclass: bv8, progIf: bv8)

  /** The configuration-address word: enable bit, bus, device, function and the
      dword-aligned register offset (section 3.2.2.3.2 of the PCI Local Bus Specification). */
  function PciAddress(bus: bv8, dev: bv8, func: bv8, offset: bv8): (a: bv32)
    ensures a & 0x8000_0000 != 0 && a & 0x3 == 0
  {
    0x8000_0000 | ((bus as bv32) << 16) | ((dev as bv32) << 11) | ((func as bv32) << 8)
      | ((offset as bv32) & 0xFC)
  }

  /** Each field of an in-range location can be read back from its address word. */
  lemma PciAddressFields(bus: bv8, dev: bv8, func: bv8, offset: bv8)
    ensures PciAddress(bus, dev, func, offset) & 0xFC == (offset as bv32) & 0xFC
    ensures (PciAddress(bus, dev, func, offset) >> 8) & 0x7 == (func as bv32) & 0x7
    ensures func < 8 ==> (PciAddress(bus, dev, func, offset) >> 11) & 0x1F == (dev as bv32) & 0x1F
    ensures dev < 32 ==> (PciAddress(bus, dev, func, offset) >> 16) & 0xFF == bus as bv32
  {
  }

  /** With device below 32 and function below 8 the fields do not overlap, so the
      address word is the sum of its shifted fields. */
  lemma PciAddressIsSum(bus: bv8, dev: bv8, func: bv8, offset: bv8)
    requires dev < 32 && func < 8
    ensures PciAddress(bus, dev, func, offset)
         == 0x8000_0000 + ((bus as bv32) << 16) + ((dev as bv32) << 11) + ((func as bv32) << 8)
            + ((offset as bv32) & 0xFC)
  {
  }

  /** Two in-range locations share an address word only when they name the same
      bus, device, function and dword. */
  lemma PciAddressInjective(b1: bv8, d1: bv8, f1: bv8, o1: bv8, b2: bv8, d2: bv8, f2: bv8, o2: bv8)
    requires d1 < 32 && f1 < 8 && d2 < 32 && f2 < 8
    requires PciAddress(b1, d1, f1, o1) == PciAddress(b2, d2, f2, o2)
    ensures b1 == b2 && d1 == d2 && f1 == f2 && o1 & 0xFC == o2 & 0xFC
  {
    var a := PciAddress(b1, d1, f1, o1);
    PciAddressFields(b1, d1, f1, o1);
    PciAddressFields(b2, d2, f2, o2);
    assert (a >> 16) & 0xFF == b1 as bv32 == b2 as bv32;
    assert (a >> 11) & 0x1F == d1 as bv32 == d2 as bv32;
    assert (a >> 8) & 0x7 == f1 as bv32 == f2 as bv32;
    assert (o1 as bv32) & 0xFC == a & 0xFC == (o2 as bv32) & 0xFC;
    assert ((o1 as bv32) & 0xFC) as bv8 == o1 & 0xFC;
    assert ((o2 as bv32) & 0xFC) as bv8 == o2 & 0xFC;
  }

  function ReadConfig32(port: ConfigPort, bus: bv8, dev: bv8, func: bv8, offset: bv8): bv32
  {
    port(PciAddress(bus, dev, func, offset))
  }

  /** `pci_read_config16`: the dword shifted right by `(offset & 2) * 8` (0 or 16)
      and truncated to 16 bits. */
  function ReadConfig16(port: ConfigPort, bus: bv8, dev: bv8, func: bv8, offset: bv8): bv16
  {
    var value := ReadConfig32(port, bus, dev, func, offset);
    if offset & 2 == 0 then (value & 0xFFFF) as bv16 else (value >> 16) as bv16
  }

  /** `pci_read_config8`: byte `offset & 3` of the dword. */
  function ReadConfig8(port: ConfigPort, bus: bv8, dev: bv8, func: bv8, offset: bv8): bv8
  {
    ByteOf(ReadConfig32(port, bus, dev, func, offset), offset & 3)
  }

  /** The two narrow readers agree with each other: a 16-bit read at an even
      offset is the little-endian pair of the 8-bit reads at that offset and the next. */
  lemma Read16IsTwoReads8(port: ConfigPort, bus: bv8, dev: bv8, func: bv8, offset: bv8)
    requires offset & 1 == 0
    ensures ReadConfig16(port, bus, dev, func, offset)
         == Le16(ReadConfig8(port, bus, dev, func, offset), ReadConfig8(port, bus, dev, func, offset + 1))
  {
    assert PciAddress(bus, dev, func, offset + 1) == PciAddress(bus, dev, func, offset);
    assert (offset + 1) & 3 == (offset & 3) + 1;
  }

  /** An 8-bit read at `offset + k` of an aligned dword selects byte `k` of the dword. */
  lemma Read8OfAligned(port: ConfigPort, bus: bv8, dev: bv8, func: bv8, offset: bv8, k: bv8)
    requires offset & 3 == 0 && k < 4
    ensures ReadConfig8(port, bus, dev, func, offset + k) == ByteOf(ReadConfig32(port, bus, dev, func, offset), k)
  {
    assert PciAddress(bus, dev, func, offset + k) == PciAddress(bus, dev, func, offset);
    assert (offset + k) & 3 == k;
  }

  /** The four 8-bit reads of an aligned dword reassemble what the 32-bit read returns. */
  lemma Read32IsFourReads8(port: ConfigPort, bus: bv8, dev: bv8, func: bv8, offset: bv8)
    requires offset & 3 == 0
    ensures ReadConfig32(port, bus, dev, func, offset)
         == Le32(ReadConfig8(port, bus, dev, func, offset), ReadConfig8(port, bus, dev, func, offset + 1),
                 ReadConfig8(port, bus, dev, func, offset + 2), ReadConfig8(port, bus, dev, func, offset + 3))
  {
    Read8OfAligned(port, bus, dev, func, offset, 0);
    assert offset + 0 == offset;
    Read8OfAligned(port, bus, dev, func, offset, 1);
    Read8OfAligned(port, bus, dev, func, offset, 2);
    Read8OfAligned(port, bus, dev, func, offset, 3);
    Le32OfBytes(ReadConfig32(port, bus, dev, func, offset));
  }

  // ---------------------------------------------------------------------------
  // The bus-0 scan

  function Vendor(port: ConfigPort, dev: nat, func: nat): bv16
    requires dev < 32 && func < 8
  {
    ReadConfig16(port, 0, dev as bv8, func as bv8, 0x00)
  }

  /** The callback arguments for one function: class, subclass and prog-if come
      from configuration offsets 0x0B, 0x0A and 0x09. */
  function Record(port: ConfigPort, dev: nat, func: nat): (r: PciFunction)
    requires dev < 32 && func < 8
    ensures r.bus == 0 && r.dev == dev && r.func == func
  {
    PciFunction(0, dev, func,
                ReadConfig8(port, 0, dev as bv8, func as bv8, 0x0B),
                ReadConfig8(port, 0, dev as bv8, func as bv8, 0x0A),
                ReadConfig8(port, 0, dev as bv8, func as bv8, 0x09))
  }

  /** A function is reported when its own vendor id and that of function 0 of
      its device are both different from 0xFFFF. */
  predicate Present(port: ConfigPort, dev: int, func: int)
  {
    0 <= dev < 32 && 0 <= func < 8 && Vendor(port, dev, 0) != 0xFFFF && Vendor(port, dev, func) != 0xFFFF
  }

  /** The callbacks of device `dev` from function `func` on, following the loop:
      an absent function 0 ends the device, an absent later function is skipped. */
  function DeviceCalls(port: ConfigPort, dev: nat, func: nat): seq<PciFunction>
    requires dev < 32 && func <= 8
    decreases 8 - func
  {
    if func == 8 then []
    else if Vendor(port, dev, func) == 0xFFFF then
      (if func == 0 then [] else DeviceCalls(port, dev, func + 1))
    else [Record(port, dev, func)] + DeviceCalls(port, dev, func + 1)
  }

  function BusCalls(port: ConfigPort, dev: nat): seq<PciFunction>
    requires dev <= 32
    decreases 32 - dev
  {
    if dev == 32 then [] else DeviceCalls(port, dev, 0) + BusCalls(port, dev + 1)
  }

  /** Orders (device, function) pairs as the loops visit them. */
  function Slot(f: PciFunction): int { f.dev * 8 + f.func }

  /** The inner loop of `pci_scan_bus0` for one device: functions 0 to 7, stopping
      at an absent function 0 and skipping absent later ones. */
  method ScanDevice(port: ConfigPort, dev: nat) returns (calls: seq<PciFunction>)
    requires dev < 32
    ensures calls == DeviceCalls(port, dev, 0)
  {
    calls := [];
    var func := 0;
    ghost var all := DeviceCalls(port, dev, func);
    assert calls + all == all;
    while func < 8
      invariant 0 <= func <= 8
      invariant calls + DeviceCalls(port, dev, func) == all
    {
      var vendor := ReadConfig16(port, 0, dev as bv8, func as bv8, 0x00);
      if vendor == 0xFFFF {
        if func == 0 {
          return;
        }
        func := func + 1;
        continue;
      }
      var classCode := ReadConfig8(port, 0, dev as bv8, func as bv8, 0x0B);
      var subclass := ReadConfig8(port, 0, dev as bv8, func as bv8, 0x0A);
      var progIf := ReadConfig8(port, 0, dev as bv8, func as bv8, 0x09);
      var rec := PciFunction(0, dev, func, classCode, subclass, progIf);
      ConcatAssoc(calls, [rec], DeviceCalls(port, dev, func + 1));
      calls := calls + [rec];
      func := func + 1;
    }
  }

  /** `pci_scan_bus0`: with no callback nothing happens; otherwise the callback runs
      once per present function, in loop order. */
  method ScanBus0(port: ConfigPort, hasCallback: bool) returns (calls: seq<PciFunction>)
    ensures calls == if hasCallback then BusCalls(port, 0) else []
  {
    calls := [];
    if hasCallback {
      calls := ScanDevices(port);
    }
  }

  /** The outer loop of `pci_scan_bus0`: devices 0 to 31, in order. */
  method ScanDevices(port: ConfigPort) returns (calls: seq<PciFunction>)
    ensures calls == BusCalls(port, 0)
  {
    calls := [];
    var dev := 0;
    ghost var all := BusCalls(port, 0);
    BusCallsStart(port);
    while dev < 32
      invariant 0 <= dev <= 32
      invariant Owes(port, dev, calls, all)
    {
      var device := ScanDevice(port, dev);
      BusCallsStep(port, dev, calls, all);
      calls := calls + device;
      dev := dev + 1;
    }
    BusCallsEnd(port, calls, all);
  }

  /** The scan has produced `calls` and still owes the callbacks of devices
      `dev` to 31 before it has produced `all`. */
  predicate Owes(port: ConfigPort, dev: nat, calls: seq<PciFunction>, all: seq<PciFunction>)
    requires dev <= 32
  {
    calls + BusCalls(port, dev) == all
  }

  /** Before the first device the whole bus walk is owed. */
  lemma BusCallsStart(port: ConfigPort)
    ensures Owes(port, 0, [], BusCalls(port, 0))
  {
    assert [] + BusCalls(port, 0) == BusCalls(port, 0);
  }

  /** Nothing is left to walk after the last device. */
  lemma BusCallsEnd(port: ConfigPort, calls: seq<PciFunction>, all: seq<PciFunction>)
    requires Owes(port, 32, calls, all)
    ensures calls == all
  {
    assert calls + [] == calls;
  }

  /** One device of the bus walk: what is left after `calls` is this device's
      functions and then the rest of the bus. */
  lemma BusCallsStep(port: ConfigPort, dev: nat, calls: seq<PciFunction>, all: seq<PciFunction>)
    requires dev < 32 && Owes(port, dev, calls, all)
    ensures Owes(port, dev + 1, calls + DeviceCalls(port, dev, 0), all)
  {
    ConcatAssoc(calls, DeviceCalls(port, dev, 0), BusCalls(port, dev + 1));
  }

  lemma {:induction false} DeviceCallsSound(port: ConfigPort, dev: nat, func: nat)
    requires dev < 32 && func <= 8
    requires func > 0 ==> Vendor(port, dev, 0) != 0xFFFF
    decreases 8 - func
    ensures forall c :: c in DeviceCalls(port, dev, func) ==>
      c.dev == dev && func <= c.func < 8 && Present(port, dev, c.func) && c == Record(port, dev, c.func)
  {
    if func < 8 && (Vendor(port, dev, func) != 0xFFFF || func > 0) {
      DeviceCallsSound(port, dev, func + 1);
    }
  }

  lemma {:induction false} BusCallsSound(port: ConfigPort, dev: nat)
    requires dev <= 32
    decreases 32 - dev
    ensures forall c :: c in BusCalls(port, dev) ==>
      dev <= c.dev && Present(port, c.dev, c.func) && c == Record(port, c.dev, c.func)
  {
    if dev < 32 {
      DeviceCallsSound(port, dev, 0);
      BusCallsSound(port, dev + 1);
    }
  }

  /** Every callback is for a present function of bus 0, with the class triple
      read from that function. */
  lemma ScanSound(port: ConfigPort)
    ensures forall c :: c in BusCalls(port, 0) ==>
      Present(port, c.dev, c.func) && c == Record(port, c.dev, c.func)
  {
    BusCallsSound(port, 0);
  }

  /** An absent function 0 suppresses the callback for every function of that device. */
  lemma AbsentDeviceSilent(port: ConfigPort, dev: nat)
    requires dev < 32 && Vendor(port, dev, 0) == 0xFFFF
    ensures forall c :: c in BusCalls(port, 0) ==> c.dev != dev
  {
    ScanSound(port);
  }

  lemma {:induction false} DeviceCallsComplete(port: ConfigPort, dev: nat, func: nat, f: nat)
    requires dev < 32 && func <= f < 8 && Present(port, dev, f)
    ensures Record(port, dev, f) in DeviceCalls(port, dev, func)
    decreases 8 - func
  {
    if func < f {
      DeviceCallsComplete(port, dev, func + 1, f);
    }
  }

  lemma {:induction false} BusCallsComplete(port: ConfigPort, dev: nat, d: nat, f: nat)
    requires dev <= d < 32 && f < 8 && Present(port, d, f)
    ensures Record(port, d, f) in BusCalls(port, dev)
    decreases 32 - dev
  {
    if dev == d {
      DeviceCallsComplete(port, d, 0, f);
    } else {
      BusCallsComplete(port, dev + 1, d, f);
    }
  }

  /** Every present function of bus 0 gets a callback. */
  lemma ScanComplete(port: ConfigPort, dev: nat, func: nat)
    requires Present(port, dev, func)
    ensures Record(port, dev, func) in BusCalls(port, 0)
  {
    BusCallsComplete(port, 0, dev, func);
  }

  predicate SlotsIncreasing(s: seq<PciFunction>)
  {
    forall i, j :: 0 <= i < j < |s| ==> Slot(s[i]) < Slot(s[j])
  }

  lemma ConcatIncreasing(d: seq<PciFunction>, r: seq<PciFunction>)
    requires SlotsIncreasing(d) && SlotsIncreasing(r)
    requires forall x, y :: x in d && y in r ==> Slot(x) < Slot(y)
    ensures SlotsIncreasing(d + r)
  {
    forall i, j | 0 <= i < j < |d + r| ensures Slot((d + r)[i]) < Slot((d + r)[j]) {
      if j < |d| {
        assert (d + r)[i] == d[i] && (d + r)[j] == d[j];
      } else if i < |d| {
        assert (d + r)[i] == d[i] && (d + r)[j] == r[j - |d|];
        assert d[i] in d && r[j - |d|] in r;
      } else {
        assert (d + r)[i] == r[i - |d|] && (d + r)[j] == r[j - |d|];
      }
    }
  }

  lemma {:induction false} DeviceCallsOrdered(port: ConfigPort, dev: nat, func: nat)
    requires dev < 32 && func <= 8
    ensures SlotsIncreasing(DeviceCalls(port, dev, func))
    ensures forall c :: c in DeviceCalls(port, dev, func) ==> c.dev == dev && func <= c.func < 8
    decreases 8 - func
  {
    if func < 8 {
      DeviceCallsOrdered(port, dev, func + 1);
      if Vendor(port, dev, func) != 0xFFFF {
        ConcatIncreasing([Record(port, dev, func)], DeviceCalls(port, dev, func + 1));
      }
    }
  }

  lemma {:induction false} BusCallsOrdered(port: ConfigPort, dev: nat)
    requires dev <= 32
    ensures SlotsIncreasing(BusCalls(port, dev))
    ensures forall c :: c in BusCalls(port, dev) ==> dev <= c.dev < 32
    decreases 32 - dev
  {
    if dev < 32 {
      DeviceCallsOrdered(port, dev, 0);
      BusCallsOrdered(port, dev + 1);
      ConcatIncreasing(DeviceCalls(port, dev, 0), BusCalls(port, dev + 1));
    }
  }

  /** Callbacks arrive in strictly increasing (device, function) order, so no
      function is reported twice. */
  lemma ScanOrdered(port: ConfigPort)
    ensures forall i, j :: 0 <= i < j < |BusCalls(port, 0)| ==>
      Slot(BusCalls(port, 0)[i]) < Slot(BusCalls(port, 0)[j])
  {
    BusCallsOrdered(port, 0);
  }
}
