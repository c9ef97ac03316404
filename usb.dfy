/** Controller discovery, device enumeration, configuration-descriptor parsing and
    HID polling of src/usb.c.

    usb.c hands every control transfer to `ehci_control_transfer` on the first EHCI
    controller. Seen from usb.c a transfer is a request (device address, endpoint,
    maximum packet size, the 8-byte setup packet, data length and direction) and a
    reply: whether it succeeded and which bytes the device left in the first `length`
    bytes of the buffer. Both are chosen by the device, so they are inputs; the class
    `Pipe` records each exchange, and the enumeration is specified as a function of
    the replies received.

    Descriptor and packet bytes are the integers 0..255 (`byte`), so that the parse is
    plain integer arithmetic; the PCI and MMIO values stay bit-vectors. */
module Usb {
  import opened Common
  import Hw
  import Pci
  import Ehci
  import Input
  import UsbHid

  /** A C `uint8_t`. */
  type byte = b: int | 0 <= b < 256

  /** A 16-bit field of a setup packet. */
  type word = w: int | 0 <= w < 0x10000

  const MAX_CONTROLLERS: nat := 8

  /** Every request of usb.c goes to endpoint 0 with a maximum packet size of 64. */
  const MAX_PACKET: nat := 64

  /** Size of the `cfg_desc` and `report` buffers. */
  const BUF_SIZE: nat := 64

  // ---------------------------------------------------------------------------
  // Setup packets (section 9.3 of the USB 2.0 specification)

  /** A little-endian 16-bit value, such as C's `(uint16_t)(lo | (hi << 8))`. */
  function Word(lo: byte, hi: byte): word
  {
    lo + 256 * hi
  }

  function Lo(w: word): byte { w % 256 }
  function Hi(w: word): byte { w / 256 }

  /** The five fields of a setup packet: bmRequestType, bRequest, wValue, wIndex, wLength. */
  datatype Setup = Setup(requestType: byte, request: byte, value: word, index: word, length: word)

  /** The 8 bytes on the wire, 16-bit fields little-endian. */
  function EncodeSetup(s: Setup): (p: seq<byte>)
    ensures |p| == 8
  {
    [s.requestType, s.request, Lo(s.value), Hi(s.value), Lo(s.index), Hi(s.index), Lo(s.length), Hi(s.length)]
  }

  function DecodeSetup(p: seq<byte>): (s: Option<Setup>)
    ensures s.Some? <==> |p| == 8
  {
    if |p| != 8 then None
    else Some(Setup(p[0], p[1], Word(p[2], p[3]), Word(p[4], p[5]), Word(p[6], p[7])))
  }

  /** Splitting a word into its bytes and joining them again are inverse. */
  lemma WordOfBytes(w: word)
    ensures Word(Lo(w), Hi(w)) == w
  {
  }

  lemma BytesOfWord(lo: byte, hi: byte)
    ensures Lo(Word(lo, hi)) == lo && Hi(Word(lo, hi)) == hi
  {
    var w := lo + 256 * hi;
    assert w == 256 * hi + lo && 0 <= lo < 256;
    assert w / 256 == hi;
  }

  lemma DecodeEncode(s: Setup)
    ensures DecodeSetup(EncodeSetup(s)) == Some(s)
  {
    WordOfBytes(s.value);
    WordOfBytes(s.index);
    WordOfBytes(s.length);
  }

  lemma EncodeDecode(p: seq<byte>)
    requires |p| == 8
    ensures EncodeSetup(DecodeSetup(p).value) == p
  {
    BytesOfWord(p[2], p[3]);
    BytesOfWord(p[4], p[5]);
    BytesOfWord(p[6], p[7]);
  }

  /** Bit 7 of bmRequestType: the data stage goes from device to host. */
  predicate DeviceToHost(requestType: byte)
  {
    requestType >= 0x80
  }

  /** Standard request codes (section 9.4 of USB 2.0) and HID class request codes
      (section 7.2 of HID 1.11). */
  const GET_DESCRIPTOR: byte := 0x06
  const SET_ADDRESS: byte := 0x05
  const SET_CONFIGURATION: byte := 0x09
  const HID_GET_REPORT: byte := 0x01
  const HID_SET_PROTOCOL: byte := 0x0B

  /** bmRequestType: bit 7 the direction (1 = device to host), bits 6:5 the type
      (0 standard, 1 class), bits 4:0 the recipient (0 device, 1 interface). */
  const STD_IN_DEVICE: byte := 0x80
  const STD_OUT_DEVICE: byte := 0x00
  const CLASS_IN_INTERFACE: byte := 0xA1
  const CLASS_OUT_INTERFACE: byte := 0x21

  /** wValue of GET_DESCRIPTOR: descriptor type in the high byte, index in the low byte. */
  const DEVICE_DESCRIPTOR: word := 0x0100
  const CONFIGURATION_DESCRIPTOR: word := 0x0200

  /** wValue of Get_Report: report type Input (1) in the high byte, report id 0. */
  const INPUT_REPORT: word := 0x0100

  /** One control transfer as passed to `ehci_control_transfer`. */
  datatype Request = Request(addr: byte, ep: byte, maxPacket: nat, setup: seq<byte>, length: nat, inDir: bool)

  /** C's `(uint8_t)x`. */
  function Low8(x: u32): byte
  {
    x % 256
  }

  /** `usb_get_device_descriptor`. */
  function GetDeviceDescriptor(addr: byte, len: u32): Request
  {
    Request(addr, 0, MAX_PACKET, [0x80, 0x06, 0x00, 0x01, 0x00, 0x00, Low8(len), 0x00], len, true)
  }

  /** `usb_set_address`: sent to the default address 0, no data stage. */
  function SetAddress(addr: byte): Request
  {
    Request(0, 0, MAX_PACKET, [0x00, 0x05, addr, 0x00, 0x00, 0x00, 0x00, 0x00], 0, false)
  }

  /** `usb_get_config_descriptor`. */
  function GetConfigDescriptor(addr: byte, len: u32): Request
  {
    Request(addr, 0, MAX_PACKET, [0x80, 0x06, 0x00, 0x02, 0x00, 0x00, Low8(len), 0x00], len, true)
  }

  /** `usb_set_configuration`. */
  function SetConfiguration(addr: byte, cfg: byte): Request
  {
    Request(addr, 0, MAX_PACKET, [0x00, 0x09, cfg, 0x00, 0x00, 0x00, 0x00, 0x00], 0, false)
  }

  /** `usb_set_protocol` (protocol 0 selects the boot protocol). */
  function SetProtocol(addr: byte, iface: byte, protocol: byte): Request
  {
    Request(addr, 0, MAX_PACKET, [0x21, 0x0B, protocol, 0x00, iface, 0x00, 0x00, 0x00], 0, false)
  }

  /** `usb_get_report`. */
  function GetReport(addr: byte, iface: byte, len: byte): Request
  {
    Request(addr, 0, MAX_PACKET, [0xA1, 0x01, 0x00, 0x01, iface, 0x00, len, 0x00], len, true)
  }

  /** A request whose transfer agrees with its own setup packet: a well-formed packet
      on endpoint 0 with packets of 64 bytes, a data stage exactly wLength bytes long
      and, when there is one, in the direction bit 7 of bmRequestType names. */
  predicate Consistent(r: Request)
  {
    var s := DecodeSetup(r.setup);
    s.Some? && r.ep == 0 && r.maxPacket == MAX_PACKET && r.length == s.value.length
    && (r.length > 0 ==> (r.inDir <==> DeviceToHost(s.value.requestType)))
  }

  /** GET_DESCRIPTOR(DEVICE) carries the standard fields, with wLength the low byte of
      the length asked for; it is consistent exactly when the length fits that byte
      (usb.c asks for 8 and 18). */
  lemma GetDeviceDescriptorFields(addr: byte, len: u32)
    ensures DecodeSetup(GetDeviceDescriptor(addr, len).setup)
      == Some(Setup(STD_IN_DEVICE, GET_DESCRIPTOR, DEVICE_DESCRIPTOR, 0, Low8(len)))
    ensures Consistent(GetDeviceDescriptor(addr, len)) <==> len < 256
  {
  }

  /** GET_DESCRIPTOR(CONFIGURATION), likewise (usb.c asks for 9 and at most 64). */
  lemma GetConfigDescriptorFields(addr: byte, len: u32)
    ensures DecodeSetup(GetConfigDescriptor(addr, len).setup)
      == Some(Setup(STD_IN_DEVICE, GET_DESCRIPTOR, CONFIGURATION_DESCRIPTOR, 0, Low8(len)))
    ensures Consistent(GetConfigDescriptor(addr, len)) <==> len < 256
  {
  }

  /** SET_ADDRESS goes to address 0 and carries the new address in wValue. */
  lemma SetAddressFields(addr: byte)
    ensures SetAddress(addr).addr == 0
    ensures DecodeSetup(SetAddress(addr).setup) == Some(Setup(STD_OUT_DEVICE, SET_ADDRESS, addr, 0, 0))
    ensures Consistent(SetAddress(addr))
  {
  }

  lemma SetConfigurationFields(addr: byte, cfg: byte)
    ensures DecodeSetup(SetConfiguration(addr, cfg).setup) == Some(Setup(STD_OUT_DEVICE, SET_CONFIGURATION, cfg, 0, 0))
    ensures Consistent(SetConfiguration(addr, cfg))
  {
  }

  /** Set_Protocol is a class request to the interface: wValue the protocol, wIndex the interface. */
  lemma SetProtocolFields(addr: byte, iface: byte, protocol: byte)
    ensures DecodeSetup(SetProtocol(addr, iface, protocol).setup)
      == Some(Setup(CLASS_OUT_INTERFACE, HID_SET_PROTOCOL, protocol, iface, 0))
    ensures Consistent(SetProtocol(addr, iface, protocol))
  {
  }

  /** Get_Report asks for the Input report, wLength being the transfer length. */
  lemma GetReportFields(addr: byte, iface: byte, len: byte)
    ensures DecodeSetup(GetReport(addr, iface, len).setup)
      == Some(Setup(CLASS_IN_INTERFACE, HID_GET_REPORT, INPUT_REPORT, iface, len))
    ensures Consistent(GetReport(addr, iface, len))
  {
  }

  // ---------------------------------------------------------------------------
  // Transfers

  /** A request and the device's reply. */
  datatype Exchange = Exchange(req: Request, ok: bool, data: seq<byte>)

  /** The requests of an exchange trace, in order. */
  function Requests(t: seq<Exchange>): seq<Request>
  {
    seq(|t|, i requires 0 <= i < |t| => t[i].req)
  }

  /** A trace that grows by exchanges adds their requests at the end, so the requests
      already sent stay a prefix of the ones sent later. */
  lemma RequestsAppend(a: seq<Exchange>, b: seq<Exchange>)
    ensures Requests(a + b) == Requests(a) + Requests(b)
    ensures Requests(a) <= Requests(a + b)
  {
    assert forall i :: 0 <= i < |a| + |b| ==> Requests(a + b)[i] == (Requests(a) + Requests(b))[i];
  }

  /** `ehci_control_transfer` on the first EHCI controller. The device decides the
      outcome and the bytes in the first `length` bytes of the buffer; the rest of the
      buffer is left alone. The exchange is appended to `trace`. */
  class Pipe {
    var trace: seq<Exchange>

    constructor ()
      ensures trace == []
    {
      trace := [];
    }

    method Transfer(req: Request, buf: array?<byte>) returns (ok: bool)
      requires buf == null ==> req.length == 0
      requires buf != null ==> req.length <= buf.Length
      modifies this, buf
      ensures buf != null ==> forall j :: req.length <= j < buf.Length ==> buf[j] == old(buf[j])
      ensures trace == old(trace) + [Exchange(req, ok, if buf == null then [] else buf[..req.length])]
    {
      if buf != null {
        var i := 0;
        while i < req.length
          invariant 0 <= i <= req.length && trace == old(trace)
          invariant forall j :: req.length <= j < buf.Length ==> buf[j] == old(buf[j])
        {
          var b: byte :| true;
          buf[i] := b;
          i := i + 1;
        }
      }
      ok :| true;
      trace := trace + [Exchange(req, ok, if buf == null then [] else buf[..req.length])];
    }
  }

  // ---------------------------------------------------------------------------
  // The HID device record and the configuration-descriptor parse

  /** `struct usb_device`. */
  datatype HidDevice = HidDevice(addr: byte, interfaceNum: byte, protocol: byte, reportLen: byte,
                                 isKeyboard: bool, isMouse: bool)

  const NO_DEVICE := HidDevice(0, 0, 0, 0, false, false)

  /** The keyboard and mouse flags follow the interface protocol (1 keyboard, 2 mouse). */
  predicate FlagsFollowProtocol(h: HidDevice)
  {
    h.isKeyboard == (h.protocol == 1) && h.isMouse == (h.protocol == 2)
  }

  /** A HID boot interface: an interface descriptor (type 4, at least 9 bytes) of class 3
      (HID) and subclass 1 (boot), lying within the `total` bytes received. */
  predicate BootInterface(d: seq<byte>, total: nat, o: nat)
    requires total <= |d|
  {
    o + 9 <= total && d[o + 1] == 0x04 && d[o] >= 9 && d[o + 5] == 0x03 && d[o + 6] == 0x01
  }

  /** The effect of the descriptor at `idx` on the device record. Only a descriptor
      whose nine bytes were all received is used; a HID descriptor (type 0x21) sets the
      report length from bytes 7 and 8 when that value is in 1..64. */
  function Absorb(d: seq<byte>, total: nat, idx: nat, h: HidDevice): (r: HidDevice)
    requires total <= |d|
  {
    if idx + 9 > total then h
    else if d[idx + 1] == 0x04 && d[idx] >= 9 then
      if BootInterface(d, total, idx) then
        h.(interfaceNum := d[idx + 2], protocol := d[idx + 7], isKeyboard := d[idx + 7] == 1, isMouse := d[idx + 7] == 2)
      else h
    else if d[idx + 1] == 0x21 && d[idx] >= 9 then
      var n := Word(d[idx + 7], d[idx + 8]);
      if 0 < n <= 64 then h.(reportLen := n) else h
    else h
  }

  /** The parse loop from offset `idx`: it stops at a zero length or once `idx + 2`
      reaches `total`, and otherwise moves on by the descriptor's own length. */
  function Parse(d: seq<byte>, total: nat, idx: nat, h: HidDevice): HidDevice
    requires total <= |d|
    decreases total - idx
  {
    if idx + 2 >= total || d[idx] == 0 then h
    else Parse(d, total, idx + d[idx], Absorb(d, total, idx, h))
  }

  /** The offsets of the descriptors the loop looks at. */
  function Visited(d: seq<byte>, total: nat, idx: nat): seq<nat>
    requires total <= |d|
    decreases total - idx
  {
    if idx + 2 >= total || d[idx] == 0 then []
    else [idx] + Visited(d, total, idx + d[idx])
  }

  /** The last boot interface among the offsets `vs`. */
  function LastBootInterface(d: seq<byte>, total: nat, vs: seq<nat>): (o: Option<nat>)
    requires total <= |d|
    ensures o.Some? ==> o.value in vs && BootInterface(d, total, o.value)
  {
    if vs == [] then None
    else
      var later := LastBootInterface(d, total, vs[1..]);
      if later.Some? then later
      else if BootInterface(d, total, vs[0]) then Some(vs[0])
      else None
  }

  /** The interface number and protocol the last boot interface among `vs` supplies,
      or those of `h` when there is none. */
  function ExpectedInterface(d: seq<byte>, total: nat, vs: seq<nat>, h: HidDevice): (byte, byte)
    requires total <= |d|
  {
    match LastBootInterface(d, total, vs)
    case None => (h.interfaceNum, h.protocol)
    case Some(o) => (d[o + 2], d[o + 7])
  }

  /** When several boot interfaces are present the last one wins; with none the
      interface fields are those the parse started with. */
  lemma {:induction false} ParseTakesLastInterface(d: seq<byte>, total: nat, idx: nat, h: HidDevice)
    requires total <= |d|
    decreases total - idx
    ensures var r := Parse(d, total, idx, h);
      (r.interfaceNum, r.protocol) == ExpectedInterface(d, total, Visited(d, total, idx), h)
  {
    if idx + 2 < total && d[idx] != 0 {
      var next := idx + d[idx];
      var h' := Absorb(d, total, idx, h);
      ParseTakesLastInterface(d, total, next, h');
      ExpectedStep(d, total, idx, Visited(d, total, next), h);
      assert Visited(d, total, idx) == [idx] + Visited(d, total, next);
    }
  }

  /** One step of `ExpectedInterface`, by way of `Absorb`. */
  lemma ExpectedStep(d: seq<byte>, total: nat, idx: nat, rest: seq<nat>, h: HidDevice)
    requires total <= |d|
    ensures ExpectedInterface(d, total, [idx] + rest, h) == ExpectedInterface(d, total, rest, Absorb(d, total, idx, h))
  {
    assert ([idx] + rest)[1..] == rest;
  }

  /** The parse keeps the address and the flag/protocol agreement, and leaves the
      report length either as it was or in 1..64. */
  lemma {:induction false} ParseBounds(d: seq<byte>, total: nat, idx: nat, h: HidDevice)
    requires total <= |d|
    decreases total - idx
    ensures var r := Parse(d, total, idx, h);
      r.addr == h.addr
      && (FlagsFollowProtocol(h) ==> FlagsFollowProtocol(r))
      && (r.reportLen == h.reportLen || 1 <= r.reportLen <= 64)
  {
    if idx + 2 < total && d[idx] != 0 {
      ParseBounds(d, total, idx + d[idx], Absorb(d, total, idx, h));
    }
  }

  /** The parse depends only on the bytes the device sent. */
  lemma {:induction false} ParseUsesOnlyReceived(d1: seq<byte>, d2: seq<byte>, total: nat, idx: nat, h: HidDevice)
    requires total <= |d1| && total <= |d2| && d1[..total] == d2[..total]
    decreases total - idx
    ensures Parse(d1, total, idx, h) == Parse(d2, total, idx, h)
  {
    if idx + 2 < total {
      assert d1[idx] == d1[..total][idx] == d2[idx];
      if d1[idx] != 0 {
        AbsorbUsesOnlyReceived(d1, d2, total, idx, h);
        ParseUsesOnlyReceived(d1, d2, total, idx + d1[idx], Absorb(d1, total, idx, h));
      }
    }
  }

  lemma AbsorbUsesOnlyReceived(d1: seq<byte>, d2: seq<byte>, total: nat, idx: nat, h: HidDevice)
    requires total <= |d1| && total <= |d2| && d1[..total] == d2[..total]
    ensures Absorb(d1, total, idx, h) == Absorb(d2, total, idx, h)
  {
    if idx + 9 <= total {
      forall k | idx <= k < idx + 9
        ensures d1[k] == d2[k]
      {
        assert d1[k] == d1[..total][k];
        assert d2[k] == d2[..total][k];
      }
    }
  }

  /** The descriptor step as written: the fields at `idx + 2 .. idx + 8` are read
      whenever the loop condition `idx + 2 < total` holds. `mem` is memory from the
      start of `cfg_desc` on, including what lies beyond its 64 bytes. */
  function AbsorbAsWritten(mem: seq<byte>, idx: nat, h: HidDevice): HidDevice
    requires idx + 9 <= |mem|
  {
    if mem[idx + 1] == 0x04 && mem[idx] >= 9 then
      if mem[idx + 5] == 0x03 && mem[idx + 6] == 0x01 then
        h.(interfaceNum := mem[idx + 2], protocol := mem[idx + 7], isKeyboard := mem[idx + 7] == 1, isMouse := mem[idx + 7] == 2)
      else h
    else if mem[idx + 1] == 0x21 && mem[idx] >= 9 then
      var n := Word(mem[idx + 7], mem[idx + 8]);
      if 0 < n <= 64 then h.(reportLen := n) else h
    else h
  }

  function ParseAsWritten(mem: seq<byte>, total: nat, idx: nat, h: HidDevice): HidDevice
    requires total + 6 <= |mem|
    decreases total - idx
  {
    if idx + 2 >= total || mem[idx] == 0 then h
    else ParseAsWritten(mem, total, idx + mem[idx], AbsorbAsWritten(mem, idx, h))
  }

  /** As written, a full 64-byte configuration whose second descriptor is 52 bytes long
      puts a HID descriptor at offset 61, and its length field is read from
      `cfg_desc[68]` and `cfg_desc[69]`, past the end of the array: two memories that
      agree on the whole array give different report lengths. */
  lemma ParseReadsPastBuffer(mem1: seq<byte>, mem2: seq<byte>)
    requires |mem1| == 70 && |mem2| == 70 && mem1[..64] == mem2[..64]
    requires mem1[9] == 52 && mem1[10] == 0x05 && mem1[61] == 9 && mem1[62] == 0x21
    requires mem1[68] == 8 && mem1[69] == 0 && mem2[68] == 16 && mem2[69] == 0
    ensures ParseAsWritten(mem1, 64, 9, NO_DEVICE).reportLen == 8
    ensures ParseAsWritten(mem2, 64, 9, NO_DEVICE).reportLen == 16
  {
    assert mem2[9] == mem1[..64][9] && mem2[10] == mem1[..64][10];
    assert mem2[61] == mem1[..64][61] && mem2[62] == mem1[..64][62];
    var h1 := AbsorbAsWritten(mem1, 9, NO_DEVICE);
    var h2 := AbsorbAsWritten(mem2, 9, NO_DEVICE);
    assert ParseAsWritten(mem1, 64, 9, NO_DEVICE) == ParseAsWritten(mem1, 64, 61, h1);
    assert ParseAsWritten(mem2, 64, 9, NO_DEVICE) == ParseAsWritten(mem2, 64, 61, h2);
  }

  /** With the corrected bound the same configuration leaves the report length alone,
      whatever lies beyond the array. */
  lemma ParseIgnoresTruncatedDescriptor(d: seq<byte>)
    requires |d| == 64 && d[9] == 52 && d[10] == 0x05 && d[61] == 9 && d[62] == 0x21
    ensures Parse(d, 64, 9, NO_DEVICE).reportLen == 0
  {
    assert Parse(d, 64, 9, NO_DEVICE) == Parse(d, 64, 61, NO_DEVICE);
  }

  /** A device record still without a report length gets 8 for a keyboard and 3
      otherwise. */
  function WithDefaultReportLen(h: HidDevice): (r: HidDevice)
    ensures r.reportLen != 0
    ensures h.reportLen != 0 ==> r == h
    ensures h.reportLen == 0 ==> r == h.(reportLen := if h.isKeyboard then 8 else 3)
  {
    if h.reportLen == 0 then h.(reportLen := if h.isKeyboard then 8 else 3) else h
  }

  // ---------------------------------------------------------------------------
  // Enumeration

  /** `wTotalLength` from bytes 2 and 3 of the configuration header, clamped to the
      64-byte buffer. */
  function ConfigLength(lo: byte, hi: byte): (n: nat)
    ensures n <= BUF_SIZE
  {
    var t := Word(lo, hi);
    if t > BUF_SIZE then BUF_SIZE else t
  }

  /** A declared total length reads back as itself up to 64 and as 64 beyond. */
  lemma ConfigLengthClamps(total: word)
    ensures ConfigLength(Lo(total), Hi(total)) == if total > BUF_SIZE then BUF_SIZE else total
  {
  }

  /** Whether reply `k` succeeded. */
  predicate ReplyOk(t: seq<Exchange>, k: nat)
  {
    k < |t| && t[k].ok
  }

  /** Byte `i` of reply `k` (0 where the reply holds no such byte, which the pipe never
      produces for the lengths requested). */
  function ReplyByte(t: seq<Exchange>, k: nat, i: nat): byte
  {
    if k < |t| && i < |t[k].data| then t[k].data[i] else 0
  }

  /** The first `n` bytes of reply `k`. */
  function Received(t: seq<Exchange>, k: nat, n: nat): (d: seq<byte>)
    ensures |d| == n && forall i :: 0 <= i < n ==> d[i] == ReplyByte(t, k, i)
  {
    seq(n, i requires 0 <= i < n => ReplyByte(t, k, i))
  }

  /** The configuration length from the header read (reply 3). */
  function Total(t: seq<Exchange>): nat
  {
    ConfigLength(ReplyByte(t, 3, 2), ReplyByte(t, 3, 3))
  }

  /** What the configuration read leaves in `cfg_desc` at offset 5: the second read's
      byte when it was that long, otherwise the header's. */
  function ConfigValue(t: seq<Exchange>): byte
  {
    if Total(t) > 5 then ReplyByte(t, 4, 5) else ReplyByte(t, 3, 5)
  }

  /** The six enumeration requests, given the replies to the earlier ones. */
  function Steps(t: seq<Exchange>): (q: seq<Request>)
    ensures |q| == 6
  {
    [GetDeviceDescriptor(0, 8), SetAddress(1), GetDeviceDescriptor(1, 18), GetConfigDescriptor(1, 9),
     GetConfigDescriptor(1, Total(t)), SetConfiguration(1, ConfigValue(t))]
  }

  /** The first of steps `k`..5 whose reply failed, or 6. */
  function FirstFailure(t: seq<Exchange>, k: nat): (f: nat)
    requires k <= 6
    decreases 6 - k
    ensures k <= f <= 6
    ensures forall j :: k <= j < f ==> ReplyOk(t, j)
    ensures f < 6 ==> !ReplyOk(t, f)
  {
    if k == 6 || !ReplyOk(t, k) then k else FirstFailure(t, k + 1)
  }

  /** The device record after SET_ADDRESS succeeded. */
  const ADDRESSED := NO_DEVICE.(addr := 1)

  /** The device record once the configuration was set. */
  function Configured(t: seq<Exchange>): HidDevice
  {
    WithDefaultReportLen(Parse(Received(t, 4, Total(t)), Total(t), 9, ADDRESSED))
  }

  /** The requests the host sends and the device record it ends with. */
  datatype Outcome = Outcome(requests: seq<Request>, device: HidDevice)

  /** Lines 113-185 of `usb_init` as a function of the replies `t`: the steps are sent
      up to the first failure, the address is 1 once SET_ADDRESS succeeded, and once
      SET_CONFIGURATION succeeded the configuration is parsed and Set_Protocol(0) is
      sent to a keyboard or mouse, whatever its reply. */
  function Enumeration(t: seq<Exchange>): Outcome
  {
    var k := FirstFailure(t, 0);
    if k < 6 then Outcome(Steps(t)[..k + 1], if k >= 2 then ADDRESSED else NO_DEVICE)
    else
      var dev := Configured(t);
      Outcome(Steps(t) + (if dev.isKeyboard || dev.isMouse then [SetProtocol(1, dev.interfaceNum, 0)] else []), dev)
  }

  /** The exchanges `t` are the host's enumeration and `h` its final record. */
  predicate Enumerated(t: seq<Exchange>, h: HidDevice)
  {
    Requests(t) == Enumeration(t).requests && h == Enumeration(t).device
  }

  /** Enumeration stops at the first failing step among the six; Set_Protocol is the
      seventh request and comes only after all six succeeded. */
  lemma EnumerationStopsAtFirstFailure(t: seq<Exchange>)
    ensures var n := |Enumeration(t).requests|;
      1 <= n <= 7
      && (forall k :: 0 <= k < n - 1 ==> ReplyOk(t, k))
      && (n < 6 ==> !ReplyOk(t, n - 1))
      && (n >= 6 ==> forall k :: 0 <= k < 5 ==> ReplyOk(t, k))
  {
  }

  /** The address becomes 1 exactly when GET_DESCRIPTOR and SET_ADDRESS both
      succeeded, and stays 1 whatever fails later; the report length never exceeds the
      64-byte report buffer. */
  lemma EnumerationAddress(t: seq<Exchange>)
    ensures Enumeration(t).device.addr == if ReplyOk(t, 0) && ReplyOk(t, 1) then 1 else 0
    ensures Enumeration(t).device.reportLen <= BUF_SIZE
  {
    if FirstFailure(t, 0) == 6 {
      ParseBounds(Received(t, 4, Total(t)), Total(t), 9, ADDRESSED);
    }
  }

  /** The first two requests go to address 0 (the second assigns address 1); every
      later one goes to address 1, and the configuration read asks for at most 64 bytes. */
  lemma EnumerationRequests(t: seq<Exchange>)
    ensures var q := Enumeration(t).requests;
      q[0] == GetDeviceDescriptor(0, 8)
      && (|q| > 1 ==> q[1] == SetAddress(1))
      && (forall k :: 2 <= k < |q| ==> q[k].addr == 1)
      && (|q| > 4 ==> q[4].length <= BUF_SIZE && q[4].setup[3] == 0x02)
  {
  }

  /** Once configured, a device always has a report length in 1..64 and is never both
      keyboard and mouse, and Set_Protocol is sent exactly to a keyboard or a mouse. */
  lemma EnumerationConfigured(t: seq<Exchange>)
    requires forall k :: 0 <= k < 6 ==> ReplyOk(t, k)
    ensures var o := Enumeration(t);
      1 <= o.device.reportLen <= 64
      && !(o.device.isKeyboard && o.device.isMouse)
      && (|o.requests| == 7 <==> o.device.isKeyboard || o.device.isMouse)
      && (|o.requests| == 7 ==> o.requests[6] == SetProtocol(1, o.device.interfaceNum, 0))
  {
    assert FirstFailure(t, 0) == 6;
    ParseBounds(Received(t, 4, Total(t)), Total(t), 9, ADDRESSED);
  }

  /** The replies `t` all succeeded, each as the answer to the step at its position. */
  predicate Succeeded(t: seq<Exchange>)
  {
    |t| <= 6 && forall j :: 0 <= j < |t| ==> t[j].ok && t[j].req == Steps(t)[j]
  }

  /** An enumeration that stopped at step `k`. */
  lemma StoppedAt(t: seq<Exchange>, k: nat)
    requires k < 6 && |t| == k + 1 && !t[k].ok && forall j :: 0 <= j < k ==> t[j].ok
    requires forall j :: 0 <= j <= k ==> t[j].req == Steps(t)[j]
    ensures Enumerated(t, if k >= 2 then ADDRESSED else NO_DEVICE)
  {
    assert FirstFailure(t, 0) == k;
  }

  /** An enumeration that got through all six steps. */
  lemma Completed(t: seq<Exchange>, h: HidDevice)
    requires |t| >= 6 && forall j :: 0 <= j < 6 ==> t[j].ok && t[j].req == Steps(t)[j]
    requires h == Configured(t)
    requires h.isKeyboard || h.isMouse ==> |t| == 7 && t[6].req == SetProtocol(1, h.interfaceNum, 0)
    requires !(h.isKeyboard || h.isMouse) ==> |t| == 6
    ensures Enumerated(t, h)
  {
    assert FirstFailure(t, 0) == 6;
  }

  /** One more step of the enumeration: a success extends the successful run, a
      failure ends the enumeration; replies already there fix the later steps. */
  lemma Extend(t: seq<Exchange>, e: Exchange)
    requires Succeeded(t) && |t| < 6 && e.req == Steps(t)[|t|]
    ensures |t| >= 4 ==> Total(t + [e]) == Total(t)
    ensures |t| >= 5 ==> Steps(t + [e]) == Steps(t)
    ensures e.ok ==> Succeeded(t + [e])
    ensures !e.ok ==> Enumerated(t + [e], if |t| >= 2 then ADDRESSED else NO_DEVICE)
  {
    var t' := t + [e];
    assert forall j :: 0 <= j < |t| ==> t'[j] == t[j];
    assert |t| >= 4 ==> Total(t') == Total(t);
    assert |t| >= 5 ==> ConfigValue(t') == ConfigValue(t);
    if !e.ok {
      StoppedAt(t', |t|);
    }
  }

  /** Replies after the configuration read leave the parse alone. */
  lemma ConfiguredStable(t: seq<Exchange>, e: Exchange)
    requires |t| >= 5
    ensures Configured(t + [e]) == Configured(t)
  {
    assert Total(t + [e]) == Total(t);
    assert Received(t + [e], 4, Total(t)) == Received(t, 4, Total(t));
  }

  /** One of the six enumeration steps over the pipe, with what it tells about the
      enumeration so far. */
  method Step(pipe: Pipe, req: Request, buf: array?<byte>, ghost t0: seq<Exchange>, ghost t: seq<Exchange>)
    returns (ok: bool, ghost t': seq<Exchange>)
    requires Succeeded(t) && |t| < 6 && req == Steps(t)[|t|] && pipe.trace == t0 + t
    requires buf == null ==> req.length == 0
    requires buf != null ==> req.length <= buf.Length
    modifies pipe, buf
    ensures buf != null ==> forall j :: req.length <= j < buf.Length ==> buf[j] == old(buf[j])
    ensures t' == t + [Exchange(req, ok, if buf == null then [] else buf[..req.length])]
    ensures pipe.trace == t0 + t'
    ensures |t| >= 4 ==> Total(t') == Total(t)
    ensures |t| >= 5 ==> Steps(t') == Steps(t) && Configured(t') == Configured(t)
    ensures ok ==> Succeeded(t')
    ensures !ok ==> Enumerated(t', if |t| >= 2 then ADDRESSED else NO_DEVICE)
  {
    ok := pipe.Transfer(req, buf);
    t' := t + [pipe.trace[|pipe.trace| - 1]];
    Extend(t, pipe.trace[|pipe.trace| - 1]);
    if |t| >= 5 {
      ConfiguredStable(t, pipe.trace[|pipe.trace| - 1]);
    }
  }

  // ---------------------------------------------------------------------------
  // Controller discovery

  /** `struct usb_controller_info`. */
  datatype ControllerInfo = ControllerInfo(bus: bv8, dev: bv8, func: bv8, classCode: bv8, subclass: bv8,
                                           progIf: bv8, bar0: bv32)

  /** Class 0x0C (serial bus), subclass 0x03 (USB). */
  predicate IsUsb(classCode: bv8, subclass: bv8)
  {
    classCode == 0x0C && subclass == 0x03
  }

  /** A PCI function as the scan reports it, with device and function numbers that
      fit a byte. */
  predicate Addressable(c: Pci.PciFunction)
  {
    c.dev < 256 && c.func < 256
  }

  predicate AllAddressable(cs: seq<Pci.PciFunction>)
  {
    forall i :: 0 <= i < |cs| ==> Addressable(cs[i])
  }

  /** The scan reports device numbers below 32 and function numbers below 8. */
  lemma ScanAddressable(port: Pci.ConfigPort)
    ensures AllAddressable(Pci.BusCalls(port, 0))
  {
    Pci.ScanSound(port);
    var cs := Pci.BusCalls(port, 0);
    forall i | 0 <= i < |cs|
      ensures Addressable(cs[i])
    {
      assert cs[i] in cs;
    }
  }

  /** The callback's `dev` and `func` arguments. */
  function DevOf(c: Pci.PciFunction): bv8
    requires Addressable(c)
  {
    c.dev as bv8
  }

  function FuncOf(c: Pci.PciFunction): bv8
    requires Addressable(c)
  {
    c.func as bv8
  }

  /** BAR0 and BAR1 (configuration offsets 0x10 and 0x14) of the function. */
  function Bar(port: Pci.ConfigPort, c: Pci.PciFunction, offset: bv8): bv32
    requires Addressable(c)
  {
    Pci.ReadConfig32(port, c.bus, DevOf(c), FuncOf(c), offset)
  }

  function InfoOf(port: Pci.ConfigPort, c: Pci.PciFunction): ControllerInfo
    requires Addressable(c)
  {
    ControllerInfo(c.bus, DevOf(c), FuncOf(c), c.classCode, c.subclass, c.progIf, Bar(port, c, 0x10))
  }

  /** The controller table `usb_device_cb` builds over the callbacks `cs`: a USB
      function is recorded while fewer than eight are stored. */
  function Recorded(port: Pci.ConfigPort, cs: seq<Pci.PciFunction>): (r: seq<ControllerInfo>)
    requires AllAddressable(cs)
    ensures |r| <= MAX_CONTROLLERS
    ensures forall i :: 0 <= i < |r| ==> IsUsb(r[i].classCode, r[i].subclass)
  {
    if cs == [] then []
    else
      var p := Recorded(port, cs[..|cs| - 1]);
      var c := cs[|cs| - 1];
      if IsUsb(c.classCode, c.subclass) && |p| < MAX_CONTROLLERS then p + [InfoOf(port, c)] else p
  }

  /** Every USB function among the callbacks, in order. */
  function UsbFunctions(port: Pci.ConfigPort, cs: seq<Pci.PciFunction>): seq<ControllerInfo>
    requires AllAddressable(cs)
  {
    if cs == [] then []
    else
      var p := UsbFunctions(port, cs[..|cs| - 1]);
      var c := cs[|cs| - 1];
      if IsUsb(c.classCode, c.subclass) then p + [InfoOf(port, c)] else p
  }

  /** The table holds the first eight USB functions the scan reports. */
  lemma {:induction false} RecordedFirstEight(port: Pci.ConfigPort, cs: seq<Pci.PciFunction>)
    requires AllAddressable(cs)
    ensures var all := UsbFunctions(port, cs);
      Recorded(port, cs) == if |all| <= MAX_CONTROLLERS then all else all[..MAX_CONTROLLERS]
  {
    if cs != [] {
      var init := cs[..|cs| - 1];
      RecordedFirstEight(port, init);
      var all := UsbFunctions(port, init);
      var c := cs[|cs| - 1];
      if IsUsb(c.classCode, c.subclass) && |all| >= MAX_CONTROLLERS {
        assert (all + [InfoOf(port, c)])[..MAX_CONTROLLERS] == all[..MAX_CONTROLLERS];
      }
    }
  }

  /** `ehci_init` is attempted for programming interface 0x20 with a memory BAR0
      (bit 0 clear) that is neither 0 nor all ones, unless BAR0 is a 64-bit BAR
      (type bits 2:1 equal to 2) whose upper half, BAR1, is nonzero. */
  predicate EhciCandidate(progIf: bv8, bar0: bv32, bar1: bv32)
  {
    progIf == 0x20 && bar0 & 1 == 0 && bar0 != 0xFFFF_FFFF && bar0 != 0 && (bar0 & 6 == 4 ==> bar1 == 0)
  }

  /** The bus accesses of one `ehci_init` whose masked BAR0 is `base`: none when it
      is zero, otherwise the reads and writes of the controller bring-up at that base,
      with the values the controller returned. */
  ghost predicate EhciInitTrace(base: nat, t0: seq<Hw.Access>, t1: seq<Hw.Access>, caps: Ehci.CapReads,
                                usbcmd: bv32, first: seq<bv32>, second: seq<bv32>)
  {
    if base == 0 then t1 == t0
    else
      (Ehci.CapLengthOk(Ehci.CapLength(caps.cap0)) ==> Ehci.PortCount(caps.hcs) <= |first| && Ehci.PortCount(caps.hcs) <= |second|)
      && t1 == t0 + Ehci.BringUpTrace(base, caps, usbcmd, first, second)
  }

  // ---------------------------------------------------------------------------
  // The host

  /** The static state of usb.c. `ehciCtrls` are the controller records handed to
      `ehci_init`; `hid` is `hid_device`. */
  class UsbHost {
    var controllers: seq<ControllerInfo>
    const ehciCtrls: seq<Ehci.Controller>
    var ehciCount: nat
    var hid: HidDevice

    ghost predicate Valid()
      reads this
    {
      |controllers| <= MAX_CONTROLLERS && |ehciCtrls| == MAX_CONTROLLERS && ehciCount <= MAX_CONTROLLERS
      && hid.reportLen <= BUF_SIZE
      && (forall i, j :: 0 <= i < j < |ehciCtrls| ==> ehciCtrls[i] != ehciCtrls[j])
    }

    constructor ()
      ensures Valid() && controllers == [] && ehciCount == 0 && hid == NO_DEVICE
    {
      var cs: seq<Ehci.Controller> := [];
      while |cs| < MAX_CONTROLLERS
        invariant |cs| <= MAX_CONTROLLERS
        invariant forall i, j :: 0 <= i < j < |cs| ==> cs[i] != cs[j]
      {
        var c := new Ehci.Controller();
        cs := cs + [c];
      }
      controllers, ehciCtrls, ehciCount, hid := [], cs, 0, NO_DEVICE;
    }

    /** `usb_controller_count`. */
    function ControllerCount(): (n: nat)
      reads this
      requires Valid()
      ensures n <= MAX_CONTROLLERS
    {
      |controllers|
    }

    /** `usb_device_cb` for one PCI function: a USB function is recorded while the
        table has room, and an EHCI candidate is handed to `ehci_init` while fewer than
        eight controllers are up; only a successful `ehci_init` counts. */
    method DeviceCb(port: Pci.ConfigPort, bus: Hw.Bus, c: Pci.PciFunction)
      returns (ghost attempted: bool, ghost initOk: bool, ghost caps: Ehci.CapReads, ghost usbcmd: bv32,
               ghost first: seq<bv32>, ghost second: seq<bv32>)
      requires Valid() && Addressable(c)
      modifies this`controllers, this`ehciCount, bus, ehciCtrls
      ensures Valid()
      ensures controllers == old(controllers)
        + (if IsUsb(c.classCode, c.subclass) && |old(controllers)| < MAX_CONTROLLERS then [InfoOf(port, c)] else [])
      ensures attempted <==> (IsUsb(c.classCode, c.subclass) && old(ehciCount) < MAX_CONTROLLERS
        && EhciCandidate(c.progIf, Bar(port, c, 0x10), Bar(port, c, 0x14)))
      ensures ehciCount == old(ehciCount) + (if attempted && initOk then 1 else 0)
      ensures !attempted ==> bus.trace == old(bus.trace)
      ensures attempted && initOk ==> (
        var e := ehciCtrls[old(ehciCount)];
        Ehci.CapLengthOk(e.capLength) && e.opBase == e.base + e.capLength
        && e.base == (Bar(port, c, 0x10) & 0xFFFF_FFF0) as int)
      ensures forall k :: 0 <= k < MAX_CONTROLLERS && k != old(ehciCount) ==> unchanged(ehciCtrls[k])
      ensures !attempted ==> forall k :: 0 <= k < MAX_CONTROLLERS ==> unchanged(ehciCtrls[k])
      ensures attempted ==> EhciInitTrace((Bar(port, c, 0x10) & 0xFFFF_FFF0) as int, old(bus.trace), bus.trace, caps, usbcmd, first, second)
    {
      attempted, initOk := false, false;
      caps, usbcmd, first, second := Ehci.CapReads(0, 0, 0), 0, [], [];
      if !IsUsb(c.classCode, c.subclass) {
        return;
      }
      if |controllers| < MAX_CONTROLLERS {
        controllers := controllers + [InfoOf(port, c)];
      }
      attempted, initOk, caps, usbcmd, first, second := TryEhci(port, bus, c);
    }

    /** The EHCI half of `usb_device_cb`: the BAR checks, then `ehci_init` on a
        candidate while fewer than eight controllers are up. */
    method TryEhci(port: Pci.ConfigPort, bus: Hw.Bus, c: Pci.PciFunction)
      returns (ghost attempted: bool, ghost initOk: bool, ghost caps: Ehci.CapReads, ghost usbcmd: bv32,
               ghost first: seq<bv32>, ghost second: seq<bv32>)
      requires Valid() && Addressable(c)
      modifies this`ehciCount, bus, ehciCtrls
      ensures Valid()
      ensures attempted <==> (old(ehciCount) < MAX_CONTROLLERS && EhciCandidate(c.progIf, Bar(port, c, 0x10), Bar(port, c, 0x14)))
      ensures ehciCount == old(ehciCount) + (if attempted && initOk then 1 else 0)
      ensures !attempted ==> bus.trace == old(bus.trace)
      ensures attempted && initOk ==> (
        var e := ehciCtrls[old(ehciCount)];
        Ehci.CapLengthOk(e.capLength) && e.opBase == e.base + e.capLength
        && e.base == (Bar(port, c, 0x10) & 0xFFFF_FFF0) as int)
      ensures forall k :: 0 <= k < MAX_CONTROLLERS && k != old(ehciCount) ==> unchanged(ehciCtrls[k])
      ensures !attempted ==> forall k :: 0 <= k < MAX_CONTROLLERS ==> unchanged(ehciCtrls[k])
      ensures attempted ==> EhciInitTrace((Bar(port, c, 0x10) & 0xFFFF_FFF0) as int, old(bus.trace), bus.trace, caps, usbcmd, first, second)
    {
      attempted, initOk := false, false;
      caps, usbcmd, first, second := Ehci.CapReads(0, 0, 0), 0, [], [];
      if c.progIf == 0x20 && ehciCount < MAX_CONTROLLERS {
        var bar0 := Bar(port, c, 0x10);
        if bar0 & 1 == 0 && bar0 != 0xFFFF_FFFF && bar0 != 0 {
          var upperSet := false;
          if bar0 & 6 == 4 {
            var bar1 := Bar(port, c, 0x14);
            upperSet := bar1 != 0;
          }
          if !upperSet {
            attempted := true;
            initOk, caps, usbcmd, first, second := StartEhci(bar0, bus);
          }
        }
      }
    }

    /** `ehci_init` on the next free controller record, counted when it succeeds. */
    method StartEhci(bar0: bv32, bus: Hw.Bus)
      returns (ok: bool, ghost caps: Ehci.CapReads, ghost usbcmd: bv32, ghost first: seq<bv32>, ghost second: seq<bv32>)
      requires Valid() && ehciCount < MAX_CONTROLLERS
      modifies this`ehciCount, bus, ehciCtrls
      ensures Valid()
      ensures ehciCount == old(ehciCount) + (if ok then 1 else 0)
      ensures ok ==> (
        var e := ehciCtrls[old(ehciCount)];
        Ehci.CapLengthOk(e.capLength) && e.opBase == e.base + e.capLength
        && e.base == (bar0 & 0xFFFF_FFF0) as int)
      ensures forall k :: 0 <= k < MAX_CONTROLLERS && k != old(ehciCount) ==> unchanged(ehciCtrls[k])
      ensures EhciInitTrace((bar0 & 0xFFFF_FFF0) as int, old(bus.trace), bus.trace, caps, usbcmd, first, second)
    {
      var ctrl := ehciCtrls[ehciCount];
      ok, caps, usbcmd, first, second := Ehci.EhciInit(ctrl, bar0, bus);
      if ok {
        ehciCount := ehciCount + 1;
      }
    }

    /** Lines 96-99 of `usb_init`: reset the counts and run the callback over every
        function the bus-0 scan reports. */
    method Discover(port: Pci.ConfigPort, bus: Hw.Bus)
      requires Valid()
      modifies this`controllers, this`ehciCount, bus, ehciCtrls
      ensures Valid()
      ensures AllAddressable(Pci.BusCalls(port, 0))
      ensures controllers == Recorded(port, Pci.BusCalls(port, 0))
    {
      controllers, ehciCount := [], 0;
      var calls := Pci.ScanBus0(port, true);
      ScanAddressable(port);
      RunCallbacks(port, bus, calls);
    }

    /** `usb_device_cb` over the scan's callbacks, in order. */
    method RunCallbacks(port: Pci.ConfigPort, bus: Hw.Bus, calls: seq<Pci.PciFunction>)
      requires Valid() && controllers == [] && AllAddressable(calls)
      modifies this`controllers, this`ehciCount, bus, ehciCtrls
      ensures Valid()
      ensures controllers == Recorded(port, calls)
    {
      var i := 0;
      while i < |calls|
        invariant 0 <= i <= |calls| && Valid()
        invariant controllers == Recorded(port, calls[..i])
      {
        assert calls[..i + 1][..i] == calls[..i];
        var attempted, initOk, caps, usbcmd, first, second := DeviceCb(port, bus, calls[i]);
        i := i + 1;
      }
      assert calls[..i] == calls;
    }

    /** Lines 102-185 of `usb_init` once an EHCI controller is up: the enumeration
        over the pipe to controller 0, ending at the first failure. */
    method EnumerateDevice(pipe: Pipe)
      modifies this`hid, pipe
      ensures old(pipe.trace) <= pipe.trace
      ensures Enumerated(pipe.trace[|old(pipe.trace)|..], hid)
    {
      ghost var t0 := pipe.trace;
      hid := NO_DEVICE;
      var ok;
      ghost var t;
      ok, t := Address(pipe, t0);
      if ok {
        var cfg, total;
        ok, cfg, total, t := ReadConfiguration(pipe, t0, t);
        if ok {
          t := Configure(pipe, cfg, total, t0, t);
        }
      }
      assert pipe.trace[|t0|..] == t;
    }

    /** Steps 0-2: the first 8 bytes of the device descriptor at address 0,
        SET_ADDRESS(1), then the whole device descriptor at the new address. */
    method Address(pipe: Pipe, ghost t0: seq<Exchange>) returns (ok: bool, ghost t: seq<Exchange>)
      requires hid == NO_DEVICE && pipe.trace == t0
      modifies this`hid, pipe
      ensures pipe.trace == t0 + t
      ensures !ok ==> Enumerated(t, hid)
      ensures ok ==> |t| == 3 && Succeeded(t) && hid == ADDRESSED
    {
      var devDesc := new byte[18];
      assert pipe.trace == t0 + [];
      ok, t := Step(pipe, GetDeviceDescriptor(0, 8), devDesc, t0, []);
      if !ok {
        return;
      }
      ok, t := Step(pipe, SetAddress(1), null, t0, t);
      if !ok {
        return;
      }
      hid := hid.(addr := 1);
      ok, t := Step(pipe, GetDeviceDescriptor(hid.addr, 18), devDesc, t0, t);
    }

    /** Steps 3 and 4: the 9-byte configuration header, then `wTotalLength` bytes of
        the configuration (at most 64) into the same buffer. */
    method ReadConfiguration(pipe: Pipe, ghost t0: seq<Exchange>, ghost t: seq<Exchange>)
      returns (ok: bool, cfg: array<byte>, total: nat, ghost t': seq<Exchange>)
      requires hid == ADDRESSED && |t| == 3 && Succeeded(t) && pipe.trace == t0 + t
      modifies pipe
      ensures fresh(cfg) && cfg.Length == BUF_SIZE && total <= BUF_SIZE
      ensures pipe.trace == t0 + t'
      ensures !ok ==> Enumerated(t', ADDRESSED)
      ensures ok ==> (|t'| == 5 && Succeeded(t') && total == Total(t')
        && cfg[..total] == Received(t', 4, total) && cfg[5] == ConfigValue(t'))
    {
      cfg := new byte[BUF_SIZE];
      ok, t' := Step(pipe, GetConfigDescriptor(hid.addr, 9), cfg, t0, t);
      total := ConfigLength(cfg[2], cfg[3]);
      if !ok {
        return;
      }
      assert total == Total(t');
      ghost var header := cfg[5];
      assert header == ReplyByte(t', 3, 5);
      ok, t' := Step(pipe, GetConfigDescriptor(hid.addr, total), cfg, t0, t');
      if ok {
        assert cfg[..total] == Received(t', 4, total);
        assert total <= 5 ==> cfg[5] == header;
      }
    }

    /** Step 5 and what follows it: SET_CONFIGURATION with the configuration value
        received, the parse, the default report length and Set_Protocol(0) for a
        keyboard or mouse. */
    method Configure(pipe: Pipe, cfg: array<byte>, total: nat, ghost t0: seq<Exchange>, ghost t: seq<Exchange>)
      returns (ghost t': seq<Exchange>)
      requires hid == ADDRESSED && |t| == 5 && Succeeded(t) && pipe.trace == t0 + t
      requires cfg.Length == BUF_SIZE && total == Total(t)
      requires cfg[..total] == Received(t, 4, total) && cfg[5] == ConfigValue(t)
      modifies this`hid, pipe
      ensures pipe.trace == t0 + t'
      ensures Enumerated(t', hid)
    {
      var cfgValue := cfg[5];
      var ok;
      ok, t' := Step(pipe, SetConfiguration(hid.addr, cfgValue), null, t0, t);
      if !ok {
        return;
      }
      ParseUsesOnlyReceived(cfg[..], Received(t, 4, total), total, 9, hid);
      ParseBounds(cfg[..], total, 9, hid);
      ParseConfig(cfg, total);
      if hid.reportLen == 0 {
        hid := hid.(reportLen := if hid.isKeyboard then 8 else 3);
      }
      assert hid == Configured(t');
      if hid.isKeyboard || hid.isMouse {
        var ignored := pipe.Transfer(SetProtocol(hid.addr, hid.interfaceNum, 0), null);
        ghost var e := pipe.trace[|pipe.trace| - 1];
        assert Steps(t' + [e]) == Steps(t') && Configured(t' + [e]) == Configured(t') by {
          assert Total(t' + [e]) == Total(t');
          ConfiguredStable(t', e);
        }
        t' := t' + [e];
        assert pipe.trace == t0 + t';
      }
      Completed(t', hid);
    }

    /** Lines 151-176 of `usb_init`, reading only descriptors wholly within the
        `total` bytes received. */
    method ParseConfig(cfg: array<byte>, total: nat)
      requires total <= cfg.Length
      modifies this`hid
      ensures hid == Parse(cfg[..], total, 9, old(hid))
    {
      ghost var d := cfg[..];
      var idx: nat := 9;
      while idx + 2 < total
        invariant Parse(d, total, idx, hid) == Parse(d, total, 9, old(hid))
        decreases total - idx
      {
        var len := cfg[idx];
        var typ := cfg[idx + 1];
        if len == 0 {
          break;
        }
        if idx + 9 <= total {
          if typ == 0x04 && len >= 9 {
            var ifaceClass := cfg[idx + 5];
            var ifaceSub := cfg[idx + 6];
            if ifaceClass == 0x03 && ifaceSub == 0x01 {
              var proto := cfg[idx + 7];
              hid := hid.(interfaceNum := cfg[idx + 2], protocol := proto, isKeyboard := proto == 1, isMouse := proto == 2);
            }
          } else if typ == 0x21 && len >= 9 {
            var repLen := Word(cfg[idx + 7], cfg[idx + 8]);
            if 0 < repLen <= 64 {
              hid := hid.(reportLen := repLen);
            }
          }
        }
        idx := idx + len;
      }
    }

    /** `usb_init`. */
    method UsbInit(port: Pci.ConfigPort, bus: Hw.Bus, driver: UsbHid.HidDriver, pipe: Pipe)
      requires Valid() && driver.Valid()
      modifies this, bus, ehciCtrls, driver.lastKeys, pipe
      ensures Valid()
      ensures AllAddressable(Pci.BusCalls(port, 0))
      ensures controllers == Recorded(port, Pci.BusCalls(port, 0))
      ensures forall i :: 0 <= i < 6 ==> driver.lastKeys[i] == 0
      ensures ehciCount == 0 ==> hid == NO_DEVICE && pipe.trace == old(pipe.trace)
      ensures ehciCount > 0 ==> old(pipe.trace) <= pipe.trace && Enumerated(pipe.trace[|old(pipe.trace)|..], hid)
    {
      Discover(port, bus);
      driver.Init();
      hid := NO_DEVICE;
      if ehciCount == 0 {
        return;
      }
      EnumerateDevice(pipe);
      EnumerationAddress(pipe.trace[|old(pipe.trace)|..]);
    }

    /** `usb_poll`: nothing happens without a controller or before an address was
        assigned; otherwise one Get_Report is sent and a successful report is decoded
        as a keyboard report for a keyboard, else as a mouse report for a mouse. The
        decoders get the `reportLen` bytes received. */
    method UsbPoll(pipe: Pipe, driver: UsbHid.HidDriver, kb: Input.Keyboard, mouse: Input.Mouse)
      requires Valid() && driver.Valid() && kb.Valid()
      modifies pipe, driver.lastKeys, kb.queue, kb`tail, kb`contents, mouse
      ensures kb.Valid()
      ensures ehciCount == 0 || hid.addr == 0 ==> (pipe.trace == old(pipe.trace)
        && driver.lastKeys[..] == old(driver.lastKeys[..]) && kb.contents == old(kb.contents) && unchanged(mouse))
      ensures ehciCount != 0 && hid.addr != 0 ==> (
        |pipe.trace| == |old(pipe.trace)| + 1 && pipe.trace[..|old(pipe.trace)|] == old(pipe.trace)
        && pipe.trace[|old(pipe.trace)|].req == GetReport(hid.addr, hid.interfaceNum, hid.reportLen)
        && |pipe.trace[|old(pipe.trace)|].data| == hid.reportLen)
      ensures ehciCount != 0 && hid.addr != 0 ==> (
        var e := pipe.trace[|old(pipe.trace)|];
        var r := Bits(e.data);
        (e.ok && hid.isKeyboard && hid.reportLen >= 8 ==>
          driver.lastKeys[..] == r[2..8]
          && kb.contents == UsbHid.EnqueueAll(old(kb.contents), UsbHid.Presses(old(driver.lastKeys[..]), r[2..8])))
        && (!(e.ok && hid.isKeyboard && hid.reportLen >= 8) ==>
          driver.lastKeys[..] == old(driver.lastKeys[..]) && kb.contents == old(kb.contents))
        && (e.ok && !hid.isKeyboard && hid.isMouse && hid.reportLen >= 3 ==>
          mouse.pendingValid && mouse.cycle == old(mouse.cycle)
          && mouse.pendingDx == old(mouse.pendingDx) + SignedByte(r[1])
          && mouse.pendingDy == old(mouse.pendingDy) + SignedByte(r[2])
          && mouse.pendingButtons == r[0] & 7)
        && (!(e.ok && !hid.isKeyboard && hid.isMouse && hid.reportLen >= 3) ==>
          mouse.pendingValid == old(mouse.pendingValid) && mouse.cycle == old(mouse.cycle)
          && mouse.pendingDx == old(mouse.pendingDx) && mouse.pendingDy == old(mouse.pendingDy)
          && mouse.pendingButtons == old(mouse.pendingButtons)))
    {
      if ehciCount == 0 || hid.addr == 0 {
        return;
      }
      var report := new byte[BUF_SIZE];
      var len := hid.reportLen;
      var ok := pipe.Transfer(GetReport(hid.addr, hid.interfaceNum, len), report);
      if ok {
        var received := Bits(report[..len]);
        if hid.isKeyboard {
          driver.OnKeyboardReport(Some(received), len, kb);
        } else if hid.isMouse {
          driver.OnMouseReport(Some(received), len, mouse);
        }
      }
    }
  }

  /** The bytes as the HID decoders see them. */
  function Bits(s: seq<byte>): (r: seq<bv8>)
    ensures |r| == |s|
  {
    seq(|s|, i requires 0 <= i < |s| => s[i] as bv8)
  }
}
