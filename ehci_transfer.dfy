/** Control transfers on the EHCI asynchronous schedule, src/ehci_transfer.c.

    A transfer is one Queue Head (EHCI 1.0 section 3.6) and a chain of two or three
    queue element transfer descriptors, qTDs (section 3.5): SETUP, an optional DATA
    stage and STATUS. The descriptors live in memory handed out by `kmalloc`; each is
    an object with the fields of its C struct, at the address `kmalloc` returned.

    What the controller does with the schedule is outside the model: the token it
    writes back into the STATUS qTD at the i-th poll is the parameter `tokenAt(i)`. */
module EhciTransfer {
  import opened Common
  import opened Hw
  import Ehci
  import Memory

  // qTD token bits (section 3.5.3).
  const ACTIVE: bv32 := 0x80
  const PID_SETUP: bv32 := 0x200
  const PID_IN: bv32 := 0x100
  const PID_OUT: bv32 := 0x000

  // Descriptor sizes in bytes and the alignment they are allocated with.
  const QTD_SIZE: u32 := 32
  const QH_SIZE: u32 := 48
  const DESC_ALIGN: u32 := 32

  /** Polls of the STATUS token before the transfer is abandoned. */
  const POLL_LIMIT: nat := 1000000

  // Operational registers used for submission (section 2.3).
  const ASYNCLISTADDR: nat := 0x18
  const USBCMD: nat := 0x00

  /** A descriptor word that holds a 32-bit physical address. */
  function Link(addr: u32): bv32
  {
    addr as bv32
  }

  /** `struct ehci_qtd` at address `addr`. The buffer pointers are only ever computed
      with arithmetic, so they are held as numbers. */
  class Qtd {
    const addr: u32
    var next: bv32
    var altNext: bv32
    var token: bv32
    const buf: array<u32>

    /** Fresh memory: its contents are whatever was there before. */
    constructor (addr: u32)
      ensures this.addr == addr && buf.Length == 5 && fresh(buf)
    {
      this.addr := addr;
      buf := new u32[5];
    }
  }

  /** `struct ehci_qh` at address `addr`, with its embedded overlay qTD. */
  class Qh {
    const addr: u32
    var horizLink: bv32
    var epChar: bv32
    var epCap: bv32
    var currQtd: bv32
    const overlay: Qtd

    constructor (addr: u32)
      requires addr + 16 < 0x1_0000_0000
      ensures this.addr == addr && fresh(overlay) && fresh(overlay.buf) && overlay.buf.Length == 5
    {
      this.addr := addr;
      overlay := new Qtd(addr + 16);
    }
  }

  /** Every buffer pointer of `q` is zero. */
  ghost predicate BufZero(q: Qtd)
    reads q, q.buf
  {
    q.buf.Length == 5 && forall j :: 0 <= j < 5 ==> q.buf[j] == 0
  }

  /** A freshly allocated qTD: all zero except both links, which are 1 (the Terminate
      bit, section 3.5.1). */
  ghost predicate FreshQtd(q: Qtd)
    reads q, q.buf
  {
    q.next == 1 && q.altNext == 1 && q.token == 0 && BufZero(q)
  }

  /** A freshly allocated QH: all zero except the horizontal link, which points at the
      QH itself with type QH (0x2, section 3.6.1), and the overlay's terminated links. */
  ghost predicate FreshQh(q: Qh)
    reads q, q.overlay, q.overlay.buf
  {
    q.horizLink == Link(q.addr) | 2 && q.epChar == 0 && q.epCap == 0 && q.currQtd == 0
    && FreshQtd(q.overlay)
  }

  /** Zero the five buffer pointers, the part of the allocators' word-by-word loop that
      covers `buf[]`. */
  method ZeroBuf(q: Qtd)
    requires q.buf.Length == 5
    modifies q.buf
    ensures BufZero(q)
  {
    var i := 0;
    while i < 5
      invariant 0 <= i <= 5
      invariant forall j :: 0 <= j < i ==> q.buf[j] == 0
    {
      q.buf[i] := 0;
      i := i + 1;
    }
  }

  /** `alloc_qtd`: 32 bytes aligned to 32 from `kmalloc`; null when `kmalloc` gives 0;
      otherwise the descriptor is zeroed and both of its links terminated. */
  method AllocQtd(heap: Memory.Heap) returns (q: Qtd?)
    requires heap.Valid()
    modifies heap`heapCurr, heap`blocks
    ensures heap.Valid()
    ensures q != null ==> (fresh(q) && fresh(q.buf) && FreshQtd(q)
      && q.addr != 0 && Memory.LowBits(q.addr, 5) == 0
      && heap.blocks == old(heap.blocks) + [Memory.Block(q.addr, QTD_SIZE)])
    ensures q == null ==> heap.blocks == old(heap.blocks) || heap.blocks == old(heap.blocks) + [Memory.Block(0, QTD_SIZE)]
    ensures old(heap.heapCurr) <= heap.heapCurr
  {
    var p, ok := heap.Kmalloc(QTD_SIZE, DESC_ALIGN);
    if p == 0 {
      return null;
    }
    assert Memory.Pow2(5) == 32;
    q := new Qtd(p);
    q.next, q.altNext, q.token := 0, 0, 0;
    ZeroBuf(q);
    q.next := 1;
    q.altNext := 1;
  }

  /** `alloc_qh`: 48 bytes aligned to 32; null when `kmalloc` gives 0; otherwise zeroed,
      self-linked as a QH, and the overlay's links terminated. */
  method AllocQh(heap: Memory.Heap) returns (q: Qh?)
    requires heap.Valid()
    modifies heap`heapCurr, heap`blocks
    ensures heap.Valid()
    ensures q != null ==> (fresh(q) && fresh(q.overlay) && fresh(q.overlay.buf) && FreshQh(q)
      && q.addr != 0 && Memory.LowBits(q.addr, 5) == 0
      && heap.blocks == old(heap.blocks) + [Memory.Block(q.addr, QH_SIZE)])
    ensures q == null ==> heap.blocks == old(heap.blocks) || heap.blocks == old(heap.blocks) + [Memory.Block(0, QH_SIZE)]
    ensures old(heap.heapCurr) <= heap.heapCurr
  {
    var p, ok := heap.Kmalloc(QH_SIZE, DESC_ALIGN);
    if p == 0 {
      return null;
    }
    assert Memory.Pow2(5) == 32;
    q := new Qh(p);
    q.horizLink, q.epChar, q.epCap, q.currQtd := 0, 0, 0, 0;
    q.overlay.next, q.overlay.altNext, q.overlay.token := 0, 0, 0;
    ZeroBuf(q.overlay);
    q.horizLink := Link(p) | 2;
    q.overlay.next := 1;
    q.overlay.altNext := 1;
  }

  /** The start of the 4 KiB page after the one holding `a`: `(a & 0xFFFFF000) + 0x1000`
      in 32-bit arithmetic (clearing the low 12 bits is subtracting `a % 0x1000`). */
  function NextPage(a: u32): u32
  {
    Wrap32(a - a % 0x1000 + 0x1000)
  }

  /** The j-th buffer pointer of a qTD whose buffer starts at `a`. */
  function BufferPointer(a: u32, j: nat): u32
  {
    if j == 0 then a else NextPage(BufferPointer(a, j - 1))
  }

  /** The buffer pointers of `q` describe a buffer starting at `a`. */
  ghost predicate BufAt(q: Qtd, a: u32)
    reads q, q.buf
  {
    q.buf.Length == 5 && forall j :: 0 <= j < 5 ==> q.buf[j] == BufferPointer(a, j)
  }

  /** `len << 16` as a 32-bit value: the Total Bytes field of a token. */
  function ByteCount(len: u32): bv32
  {
    (len as bv32) << 16
  }

  /** `qtd_set_buffer`: the five buffer pointers get the buffer address followed by the
      starts of the next four pages, and `len << 16` is ORed into the token. */
  method SetBuffer(q: Qtd, buf: u32, len: u32)
    requires q.buf.Length == 5
    modifies q, q.buf
    ensures BufAt(q, buf)
    ensures q.token == old(q.token) | ByteCount(len)
    ensures q.next == old(q.next) && q.altNext == old(q.altNext)
  {
    var addr := buf;
    var i := 0;
    while i < 5
      invariant 0 <= i <= 5
      invariant addr == BufferPointer(buf, i)
      invariant forall j :: 0 <= j < i ==> q.buf[j] == BufferPointer(buf, j)
      invariant q.next == old(q.next) && q.altNext == old(q.altNext) && q.token == old(q.token)
    {
      q.buf[i] := addr;
      var next := NextPage(addr);
      addr := next;
      i := i + 1;
    }
    q.token := q.token | ByteCount(len);
  }

  /** A token: ACTIVE, the PID code and the byte count. */
  function Token(pid: bv32, len: u32): bv32
  {
    ACTIVE | pid | ByteCount(len)
  }

  /** The PID of the DATA stage follows the transfer direction; STATUS goes the other way. */
  function DataPid(inDir: bool): bv32 { if inDir then PID_IN else PID_OUT }
  function StatusPid(inDir: bool): bv32 { if inDir then PID_OUT else PID_IN }

  /** Token fields (section 3.5.3). */
  predicate Active(token: bv32) { token & ACTIVE != 0 }
  function PidCode(token: bv32): bv32 { (token >> 8) & 3 }
  function TotalBytes(token: bv32): bv32 { (token >> 16) & 0x7FFF }

  /** `wait_qtd_complete`: poll the STATUS token at most POLL_LIMIT times; succeed at
      the first poll that finds ACTIVE clear. */
  method WaitComplete(tokenAt: nat -> bv32) returns (ok: bool, polls: nat)
    ensures ok <==> exists i :: 0 <= i < POLL_LIMIT && !Active(tokenAt(i))
    ensures ok ==> (polls < POLL_LIMIT && !Active(tokenAt(polls))
      && forall i :: 0 <= i < polls ==> Active(tokenAt(i)))
    ensures !ok ==> polls == POLL_LIMIT
  {
    var i := 0;
    while i < POLL_LIMIT
      invariant 0 <= i <= POLL_LIMIT
      invariant forall j :: 0 <= j < i ==> Active(tokenAt(j))
    {
      if tokenAt(i) & ACTIVE == 0 {
        return true, i;
      }
      i := i + 1;
    }
    return false, i;
  }

  /** The endpoint-characteristics word (section 3.6.2): maximum packet length in bits
      26:16, endpoint in 11:8, device address in 6:0, and bit 14 (data toggle taken from
      the qTD). */
  function EpChar(devAddr: bv8, ep: bv8, maxPacket: bv16): bv32
  {
    (((((maxPacket as bv32) & 0x7FF) << 16) | (((ep as bv32) & 0x0F) << 8)) | ((devAddr as bv32) & 0x7F)) | 0x4000
  }

  /** `q` holds the links and the token given. */
  ghost predicate QtdIs(q: Qtd, next: bv32, token: bv32)
    reads q
  {
    q.next == next && q.altNext == 1 && q.token == token
  }

  /** The SETUP qTD filled in (lines 98-100): linked to `next`, an 8-byte SETUP token,
      buffer pointers from `setup`. */
  method BuildSetup(q: Qtd, next: u32, setup: u32)
    requires FreshQtd(q)
    modifies q, q.buf
    ensures QtdIs(q, Link(next), Token(PID_SETUP, 8)) && BufAt(q, setup)
  {
    q.next := Link(next);
    q.token := Token(PID_SETUP, 8);
    SetBuffer(q, setup, 8);
    TokenKeepsLength(PID_SETUP, 8);
  }

  /** The DATA qTD filled in (lines 103-105). */
  method BuildData(q: Qtd, status: u32, data: u32, inDir: bool, len: u32)
    requires FreshQtd(q)
    modifies q, q.buf
    ensures QtdIs(q, Link(status), Token(DataPid(inDir), len)) && BufAt(q, data)
  {
    q.next := Link(status);
    q.token := Token(DataPid(inDir), len);
    SetBuffer(q, data, len);
    TokenKeepsLength(DataPid(inDir), len);
  }

  /** The STATUS qTD filled in (lines 108-109): terminated, zero bytes, PID opposite to
      the transfer direction; its buffer pointers stay zero. */
  method BuildStatus(q: Qtd, inDir: bool)
    requires FreshQtd(q)
    modifies q
    ensures QtdIs(q, 1, Token(StatusPid(inDir), 0)) && BufZero(q)
  {
    q.next := 1;
    q.token := Token(StatusPid(inDir), 0);
  }

  /** The QH filled in (lines 111-118), the characteristics word built field by field. */
  method BuildQh(q: Qh, devAddr: bv8, ep: bv8, maxPacket: bv16, first: u32)
    requires FreshQh(q)
    modifies q, q.overlay
    ensures q.horizLink == Link(q.addr) | 2 && q.epChar == EpChar(devAddr, ep, maxPacket)
      && q.epCap == 0 && q.currQtd == 0 && QtdIs(q.overlay, Link(first), 0) && BufZero(q.overlay)
  {
    q.epChar := ((maxPacket as bv32) & 0x7FF) << 16;
    q.epChar := q.epChar | (((ep as bv32) & 0x0F) << 8);
    q.epChar := q.epChar | ((devAddr as bv32) & 0x7F);
    q.epChar := q.epChar | 0x4000;
    q.currQtd := 0;
    q.overlay.next := Link(first);
    q.overlay.altNext := 1;
  }

  /** ORing a token's own byte count into it again changes nothing. */
  lemma TokenKeepsLength(pid: bv32, len: u32)
    ensures Token(pid, len) | ByteCount(len) == Token(pid, len)
  {
  }

  /** The descriptors of one transfer and what they hold once it is built: QH.overlay
      -> SETUP -> [DATA ->] STATUS -> terminate. */
  ghost predicate ChainBuilt(qh: Qh, s: Qtd, d: Qtd?, st: Qtd, devAddr: bv8, ep: bv8, maxPacket: bv16,
                             setup: u32, data: u32, length: u32, inDir: bool)
    reads qh, qh.overlay, qh.overlay.buf, s, s.buf, st, st.buf, if d != null then {d, d.buf} else {}
  {
    (length != 0 <==> d != null)
    && qh.horizLink == Link(qh.addr) | 2 && qh.epChar == EpChar(devAddr, ep, maxPacket)
    && qh.epCap == 0 && qh.currQtd == 0 && QtdIs(qh.overlay, Link(s.addr), 0)
    && QtdIs(s, Link(if d != null then d.addr else st.addr), Token(PID_SETUP, 8)) && BufAt(s, setup)
    && (d != null ==> QtdIs(d, Link(st.addr), Token(DataPid(inDir), length)) && BufAt(d, data))
    && QtdIs(st, 1, Token(StatusPid(inDir), 0)) && BufZero(st)
  }

  /** A USBCMD value with Asynchronous Schedule Enable (bit 5) set, and cleared. */
  function WithAsync(cmd: bv32): bv32 { cmd | 0x20 }
  function WithoutAsync(cmd: bv32): bv32 { cmd & !0x20 }

  /** Register accesses of a submission: the QH address goes to ASYNCLISTADDR and
      USBCMD is read as `cmd` and written back with the schedule enabled; when the
      transfer completed, USBCMD is read again as `cmd2` and the schedule disabled. */
  function SubmitTrace(op: nat, qh: u32, cmd: bv32, completed: bool, cmd2: bv32): seq<Access>
  {
    [Wr(op, ASYNCLISTADDR, Link(qh)), Rd(op, USBCMD, cmd), Wr(op, USBCMD, WithAsync(cmd))]
    + (if completed then [Rd(op, USBCMD, cmd2), Wr(op, USBCMD, WithoutAsync(cmd2))] else [])
  }

  /** `b1` is `b0` with further blocks after it: the allocator only ever adds blocks. */
  ghost predicate Extends(b0: seq<Memory.Block>, b1: seq<Memory.Block>)
  {
    |b0| <= |b1| && b1[..|b0|] == b0
  }

  /** The blocks of one transfer's descriptors, in allocation order. */
  function ChainBlocks(qh: u32, s: u32, d: Option<u32>, st: u32): seq<Memory.Block>
  {
    [Memory.Block(qh, QH_SIZE), Memory.Block(s, QTD_SIZE)]
    + (if d.Some? then [Memory.Block(d.value, QTD_SIZE)] else [])
    + [Memory.Block(st, QTD_SIZE)]
  }

  /** The address of a descriptor that may be missing. */
  function AddrOf(q: Qtd?): Option<u32>
    reads q
  {
    if q == null then None else Some(q.addr)
  }

  /** The allocations of `ehci_control_transfer` (lines 90-93), in order: the QH, the
      SETUP qTD, the DATA qTD only when `length` is nonzero, and the STATUS qTD.
      `heap_curr` never moves back and blocks are only added; when every descriptor
      exists the new blocks are exactly theirs, in that order. */
  method AllocChain(heap: Memory.Heap, length: u32) returns (qh: Qh?, s: Qtd?, d: Qtd?, st: Qtd?)
    requires heap.Valid()
    modifies heap`heapCurr, heap`blocks
    ensures heap.Valid()
    ensures length == 0 ==> d == null
    ensures qh != null ==> fresh(qh) && fresh(qh.overlay) && fresh(qh.overlay.buf)
    ensures s != null ==> fresh(s) && fresh(s.buf)
    ensures d != null ==> fresh(d) && fresh(d.buf)
    ensures st != null ==> fresh(st) && fresh(st.buf)
    ensures qh != null && s != null && st != null && (length != 0 ==> d != null) ==> FreshChain(qh, s, d, st, length)
    ensures old(heap.heapCurr) <= heap.heapCurr && Extends(old(heap.blocks), heap.blocks)
    ensures Allocated(qh, s, d, st, length) ==>
      heap.blocks == old(heap.blocks) + ChainBlocks(qh.addr, s.addr, AddrOf(d), st.addr)
  {
    ghost var b0 := heap.blocks;
    qh := AllocQh(heap);
    ghost var b1 := heap.blocks;
    s := AllocQtd(heap);
    ghost var b2 := heap.blocks;
    d := null;
    if length != 0 {
      d := AllocQtd(heap);
    }
    ghost var b3 := heap.blocks;
    st := AllocQtd(heap);
    assert Extends(b0, b1) && Extends(b1, b2) && Extends(b2, b3) && Extends(b3, heap.blocks);
    ExtendsTrans(b0, b1, b2);
    ExtendsTrans(b0, b2, b3);
    ExtendsTrans(b0, b3, heap.blocks);
    if Allocated(qh, s, d, st, length) {
      ChainBlocksAppend(b0, qh.addr, s.addr, AddrOf(d), st.addr, b1, b2, b3, heap.blocks);
    }
  }

  /** Adding blocks after blocks that were added is adding blocks. */
  lemma ExtendsTrans(b0: seq<Memory.Block>, b1: seq<Memory.Block>, b2: seq<Memory.Block>)
    requires Extends(b0, b1) && Extends(b1, b2)
    ensures Extends(b0, b2)
  {
    assert b2[..|b1|][..|b0|] == b2[..|b0|];
  }

  /** The blocks after the four successful allocations are the chain's blocks. */
  lemma ChainBlocksAppend(b0: seq<Memory.Block>, qh: u32, s: u32, d: Option<u32>, st: u32,
                          b1: seq<Memory.Block>, b2: seq<Memory.Block>, b3: seq<Memory.Block>,
                          b4: seq<Memory.Block>)
    requires b1 == b0 + [Memory.Block(qh, QH_SIZE)] && b2 == b1 + [Memory.Block(s, QTD_SIZE)]
    requires b3 == b2 + (if d.Some? then [Memory.Block(d.value, QTD_SIZE)] else [])
    requires b4 == b3 + [Memory.Block(st, QTD_SIZE)]
    ensures b4 == b0 + ChainBlocks(qh, s, d, st)
  {
  }

  /** The distinct, freshly allocated descriptors of one transfer. */
  ghost predicate FreshChain(qh: Qh, s: Qtd, d: Qtd?, st: Qtd, length: u32)
    reads qh, qh.overlay, qh.overlay.buf, s, s.buf, st, st.buf, if d != null then {d, d.buf} else {}
  {
    (length != 0 <==> d != null)
    && FreshQh(qh) && FreshQtd(s) && FreshQtd(st) && (d != null ==> FreshQtd(d))
    && s != st && s.buf != st.buf && qh.overlay != s && qh.overlay != st
    && qh.overlay.buf != s.buf && qh.overlay.buf != st.buf
    && (d != null ==> d != s && d != st && d.buf != s.buf && d.buf != st.buf
                      && qh.overlay != d && qh.overlay.buf != d.buf)
  }

  /** Lines 98-118 of `ehci_control_transfer`: fill in the SETUP, DATA and STATUS qTDs
      and the QH. */
  method BuildChain(qh: Qh, s: Qtd, d: Qtd?, st: Qtd, devAddr: bv8, ep: bv8, maxPacket: bv16,
                    setup: u32, data: u32, length: u32, inDir: bool)
    requires FreshChain(qh, s, d, st, length)
    modifies qh, qh.overlay, s, s.buf, st, if d != null then {d, d.buf} else {}
    ensures ChainBuilt(qh, s, d, st, devAddr, ep, maxPacket, setup, data, length, inDir)
  {
    BuildSetup(s, if d != null then d.addr else st.addr, setup);
    if d != null {
      BuildData(d, st.addr, data, inDir, length);
    }
    BuildStatus(st, inDir);
    BuildQh(qh, devAddr, ep, maxPacket, s.addr);
  }

  /** Lines 120-133 of `ehci_control_transfer`: hand the QH to the controller, enable
      the asynchronous schedule, wait for the STATUS qTD, and on completion disable the
      schedule again. */
  method Submit(op: nat, bus: Bus, qhAddr: u32, tokenAt: nat -> bv32)
    returns (ok: bool, ghost cmd: bv32, ghost cmd2: bv32)
    modifies bus
    ensures ok <==> exists i :: 0 <= i < POLL_LIMIT && !Active(tokenAt(i))
    ensures bus.trace == old(bus.trace) + SubmitTrace(op, qhAddr, cmd, ok, cmd2)
  {
    cmd, cmd2 := 0, 0;
    ghost var t0 := bus.trace;
    bus.Write32(op, ASYNCLISTADDR, Link(qhAddr));
    var c := bus.Read32(op, USBCMD);
    cmd := c;
    bus.Write32(op, USBCMD, WithAsync(c));
    var done, polls := WaitComplete(tokenAt);
    if !done {
      return false, cmd, cmd2;
    }
    var c2 := bus.Read32(op, USBCMD);
    cmd2 := c2;
    bus.Write32(op, USBCMD, WithoutAsync(c2));
    AppendFour(t0 + [Wr(op, ASYNCLISTADDR, Link(qhAddr))], Rd(op, USBCMD, cmd), Wr(op, USBCMD, WithAsync(cmd)),
      Rd(op, USBCMD, cmd2), Wr(op, USBCMD, WithoutAsync(cmd2)));
    ok := true;
  }

  /** Lines 98-133 of `ehci_control_transfer`, once every descriptor exists: build the
      chain, then submit it. */
  method RunTransfer(op: nat, bus: Bus, qh: Qh, s: Qtd, d: Qtd?, st: Qtd, devAddr: bv8, ep: bv8, maxPacket: bv16,
                     setup: u32, data: u32, length: u32, inDir: bool, tokenAt: nat -> bv32)
    returns (ok: bool, ghost cmd: bv32, ghost cmd2: bv32)
    requires FreshChain(qh, s, d, st, length)
    modifies bus, qh, qh.overlay, s, s.buf, st, if d != null then {d, d.buf} else {}
    ensures ChainBuilt(qh, s, d, st, devAddr, ep, maxPacket, setup, data, length, inDir)
    ensures ok <==> exists i :: 0 <= i < POLL_LIMIT && !Active(tokenAt(i))
    ensures bus.trace == old(bus.trace) + SubmitTrace(op, qh.addr, cmd, ok, cmd2)
  {
    BuildChain(qh, s, d, st, devAddr, ep, maxPacket, setup, data, length, inDir);
    ok, cmd, cmd2 := Submit(op, bus, qh.addr, tokenAt);
  }

  /** A transfer whose descriptors were all allocated. */
  predicate Allocated(qh: Qh?, s: Qtd?, d: Qtd?, st: Qtd?, length: u32)
  {
    qh != null && s != null && st != null && (length != 0 ==> d != null)
  }

  /** `ehci_control_transfer`. A null controller, a controller without operational
      registers or a null SETUP packet fails at once. Otherwise the descriptors are
      allocated; if any of them is missing the transfer fails without a register
      access. Otherwise the chain is built and submitted; the transfer succeeds
      exactly when some poll finds the STATUS token inactive. The heap only grows,
      by the blocks of the descriptors in allocation order when all of them exist. */
  method ControlTransfer(ctrl: Ehci.Controller?, heap: Memory.Heap, bus: Bus, devAddr: bv8, ep: bv8,
                         maxPacket: bv16, setup: u32, data: u32, length: u32, inDir: bool,
                         tokenAt: nat -> bv32)
    returns (ok: bool, ghost qh: Qh?, ghost s: Qtd?, ghost d: Qtd?, ghost st: Qtd?,
             ghost cmd: bv32, ghost cmd2: bv32)
    requires heap.Valid()
    modifies heap`heapCurr, heap`blocks, bus
    ensures heap.Valid()
    ensures ctrl == null || ctrl.opBase == 0 || setup == 0 ==>
      !ok && bus.trace == old(bus.trace) && heap.heapCurr == old(heap.heapCurr) && heap.blocks == old(heap.blocks)
    ensures length == 0 ==> d == null
    ensures !Allocated(qh, s, d, st, length) ==> !ok && bus.trace == old(bus.trace)
    ensures Allocated(qh, s, d, st, length) ==>
      ctrl != null && ChainBuilt(qh, s, d, st, devAddr, ep, maxPacket, setup, data, length, inDir)
      && (ok <==> exists i :: 0 <= i < POLL_LIMIT && !Active(tokenAt(i)))
      && bus.trace == old(bus.trace) + SubmitTrace(ctrl.opBase, qh.addr, cmd, ok, cmd2)
    ensures old(heap.heapCurr) <= heap.heapCurr && Extends(old(heap.blocks), heap.blocks)
    ensures Allocated(qh, s, d, st, length) ==>
      heap.blocks == old(heap.blocks) + ChainBlocks(qh.addr, s.addr, AddrOf(d), st.addr)
  {
    ok, qh, s, d, st, cmd, cmd2 := false, null, null, null, null, 0, 0;
    if ctrl != null && ctrl.opBase != 0 && setup != 0 {
      var qhNew, setupQtd, dataQtd, statusQtd := AllocChain(heap, length);
      qh, s, d, st := qhNew, setupQtd, dataQtd, statusQtd;
      if qhNew != null && setupQtd != null && statusQtd != null && (length != 0 ==> dataQtd != null) {
        label before:
        ok, cmd, cmd2 := RunTransfer(ctrl.opBase, bus, qhNew, setupQtd, dataQtd, statusQtd, devAddr, ep, maxPacket,
                                     setup, data, length, inDir, tokenAt);
        assert unchanged@before(heap);
      }
    }
  }
}

/** Properties of the descriptor encodings built by `EhciTransfer`. */
module EhciTransferFacts {
  import opened Common
  import opened Hw
  import opened EhciTransfer

  /** Every token the driver writes is ACTIVE. */
  lemma TokenIsActive(pid: bv32, len: u32)
    ensures Active(Token(pid, len))
  {
  }

  /** The PID code field holds the PID the token was built with. */
  lemma TokenPid(pid: bv32, len: u32)
    requires pid == PID_SETUP || pid == PID_IN || pid == PID_OUT
    ensures PidCode(Token(pid, len)) == pid >> 8
  {
  }

  /** A length that fits the 15-bit Total Bytes field reads back from it unchanged. */
  lemma TokenBytes(pid: bv32, len: u32)
    requires pid == PID_SETUP || pid == PID_IN || pid == PID_OUT
    requires len <= 0x7FFF
    ensures TotalBytes(Token(pid, len)) == len as bv32
  {
    var x := len as bv32;
    assert x & !0x7FFF == 0 by { SmallHasNoHighBits(len); }
    FieldReadBack(pid, x);
  }

  lemma SmallHasNoHighBits(len: u32)
    requires len <= 0x7FFF
    ensures (len as bv32) & !0x7FFF == 0
  {
    SmallStaysSmall(len);
    BelowHasNoHighBits(len as bv32);
  }

  lemma SmallStaysSmall(len: int)
    requires 0 <= len <= 0x7FFF
    ensures (len as bv32) < 0x8000
  {
  }

  lemma BelowHasNoHighBits(x: bv32)
    requires x < 0x8000
    ensures x & !0x7FFF == 0
  {
  }

  lemma FieldReadBack(pid: bv32, x: bv32)
    requires pid == PID_SETUP || pid == PID_IN || pid == PID_OUT
    requires x & !0x7FFF == 0
    ensures ((ACTIVE | pid | (x << 16)) >> 16) & 0x7FFF == x
  {
  }

  /** A length of 0x8000 is not masked: Total Bytes reads 0 and bit 31, the data
      toggle, is set instead. */
  lemma TokenLongLength(pid: bv32)
    requires pid == PID_SETUP || pid == PID_IN || pid == PID_OUT
    ensures TotalBytes(Token(pid, 0x8000)) == 0 && Token(pid, 0x8000) & 0x8000_0000 != 0
  {
  }

  /** The DATA stage moves in the transfer's direction (IN code 1, OUT code 0) and the
      STATUS stage always in the opposite one, also when there is no DATA stage. */
  lemma StagePids(inDir: bool, len: u32)
    ensures PidCode(Token(DataPid(inDir), len)) == (if inDir then 1 else 0)
    ensures PidCode(Token(StatusPid(inDir), 0)) == (if inDir then 0 else 1)
  {
    TokenPid(DataPid(inDir), len);
    TokenPid(StatusPid(inDir), 0);
  }

  /** The SETUP token asks for 8 bytes with PID code 2. */
  lemma SetupTokenFields()
    ensures PidCode(Token(PID_SETUP, 8)) == 2 && TotalBytes(Token(PID_SETUP, 8)) == 8
  {
    TokenPid(PID_SETUP, 8);
    TokenBytes(PID_SETUP, 8);
  }

  /** Each field of the endpoint-characteristics word reads back masked to its width. */
  lemma EpCharMaxPacket(devAddr: bv8, ep: bv8, maxPacket: bv16)
    ensures (EpChar(devAddr, ep, maxPacket) >> 16) & 0x7FF == (maxPacket as bv32) & 0x7FF
  {
  }

  lemma EpCharEndpoint(devAddr: bv8, ep: bv8, maxPacket: bv16)
    ensures (EpChar(devAddr, ep, maxPacket) >> 8) & 0xF == (ep as bv32) & 0xF
  {
  }

  lemma EpCharAddress(devAddr: bv8, ep: bv8, maxPacket: bv16)
    ensures EpChar(devAddr, ep, maxPacket) & 0x7F == (devAddr as bv32) & 0x7F
  {
  }

  /** Data toggle control (bit 14) is set, and no bit outside the four fields is. */
  lemma EpCharOtherBits(devAddr: bv8, ep: bv8, maxPacket: bv16)
    ensures EpChar(devAddr, ep, maxPacket) & 0x4000 != 0
    ensures EpChar(devAddr, ep, maxPacket) & !0x07FF_4F7F == 0
  {
  }

  /** The base of the 4 KiB page holding `a`. */
  function PageBase(a: nat): (b: nat)
    ensures b <= a < b + 0x1000 && b % 0x1000 == 0
  {
    a - a % 0x1000
  }

  /** Buffer pointers 1 to 4 are the bases of the pages that follow the one the buffer
      starts in, in 32-bit arithmetic (section 3.5.4 of the EHCI specification). */
  lemma {:induction false} BufferPointerIsPage(a: u32, j: nat)
    requires 1 <= j
    ensures BufferPointer(a, j) == Wrap32(PageBase(a) + j * 0x1000)
    ensures BufferPointer(a, j) % 0x1000 == 0
  {
    var k := PageBase(a) + (j - 1) * 0x1000;
    PageMultiple(PageBase(a), j - 1);
    assert k + 0x1000 == PageBase(a) + j * 0x1000;
    var p := if j == 1 then a else BufferPointer(a, j - 1);
    assert BufferPointer(a, j) == NextPage(p);
    if j == 1 {
      assert p - p % 0x1000 == Wrap32(k);
    } else {
      BufferPointerIsPage(a, j - 1);
      assert p - p % 0x1000 == Wrap32(k);
    }
    assert NextPage(p) == Wrap32(Wrap32(k) + 0x1000);
    WrapAdd(k, 0x1000);
    AlignedWrap(k + 0x1000);
  }

  lemma PageMultiple(b: nat, n: nat)
    requires b % 0x1000 == 0
    ensures (b + n * 0x1000) % 0x1000 == 0 && (b + n * 0x1000 + 0x1000) % 0x1000 == 0
  {
  }

  lemma WrapAdd(x: nat, c: nat)
    ensures Wrap32(Wrap32(x) + c) == Wrap32(x + c)
  {
  }

  /** Wrapping keeps page alignment, since 2^32 is a multiple of the page size. */
  lemma AlignedWrap(x: nat)
    requires x % 0x1000 == 0
    ensures Wrap32(x) % 0x1000 == 0
  {
    var q := x / U32_MOD;
    assert x == q * U32_MOD + Wrap32(x);
    assert q * U32_MOD == (q * 0x10_0000) * 0x1000;
  }

  /** Without 32-bit wrap-around, every byte of a buffer that fits the five pages lies
      in the page its buffer pointer names: byte k of a buffer at `a` is in page
      j = (a % 0x1000 + k) / 0x1000, whose base is `PageBase(BufferPointer(a, j))`. */
  lemma BufferCovers(a: u32, k: nat)
    requires a % 0x1000 + k < 5 * 0x1000
    requires PageBase(a) + 5 * 0x1000 <= 0x1_0000_0000
    ensures var j := (a % 0x1000 + k) / 0x1000;
      j < 5 && PageBase(BufferPointer(a, j)) <= a + k < PageBase(BufferPointer(a, j)) + 0x1000
  {
    var j := (a % 0x1000 + k) / 0x1000;
    if j >= 1 {
      BufferPointerIsPage(a, j);
      assert PageBase(a) + j * 0x1000 < 0x1_0000_0000;
      assert BufferPointer(a, j) == PageBase(a) + j * 0x1000;
    }
  }

  /** Submission enables the asynchronous schedule and keeps the other USBCMD bits. */
  lemma SubmitEnablesSchedule(op: nat, qh: u32, cmd: bv32, completed: bool, cmd2: bv32)
    ensures var t := SubmitTrace(op, qh, cmd, completed, cmd2);
      t[0] == Wr(op, ASYNCLISTADDR, Link(qh)) && t[2].Wr? && t[2].off == USBCMD
      && t[2].value & 0x20 != 0 && t[2].value & !0x20 == cmd & !0x20
  {
  }

  /** On completion the schedule is disabled again, keeping the other USBCMD bits;
      after a timeout the last USBCMD write left it enabled. */
  lemma SubmitEndsSchedule(op: nat, qh: u32, cmd: bv32, completed: bool, cmd2: bv32)
    ensures var t := SubmitTrace(op, qh, cmd, completed, cmd2);
      var last := t[|t| - 1];
      last.Wr? && last.off == USBCMD
      && (completed ==> last.value & 0x20 == 0 && last.value & !0x20 == cmd2 & !0x20)
      && (!completed ==> last.value & 0x20 != 0)
  {
  }
}
