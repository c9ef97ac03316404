/** Keyboard and mouse input of src/input.c: a ring buffer of key actions injected by
    the USB HID driver, PS/2 scan-code set 1 decoding, and the PS/2 mouse packet
    handler that moves the pointer of the window manager. */
module Input {
  import opened Common
  import opened Hw
  import opened UiTypes
  import Framebuffer

  /** `enum key_action`. */
  datatype KeyAction = KeyNone | KeyUp | KeyDown | KeyLeft | KeyRight | KeyEnter | KeyEsc | KeyTab | KeyStart

  const KEY_QUEUE_SIZE: nat := 16
  /** The PS/2 controller's status and data ports. */
  const STATUS_PORT: bv16 := 0x64
  const DATA_PORT: bv16 := 0x60

  // ---------------------------------------------------------------------------
  // Scan-code set 1

  /** An action together with the new value of the `extended` (0xE0 prefix) flag. */
  datatype Decoded = Decoded(action: KeyAction, extended: bool)

  /** Make codes that follow an 0xE0 prefix: the arrow keys. */
  function ExtendedKey(sc: bv8): KeyAction
  {
    if sc == 0x48 then KeyUp else if sc == 0x50 then KeyDown
    else if sc == 0x4B then KeyLeft else if sc == 0x4D then KeyRight else KeyNone
  }

  /** Make codes without prefix: Enter, Esc, Tab and S (used as Start). */
  function PlainKey(sc: bv8): KeyAction
  {
    if sc == 0x1C then KeyEnter else if sc == 0x01 then KeyEsc
    else if sc == 0x0F then KeyTab else if sc == 0x1F then KeyStart else KeyNone
  }

  /** The decoding step of `poll_keyboard` as written: a break code (bit 7 set)
      returns before the `extended` flag is cleared. */
  function DecodeSet1AsWritten(extended: bool, sc: bv8): Decoded
  {
    if sc == 0xE0 then Decoded(KeyNone, true)
    else if sc & 0x80 != 0 then Decoded(KeyNone, extended)
    else if extended then Decoded(ExtendedKey(sc), false)
    else Decoded(PlainKey(sc), false)
  }

  /** The decoding step with the prefix applying to the next byte only, as scan-code
      set 1 defines it: a break code consumes the prefix too. */
  function DecodeSet1(extended: bool, sc: bv8): (d: Decoded)
    ensures d.extended <==> sc == 0xE0
  {
    if sc == 0xE0 then Decoded(KeyNone, true)
    else if sc & 0x80 != 0 then Decoded(KeyNone, false)
    else if extended then Decoded(ExtendedKey(sc), false)
    else Decoded(PlainKey(sc), false)
  }

  /** The actions a byte stream decodes to, starting from flag `extended`, with either
      decoding step. */
  function DecodeStream(asWritten: bool, extended: bool, scs: seq<bv8>): (r: seq<KeyAction>)
    ensures |r| == |scs|
    decreases |scs|
  {
    if scs == [] then []
    else
      var d := if asWritten then DecodeSet1AsWritten(extended, scs[0]) else DecodeSet1(extended, scs[0]);
      [d.action] + DecodeStream(asWritten, d.extended, scs[1..])
  }

  /** Pressing and releasing Up (E0 48, E0 C8) and then pressing Enter (1C): as
      written, the prefix of the break code is still pending and Enter is decoded as
      an unknown extended key and lost. */
  lemma ExtendedFlagCarriesOver()
    ensures DecodeStream(true, false, [0xE0, 0x48, 0xE0, 0xC8, 0x1C]) == [KeyNone, KeyUp, KeyNone, KeyNone, KeyNone]
    ensures DecodeStream(false, false, [0xE0, 0x48, 0xE0, 0xC8, 0x1C]) == [KeyNone, KeyUp, KeyNone, KeyNone, KeyEnter]
  {
    var s: seq<bv8> := [0xE0, 0x48, 0xE0, 0xC8, 0x1C];
    assert s[1..] == [0x48, 0xE0, 0xC8, 0x1C];
    assert s[1..][1..] == [0xE0, 0xC8, 0x1C];
    assert s[1..][1..][1..] == [0xC8, 0x1C];
    assert s[1..][1..][1..][1..] == [0x1C];
  }

  /** With the corrected step, a make code decodes the same whatever came before the
      byte preceding it: only an immediately preceding 0xE0 changes its meaning. */
  lemma DecodeIgnoresOlderHistory(e1: bool, e2: bool, prev: bv8, sc: bv8)
    ensures DecodeSet1(DecodeSet1(e1, prev).extended, sc) == DecodeSet1(DecodeSet1(e2, prev).extended, sc)
  {
  }

  /** The scan code, and whether it carries the 0xE0 prefix, of each action. */
  function MakeCode(a: KeyAction): (r: (bool, bv8))
    requires a != KeyNone
  {
    match a
    case KeyUp => (true, 0x48)
    case KeyDown => (true, 0x50)
    case KeyLeft => (true, 0x4B)
    case KeyRight => (true, 0x4D)
    case KeyEnter => (false, 0x1C)
    case KeyEsc => (false, 0x01)
    case KeyTab => (false, 0x0F)
    case KeyStart => (false, 0x1F)
  }

  /** Decoding yields an action exactly for that action's make code (with prefix
      when it has one), in both directions. */
  lemma DecodeYields(e: bool, sc: bv8, a: KeyAction)
    requires a != KeyNone
    ensures DecodeSet1(e, sc).action == a <==> (e, sc) == MakeCode(a)
  {
  }

  // ---------------------------------------------------------------------------
  // The PS/2 mouse

  /** The part of `struct ui_state` that `poll_mouse` updates. */
  datatype Pointer = Pointer(x: int, y: int, buttons: bv8)

  /** The static state of `poll_mouse` and of the injected-motion fields. */
  datatype MouseSide = MouseSide(
    ptr: Pointer, pendingDx: int, pendingDy: int, pendingButtons: bv8, pendingValid: bool,
    packet: seq<bv8>, cycle: nat)

  /** One coordinate clamped first below at 0 and then above at `(int)size - 1`. */
  function ClampAxis(v: int, size: u32): (c: int)
    ensures 1 <= size < 0x8000_0000 ==> 0 <= c < size
    ensures 1 <= size < 0x8000_0000 && 0 <= v < size ==> c == v
  {
    var low := if v < 0 then 0 else v;
    var max := Framebuffer.IntOfU32(size) - 1;
    if low > max then max else low
  }

  function Clamp(p: Pointer, w: u32, h: u32): Pointer
  {
    Pointer(ClampAxis(p.x, w), ClampAxis(p.y, h), p.buttons)
  }

  /** Moving by (dx, dy): the PS/2 and HID y axis points up, the screen's down. */
  function Move(p: Pointer, dx: int, dy: int, buttons: bv8): Pointer
  {
    Pointer(p.x + dx, p.y - dy, buttons)
  }

  /** Apply and clear the injected motion. */
  function ApplyPending(s: MouseSide, clamp: bool, w: u32, h: u32): MouseSide
  {
    var moved := Move(s.ptr, s.pendingDx, s.pendingDy, s.pendingButtons);
    s.(ptr := if clamp then Clamp(moved, w, h) else moved, pendingDx := 0, pendingDy := 0, pendingValid := false)
  }

  /** Whether `poll_mouse` goes on to read the data port after reading `status`. */
  predicate ReadsData(s: MouseSide, status: bv8)
  {
    status & 1 != 0 && (status & 0x20 != 0 || s.pendingValid)
  }

  /** Store a data byte in the packet buffer. */
  function StoreByte(s: MouseSide, data: bv8): MouseSide
    requires |s.packet| == 3 && s.cycle < 3
  {
    s.(packet := s.packet[s.cycle := data], cycle := s.cycle + 1)
  }

  /** A complete three-byte packet: buttons and signed motion, clamped; then any
      injected motion, clamped again. */
  function CompletePacket(s: MouseSide, w: u32, h: u32): MouseSide
    requires |s.packet| == 3
  {
    var p := s.packet;
    var moved := Clamp(Move(s.ptr, SignedByte(p[1]), SignedByte(p[2]), p[0] & 7), w, h);
    var s3 := s.(ptr := moved, cycle := 0);
    if s3.pendingValid then ApplyPending(s3, true, w, h) else s3
  }

  /** The effect of `poll_mouse` given the status byte and, when it is read, the data
      byte. */
  function MouseStep(s: MouseSide, status: bv8, data: bv8, w: u32, h: u32): MouseSide
    requires |s.packet| == 3 && s.cycle < 3
  {
    if !ReadsData(s, status) then s
    else
      var s1 := if status & 0x20 == 0 then ApplyPending(s, false, w, h) else s;
      var s2 := StoreByte(s1, data);
      if s2.cycle < 3 then s2 else CompletePacket(s2, w, h)
  }

  /** When a packet completes, the pointer ends on the screen and the pending motion
      is consumed. */
  lemma PacketClampsPointer(s: MouseSide, status: bv8, data: bv8, w: u32, h: u32)
    requires |s.packet| == 3 && s.cycle == 2 && ReadsData(s, status)
    requires 1 <= w < 0x8000_0000 && 1 <= h < 0x8000_0000
    ensures var t := MouseStep(s, status, data, w, h);
      0 <= t.ptr.x < w && 0 <= t.ptr.y < h && !t.pendingValid && t.cycle == 0
      && t.ptr.buttons == (if s.pendingValid && status & 0x20 != 0 then s.pendingButtons else s.packet[0] & 7)
  {
  }

  /** A completed packet moves the pointer by its signed deltas (y inverted), clamped. */
  lemma PacketMoves(s: MouseSide, status: bv8, data: bv8, w: u32, h: u32)
    requires |s.packet| == 3 && s.cycle == 2 && status & 1 != 0 && status & 0x20 != 0 && !s.pendingValid
    ensures MouseStep(s, status, data, w, h).ptr
      == Pointer(ClampAxis(s.ptr.x + SignedByte(s.packet[1]), w), ClampAxis(s.ptr.y - SignedByte(data), h), s.packet[0] & 7)
  {
  }

  /** On the path for a byte that is not from the auxiliary device, the injected
      motion is applied without clamping: the pointer can leave the screen until the
      next completed packet. */
  lemma InjectedMotionUnclamped(s: MouseSide, status: bv8, data: bv8, w: u32, h: u32)
    requires |s.packet| == 3 && s.cycle < 2 && s.pendingValid && status & 1 != 0 && status & 0x20 == 0
    ensures var t := MouseStep(s, status, data, w, h);
      t.ptr == Move(s.ptr, s.pendingDx, s.pendingDy, s.pendingButtons) && !t.pendingValid
      && t.packet[s.cycle] == data && t.cycle == s.cycle + 1
  {
  }

  /** Without output-buffer data, or with a keyboard byte and nothing injected,
      `poll_mouse` changes nothing. */
  lemma NoDataNoChange(s: MouseSide, status: bv8, data: bv8, w: u32, h: u32)
    requires |s.packet| == 3 && s.cycle < 3
    requires status & 1 == 0 || (status & 0x20 == 0 && !s.pendingValid)
    ensures MouseStep(s, status, data, w, h) == s
  {
  }

  // ---------------------------------------------------------------------------
  // The driver state

  /** The ring index `(h + i) % 16`. */
  function Slot(h: nat, i: nat): (r: nat)
    requires h < 16 && i < 16
    ensures r < 16 && r == (h + i) % 16
  {
    if h + i < 16 then h + i else h + i - 16
  }

  /** The number of queued actions, `(t - h) % 16`. */
  function Count(h: nat, t: nat): (n: nat)
    requires h < 16 && t < 16
    ensures n < 16 && Slot(h, n) == t
  {
    if h <= t then t - h else t + 16 - h
  }

  /** The keyboard statics of src/input.c: the ring buffer `key_queue` with
      `key_head` and `key_tail`, and the `extended` flag of `poll_keyboard`.
      `contents` is the queue's contents, oldest first. */
  class Keyboard {
    const queue: array<KeyAction>
    var head: nat
    var tail: nat
    ghost var contents: seq<KeyAction>
    var extended: bool

    ghost predicate Valid()
      reads this, queue
    {
      queue.Length == KEY_QUEUE_SIZE && head < 16 && tail < 16
      && |contents| == Count(head, tail)
      && forall i :: 0 <= i < |contents| ==> contents[i] == queue[Slot(head, i)]
    }

    /** The zero-initialised statics: an empty queue. */
    constructor ()
      ensures Valid() && contents == [] && !extended && fresh(queue)
    {
      queue := new KeyAction[16](_ => KeyNone);
      head, tail, contents := 0, 0, [];
      extended := false;
    }

    /** The queue holds at most 15 actions: one slot always stays empty. */
    lemma AtMostFifteen()
      requires Valid()
      ensures |contents| <= 15
    {
    }

    /** `input_inject_key`: append the action unless the queue is full, in which case
        the action is dropped and nothing changes. */
    method InjectKey(action: KeyAction)
      requires Valid()
      modifies queue, this`tail, this`contents
      ensures Valid()
      ensures |old(contents)| == 15 ==> contents == old(contents) && tail == old(tail)
      ensures |old(contents)| < 15 ==> contents == old(contents) + [action]
    {
      var next := (tail + 1) % KEY_QUEUE_SIZE;
      if next == head {
        return;
      }
      queue[tail] := action;
      tail := next;
      contents := contents + [action];
      forall i | 0 <= i < |contents|
        ensures contents[i] == queue[Slot(head, i)]
      {
        if i < |contents| - 1 {
          assert Slot(head, i) != old(tail);
        }
      }
    }

    /** Whether a status byte announces a keyboard byte: output buffer full (bit 0)
        and not from the auxiliary device (bit 5). */
    static predicate KeyReady(status: bv8)
    {
      status & 1 != 0 && status & 0x20 == 0
    }

    /** `poll_keyboard`: an injected action is returned first, oldest first, without
        touching the controller; otherwise one byte is read and decoded when the
        status announces a keyboard byte. */
    method PollKeyboard(ports: Ports) returns (action: KeyAction, ghost status: bv8, ghost sc: bv8)
      requires Valid()
      modifies this`head, this`contents, this`extended, ports
      ensures Valid()
      ensures old(contents) != [] ==> (action == old(contents)[0] && contents == old(contents)[1..]
        && ports.trace == old(ports.trace) && extended == old(extended))
      ensures old(contents) == [] && !KeyReady(status) ==> (action == KeyNone && contents == []
        && ports.trace == old(ports.trace) + [In(STATUS_PORT, status)] && extended == old(extended))
      ensures old(contents) == [] && KeyReady(status) ==> (contents == []
        && ports.trace == old(ports.trace) + [In(STATUS_PORT, status), In(DATA_PORT, sc)]
        && Decoded(action, extended) == DecodeSet1(old(extended), sc))
    {
      status, sc := 0, 0;
      if head != tail {
        action := Dequeue();
        return;
      }
      action, status, sc := ReadScancode(ports);
    }

    /** The oldest injected action, removed from the queue. */
    method Dequeue() returns (action: KeyAction)
      requires Valid() && head != tail
      modifies this`head, this`contents
      ensures Valid()
      ensures old(contents) != [] && action == old(contents)[0] && contents == old(contents)[1..]
    {
      action := queue[head];
      ghost var h := head;
      head := (head + 1) % KEY_QUEUE_SIZE;
      contents := contents[1..];
      forall i | 0 <= i < |contents|
        ensures contents[i] == queue[Slot(head, i)]
      {
        assert Slot(head, i) == Slot(h, i + 1);
      }
    }

    /** One status read and, when it announces a keyboard byte, one data read and
        its decoding. */
    method ReadScancode(ports: Ports) returns (action: KeyAction, ghost status: bv8, ghost sc: bv8)
      modifies this`extended, ports
      ensures !KeyReady(status) ==> (action == KeyNone
        && ports.trace == old(ports.trace) + [In(STATUS_PORT, status)] && extended == old(extended))
      ensures KeyReady(status) ==> (ports.trace == old(ports.trace) + [In(STATUS_PORT, status), In(DATA_PORT, sc)]
        && Decoded(action, extended) == DecodeSet1(old(extended), sc))
    {
      sc := 0;
      var st := ports.Inb(STATUS_PORT);
      status := st;
      if st & 1 == 0 || st & 0x20 != 0 {
        return KeyNone, status, sc;
      }
      var code := ports.Inb(DATA_PORT);
      sc := code;
      var d := DecodeSet1(extended, code);
      action, extended := d.action, d.extended;
    }
  }

  /** The mouse statics of src/input.c: the motion injected by the USB driver and
      the packet buffer and byte counter of `poll_mouse`. */
  class Mouse {
    var pendingDx: int
    var pendingDy: int
    var pendingButtons: bv8
    var pendingValid: bool
    const packet: array<bv8>
    var cycle: nat

    ghost predicate Valid()
      reads this
    {
      packet.Length == 3 && cycle < 3
    }

    /** The zero-initialised statics. */
    constructor ()
      ensures Valid() && fresh(packet) && cycle == 0
      ensures pendingDx == 0 && pendingDy == 0 && pendingButtons == 0 && !pendingValid
    {
      packet := new bv8[3](_ => 0);
      pendingDx, pendingDy, pendingButtons, pendingValid := 0, 0, 0, false;
      cycle := 0;
    }

    /** `input_inject_mouse`: motion accumulates, buttons are overwritten. */
    method InjectMouse(dx: int, dy: int, buttons: bv8)
      modifies this
      ensures pendingDx == old(pendingDx) + dx && pendingDy == old(pendingDy) + dy
      ensures pendingButtons == buttons && pendingValid && cycle == old(cycle)
    {
      pendingDx := pendingDx + dx;
      pendingDy := pendingDy + dy;
      pendingButtons := buttons;
      pendingValid := true;
    }

    /** The pointer of `state` and the mouse statics, as one value. */
    ghost function Side(state: UiState): MouseSide
      reads this, packet, state
    {
      MouseSide(Pointer(state.mouseX, state.mouseY, state.mouseButtons),
                pendingDx, pendingDy, pendingButtons, pendingValid, packet[..], cycle)
    }

    /** `poll_mouse`: read the status and, when it goes on, one data byte; the new
        pointer and statics are `MouseStep` of the old ones. */
    method PollMouse(state: UiState, fb: Framebuffer.Surface, ports: Ports)
      returns (ghost status: bv8, ghost data: bv8)
      requires Valid()
      modifies this, packet, ports, state`mouseX, state`mouseY, state`mouseButtons
      ensures Valid()
      ensures Side(state) == MouseStep(old(Side(state)), status, data, fb.width, fb.height)
      ensures ReadsData(old(Side(state)), status) ==>
        ports.trace == old(ports.trace) + [In(STATUS_PORT, status), In(DATA_PORT, data)]
      ensures !ReadsData(old(Side(state)), status) ==> ports.trace == old(ports.trace) + [In(STATUS_PORT, status)]
    {
      data := 0;
      var st := ports.Inb(STATUS_PORT);
      status := st;
      if st & 1 != 0 && (st & 0x20 != 0 || pendingValid) {
        if st & 0x20 == 0 {
          ApplyInjected(state);
        }
        var b := ports.Inb(DATA_PORT);
        data := b;
        packet[cycle] := b;
        cycle := cycle + 1;
        if cycle == 3 {
          FinishPacket(state, fb);
        }
      }
    }

    /** The non-auxiliary path of `poll_mouse`: the injected motion is applied,
        unclamped, and cleared. */
    method ApplyInjected(state: UiState)
      requires Valid()
      modifies this, state`mouseX, state`mouseY, state`mouseButtons
      ensures Valid()
      ensures Side(state) == ApplyPending(old(Side(state)), false, 0, 0)
    {
      var ptr := Move(Pointer(state.mouseX, state.mouseY, state.mouseButtons), pendingDx, pendingDy, pendingButtons);
      pendingDx, pendingDy, pendingValid := 0, 0, false;
      state.mouseX, state.mouseY, state.mouseButtons := ptr.x, ptr.y, ptr.buttons;
    }

    /** The part of `poll_mouse` after the third byte of a packet is stored. */
    method FinishPacket(state: UiState, fb: Framebuffer.Surface)
      requires packet.Length == 3 && cycle == 3
      modifies this, state`mouseX, state`mouseY, state`mouseButtons
      ensures Valid()
      ensures Side(state) == CompletePacket(old(Side(state)), fb.width, fb.height)
    {
      ghost var s0 := Side(state);
      var ptr := Pointer(state.mouseX, state.mouseY, state.mouseButtons);
      ptr := Clamp(Move(ptr, SignedByte(packet[1]), SignedByte(packet[2]), packet[0] & 7), fb.width, fb.height);
      ghost var s3 := s0.(ptr := ptr, cycle := 0);
      if pendingValid {
        ptr := Clamp(Move(ptr, pendingDx, pendingDy, pendingButtons), fb.width, fb.height);
        pendingDx, pendingDy, pendingValid := 0, 0, false;
      }
      cycle := 0;
      state.mouseX, state.mouseY, state.mouseButtons := ptr.x, ptr.y, ptr.buttons;
      assert Side(state) == (if s3.pendingValid then ApplyPending(s3, true, fb.width, fb.height) else s3);
    }
  }
}
