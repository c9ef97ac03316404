/** Memory-mapped device registers and I/O ports. A read returns whatever the device supplies,
    so nothing is assumed about its value; every read and write is appended to a
    trace, and properties of a driver are stated over that trace. */
module Hw {

  /** One 32-bit register access at byte offset `off` from the window at address
      `base` (a pointer, so address arithmetic on it does not wrap at 32 bits). */
  datatype Access = Rd(base: nat, off: nat, value: bv32) | Wr(base: nat, off: nat, value: bv32)

  class Bus {
    var trace: seq<Access>

    constructor ()
      ensures trace == []
    {
      trace := [];
    }

    /** `mmio_read32`: the device decides the value. */
    method Read32(base: nat, off: nat) returns (v: bv32)
      modifies this
      ensures trace == old(trace) + [Rd(base, off, v)]
    {
      v :| true;
      trace := trace + [Rd(base, off, v)];
    }

    /** `mmio_write32`. */
    method Write32(base: nat, off: nat, v: bv32)
      modifies this
      ensures trace == old(trace) + [Wr(base, off, v)]
    {
      trace := trace + [Wr(base, off, v)];
    }
  }

  /** One access to an x86 I/O port (`inb` / `outb`). */
  datatype PortAccess = In(port: bv16, value: bv8) | Out(port: bv16, value: bv8)

  /** The I/O port space: as for MMIO, a read returns whatever the device supplies and
      every access is appended to a trace. */
  class Ports {
    var trace: seq<PortAccess>

    constructor ()
      ensures trace == []
    {
      trace := [];
    }

    /** `inb`. */
    method Inb(port: bv16) returns (v: bv8)
      modifies this
      ensures trace == old(trace) + [In(port, v)]
    {
      v :| true;
      trace := trace + [In(port, v)];
    }

    /** `outb`. */
    method Outb(port: bv16, v: bv8)
      modifies this
      ensures trace == old(trace) + [Out(port, v)]
    {
      trace := trace + [Out(port, v)];
    }
  }

  /** The writes of a trace, in order. */
  function Writes(t: seq<Access>): (w: seq<Access>)
    ensures forall a :: a in w ==> a.Wr? && a in t
    ensures forall a :: a in t && a.Wr? ==> a in w
  {
    if t == [] then [] else (if t[0].Wr? then [t[0]] else []) + Writes(t[1..])
  }

  lemma {:induction false} WritesAppend(a: seq<Access>, b: seq<Access>)
    ensures Writes(a + b) == Writes(a) + Writes(b)
  {
    if a == [] {
      assert a + b == b;
    } else {
      assert (a + b)[1..] == a[1..] + b;
      WritesAppend(a[1..], b);
    }
  }
}
