/** The part of the tamalib engine state that a snapshot covers.
    `tamalib_get_state()` hands out pointers into the engine's registers,
    timers, interrupt slots and memory; here that state is one object whose
    fields the snapshot codec reads and writes. */
module Engine {
  import opened Types

  /** Architectural sizes of the E0C6S46 core emulated by tamalib. */
  const INT_SLOT_NUM: nat := 6
  /** RAM nibbles, addresses 0x000 to 0x27F. */
  const MEM_RAM_SIZE: nat := 640
  /** I/O nibbles, addresses 0xF00 to 0xF7F. */
  const MEM_IO_SIZE: nat := 128

  /** One interrupt slot: factor flags and mask (4 bits each in the
      hardware) and the triggered flag (a bool_t). */
  datatype Interrupt = Interrupt(factorFlagReg: u8, maskReg: u8, triggered: u8)

  /** The value of every engine field a snapshot saves, at storage width. */
  datatype Snapshot = Snapshot(
    pc: u16, x: u16, y: u16,
    a: u8, b: u8, np: u8, sp: u8, flags: u8,
    tickCounter: u32,
    clkTimer2hzTimestamp: u32, clkTimer4hzTimestamp: u32,
    clkTimer8hzTimestamp: u32, clkTimer16hzTimestamp: u32,
    clkTimer32hzTimestamp: u32, clkTimer64hzTimestamp: u32,
    clkTimer128hzTimestamp: u32, clkTimer256hzTimestamp: u32,
    progTimerTimestamp: u32, progTimerEnabled: u8,
    progTimerData: u8, progTimerRld: u8,
    callDepth: u32,
    interrupts: seq<Interrupt>, ram: seq<u8>, io: seq<u8>)

  /** The collections have the engine's fixed sizes. */
  predicate WellSized(s: Snapshot) {
    |s.interrupts| == INT_SLOT_NUM && |s.ram| == MEM_RAM_SIZE && |s.io| == MEM_IO_SIZE
  }

  class State {
    var pc: u16
    var x: u16
    var y: u16
    var a: u8
    var b: u8
    var np: u8
    var sp: u8
    var flags: u8
    var tickCounter: u32
    var clkTimer2hzTimestamp: u32
    var clkTimer4hzTimestamp: u32
    var clkTimer8hzTimestamp: u32
    var clkTimer16hzTimestamp: u32
    var clkTimer32hzTimestamp: u32
    var clkTimer64hzTimestamp: u32
    var clkTimer128hzTimestamp: u32
    var clkTimer256hzTimestamp: u32
    var progTimerTimestamp: u32
    var progTimerEnabled: u8
    var progTimerData: u8
    var progTimerRld: u8
    var callDepth: u32
    const interrupts: array<Interrupt>
    const ram: array<u8>
    const io: array<u8>

    /** The engine state at each call of `tamalib_refresh_hw`, oldest first. */
    ghost var refreshes: seq<Snapshot>

    ghost predicate Valid()
      reads this
    {
      interrupts.Length == INT_SLOT_NUM && ram.Length == MEM_RAM_SIZE &&
      io.Length == MEM_IO_SIZE && ram != io
    }

    ghost function Abstract(): (s: Snapshot)
      reads this, interrupts, ram, io
      requires Valid()
      ensures WellSized(s)
    {
      Snapshot(pc, x, y, a, b, np, sp, flags, tickCounter,
               clkTimer2hzTimestamp, clkTimer4hzTimestamp,
               clkTimer8hzTimestamp, clkTimer16hzTimestamp,
               clkTimer32hzTimestamp, clkTimer64hzTimestamp,
               clkTimer128hzTimestamp, clkTimer256hzTimestamp,
               progTimerTimestamp, progTimerEnabled,
               progTimerData, progTimerRld, callDepth,
               interrupts[..], ram[..], io[..])
    }

  }
}
