/** The snapshot codec of src/state.c: `state_save` writes the engine state
    into a fixed-layout byte blob and `state_load` validates the blob's header
    and writes the fields back into the engine. */
module StateCodec {
  import opened Types
  import opened Engine

  /** "TLST" as bytes. */
  const STATE_FILE_MAGIC: seq<u8> := [0x54, 0x4C, 0x53, 0x54]
  const STATE_FILE_VERSION: u8 := 3
  /** Bytes of magic, version, registers and timers before the interrupt slots. */
  const FIXED_SIZE: nat := 63
  const INT_OFFSET: nat := FIXED_SIZE
  const RAM_OFFSET: nat := INT_OFFSET + INT_SLOT_NUM * 3
  const IO_OFFSET: nat := RAM_OFFSET + MEM_RAM_SIZE
  const SAVE_SIZE: nat := 63 + INT_SLOT_NUM * 3 + MEM_RAM_SIZE + MEM_IO_SIZE

  /** The diagnostics `state_load` prints before giving up. */
  datatype LoadError = WrongMagic | UnsupportedVersion(found: u8)

  // ---------------------------------------------------------------------
  // Encoding: the byte layout `state_save` produces, piece by piece.

  /** A 16-bit register as two little-endian bytes, the high byte masked to
      `hiModulus - 1` (0x1F for the 13-bit PC, 0xF for the 12-bit X and Y). */
  function U16Bytes(v: u16, hiModulus: nat): seq<u8>
    requires 0 < hiModulus <= 0x100
  {
    [v % 0x100, (v / 0x100) % hiModulus]
  }

  /** A 32-bit value as four little-endian bytes. */
  function U32Bytes(v: u32): seq<u8> {
    [v % 0x100, (v / 0x100) % 0x100, (v / 0x1_0000) % 0x100, (v / 0x100_0000) % 0x100]
  }

  /** Bytes 0 to 4: the magic and the version. */
  function HeaderBytes(): seq<u8> {
    STATE_FILE_MAGIC + [STATE_FILE_VERSION]
  }

  /** Bytes 5 to 15: PC, X and Y as masked little-endian u16, then A, B,
      NP, SP and flags as one byte each. */
  function RegisterBytes(s: Snapshot): seq<u8> {
    [s.pc % 0x100, (s.pc / 0x100) % 0x20,
     s.x % 0x100, (s.x / 0x100) % 0x10,
     s.y % 0x100, (s.y / 0x100) % 0x10,
     s.a % 0x10, s.b % 0x10, s.np % 0x20, s.sp, s.flags % 0x10]
  }

  /** The tick counter, the eight clock timer timestamps and the
      programmable timer timestamp, in struct order. */
  function TimerValues(s: Snapshot): seq<u32> {
    [s.tickCounter,
     s.clkTimer2hzTimestamp, s.clkTimer4hzTimestamp, s.clkTimer8hzTimestamp,
     s.clkTimer16hzTimestamp, s.clkTimer32hzTimestamp, s.clkTimer64hzTimestamp,
     s.clkTimer128hzTimestamp, s.clkTimer256hzTimestamp,
     s.progTimerTimestamp]
  }

  /** u32 values as consecutive four-byte little-endian groups. */
  function Words(vs: seq<u32>): seq<u8> {
    if |vs| == 0 then [] else Words(vs[..|vs| - 1]) + U32Bytes(vs[|vs| - 1])
  }

  /** Bytes 16 to 55: the ten timer values. */
  function TimerBytes(s: Snapshot): seq<u8> {
    Words(TimerValues(s))
  }

  /** Bytes 56 to 62: programmable timer flag, data and reload, then the call depth. */
  function TailBytes(s: Snapshot): seq<u8> {
    [s.progTimerEnabled % 2, s.progTimerData, s.progTimerRld] + U32Bytes(s.callDepth)
  }

  /** Magic, version and every register and timer field, in struct order. */
  function FixedBytes(s: Snapshot): seq<u8> {
    HeaderBytes() + RegisterBytes(s) + TimerBytes(s) + TailBytes(s)
  }

  /** Three bytes per slot: factor flags, mask, triggered. */
  function SlotBytes(it: Interrupt): seq<u8> {
    [it.factorFlagReg % 0x10, it.maskReg % 0x10, it.triggered % 2]
  }

  function InterruptBytes(ints: seq<Interrupt>): seq<u8> {
    if |ints| == 0 then [] else InterruptBytes(ints[..|ints| - 1]) + SlotBytes(ints[|ints| - 1])
  }

  /** Memory cells as nibbles, one per byte. */
  function Nibbles(m: seq<u8>): seq<u8> {
    seq(|m|, k requires 0 <= k < |m| => m[k] % 0x10)
  }

  /** The blob `state_save` returns for an engine in state `s`. */
  function Encode(s: Snapshot): seq<u8> {
    FixedBytes(s) + InterruptBytes(s.interrupts) + Nibbles(s.ram) + Nibbles(s.io)
  }

  // ---------------------------------------------------------------------
  // Decoding: what `state_load` reads at each fixed offset.

  /** `b0 | b1 << 8 | b2 << 16 | b3 << 24` (disjoint bits, so a sum). */
  function Le32(b0: u8, b1: u8, b2: u8, b3: u8): u32 {
    b0 + b1 * 0x100 + b2 * 0x1_0000 + b3 * 0x100_0000
  }

  function U32At(b: seq<u8>, k: nat): u32
    requires k + 4 <= |b|
  {
    Le32(b[k], b[k + 1], b[k + 2], b[k + 3])
  }

  /** A 16-bit register read back from two little-endian bytes, the high
      byte masked to `hiModulus - 1`. */
  function U16At(b: seq<u8>, k: nat, hiModulus: nat): u16
    requires k + 2 <= |b| && 0 < hiModulus <= 0x100
  {
    b[k] + (b[k + 1] as int % hiModulus) * 0x100
  }

  /** The header check of `state_load`: magic first, then version. */
  function CheckHeader(b: seq<u8>): (r: Option<LoadError>)
    requires |b| >= 5
    ensures r == None <==> b[..4] == STATE_FILE_MAGIC && b[4] == STATE_FILE_VERSION
    ensures r == Some(WrongMagic) <==> b[..4] != STATE_FILE_MAGIC
    ensures r.Some? && r.value.UnsupportedVersion? ==> r.value == UnsupportedVersion(b[4])
  {
    if b[0] != STATE_FILE_MAGIC[0] || b[1] != STATE_FILE_MAGIC[1]
       || b[2] != STATE_FILE_MAGIC[2] || b[3] != STATE_FILE_MAGIC[3]
    then Some(WrongMagic)
    else if b[4] != STATE_FILE_VERSION then Some(UnsupportedVersion(b[4]))
    else None
  }

  /** The engine state `state_load` writes from blob `b` once its header is good. */
  function Decode(b: seq<u8>): Snapshot
    requires |b| >= SAVE_SIZE
  {
    Snapshot(
      pc := U16At(b, 5, 0x20), x := U16At(b, 7, 0x10), y := U16At(b, 9, 0x10),
      a := b[11] % 0x10, b := b[12] % 0x10, np := b[13] % 0x20,
      sp := b[14], flags := b[15] % 0x10,
      tickCounter := U32At(b, 16),
      clkTimer2hzTimestamp := U32At(b, 20), clkTimer4hzTimestamp := U32At(b, 24),
      clkTimer8hzTimestamp := U32At(b, 28), clkTimer16hzTimestamp := U32At(b, 32),
      clkTimer32hzTimestamp := U32At(b, 36), clkTimer64hzTimestamp := U32At(b, 40),
      clkTimer128hzTimestamp := U32At(b, 44), clkTimer256hzTimestamp := U32At(b, 48),
      progTimerTimestamp := U32At(b, 52),
      progTimerEnabled := b[56] % 2, progTimerData := b[57], progTimerRld := b[58],
      callDepth := U32At(b, 59),
      interrupts := SlotsAt(b, INT_OFFSET, INT_SLOT_NUM),
      ram := NibblesAt(b, RAM_OFFSET, MEM_RAM_SIZE),
      io := NibblesAt(b, IO_OFFSET, MEM_IO_SIZE))
  }

  /** `n` interrupt slots read from three bytes each, starting at `offset`. */
  function SlotsAt(b: seq<u8>, offset: nat, n: nat): seq<Interrupt>
    requires offset + 3 * n <= |b|
  {
    seq(n, i requires 0 <= i < n =>
      Interrupt(b[offset + 3 * i] % 0x10, b[offset + 3 * i + 1] % 0x10, b[offset + 3 * i + 2] % 2))
  }

  /** `n` memory cells read from one byte each, starting at `offset`, as nibbles. */
  function NibblesAt(b: seq<u8>, offset: nat, n: nat): seq<u8>
    requires offset + n <= |b|
  {
    seq(n, k requires 0 <= k < n => b[offset + k] % 0x10)
  }

  /** An interrupt slot with its fields at their architectural widths. */
  function MaskSlot(it: Interrupt): Interrupt {
    Interrupt(it.factorFlagReg % 0x10, it.maskReg % 0x10, it.triggered % 2)
  }

  /** Every field reduced to its architectural width: 13-bit PC, 12-bit X
      and Y, 4-bit A, B and flags, 5-bit NP, 1-bit timer flag, 4-bit memory cells. */
  function Masked(s: Snapshot): Snapshot {
    s.(pc := s.pc % 0x2000, x := s.x % 0x1000, y := s.y % 0x1000,
       a := s.a % 0x10, b := s.b % 0x10, np := s.np % 0x20, flags := s.flags % 0x10,
       progTimerEnabled := s.progTimerEnabled % 2,
       interrupts := seq(|s.interrupts|, i requires 0 <= i < |s.interrupts| => MaskSlot(s.interrupts[i])),
       ram := Nibbles(s.ram), io := Nibbles(s.io))
  }

  // ---------------------------------------------------------------------
  // Arithmetic of the masks and little-endian splits.

  /** Splitting a register into a low byte and a masked high byte and
      joining them again keeps exactly its low bits. */
  lemma U16Join(v: u16, hiModulus: nat)
    requires hiModulus == 0x10 || hiModulus == 0x20
    ensures var e := U16Bytes(v, hiModulus);
            e[0] + (e[1] % hiModulus) * 0x100 == v % (0x100 * hiModulus)
  {
    if hiModulus == 0x10 {
      Join12(v);
    } else {
      Join13(v);
    }
  }

  lemma Join12(v: u16)
    ensures v % 0x100 + ((v / 0x100) % 0x10) * 0x100 == v % 0x1000
  {
    var lo, q := v % 0x100, v / 0x100;
    var hi, top := q % 0x10, q / 0x10;
    assert v == q * 0x100 + lo && q == top * 0x10 + hi;
    assert v == top * 0x1000 + (hi * 0x100 + lo) && 0 <= hi * 0x100 + lo < 0x1000;
  }

  lemma Join13(v: u16)
    ensures v % 0x100 + ((v / 0x100) % 0x20) * 0x100 == v % 0x2000
  {
    var lo, q := v % 0x100, v / 0x100;
    var hi, top := q % 0x20, q / 0x20;
    assert v == q * 0x100 + lo && q == top * 0x20 + hi;
    assert v == top * 0x2000 + (hi * 0x100 + lo) && 0 <= hi * 0x100 + lo < 0x2000;
  }

  /** The four little-endian bytes of a u32 reassemble to it. */
  lemma U32Join(v: u32)
    ensures var e := U32Bytes(v); Le32(e[0], e[1], e[2], e[3]) == v
  {
    var q1 := v / 0x100;
    var q2 := q1 / 0x100;
    var q3 := q2 / 0x100;
    assert v == q1 * 0x100 + v % 0x100;
    assert q1 == q2 * 0x100 + q1 % 0x100;
    assert q2 == q3 * 0x100 + q2 % 0x100;
    assert v / 0x1_0000 == q2;
    assert v / 0x100_0000 == q3;
  }

  // ---------------------------------------------------------------------
  // Layout of the blob.

  lemma {:induction false} InterruptBytesLength(ints: seq<Interrupt>)
    ensures |InterruptBytes(ints)| == 3 * |ints|
  {
    if |ints| > 0 {
      InterruptBytesLength(ints[..|ints| - 1]);
    }
  }

  /** Slot `i` occupies bytes `3i`, `3i+1` and `3i+2` of the interrupt area. */
  lemma {:induction false} InterruptBytesAt(ints: seq<Interrupt>, i: nat)
    requires i < |ints|
    ensures |InterruptBytes(ints)| == 3 * |ints|
    ensures InterruptBytes(ints)[3 * i..3 * i + 3] == SlotBytes(ints[i])
  {
    InterruptBytesLength(ints);
    var n := |ints| - 1;
    var init := ints[..n];
    var area := InterruptBytes(ints);
    assert area == InterruptBytes(init) + SlotBytes(ints[n]);
    InterruptBytesLength(init);
    if i < n {
      InterruptBytesAt(init, i);
      assert init[i] == ints[i];
      assert area[3 * i..3 * i + 3] == InterruptBytes(init)[3 * i..3 * i + 3];
    } else {
      assert area[3 * n..3 * n + 3] == SlotBytes(ints[n]);
    }
  }

  lemma {:induction false} WordsLength(vs: seq<u32>)
    ensures |Words(vs)| == 4 * |vs|
  {
    if |vs| > 0 {
      WordsLength(vs[..|vs| - 1]);
    }
  }

  /** Value `i` occupies bytes `4i` to `4i+3` of its group. */
  lemma {:induction false} WordsAt(vs: seq<u32>, i: nat)
    requires i < |vs|
    ensures |Words(vs)| == 4 * |vs|
    ensures Words(vs)[4 * i..4 * i + 4] == U32Bytes(vs[i])
  {
    WordsLength(vs);
    var n := |vs| - 1;
    var init := vs[..n];
    var all := Words(vs);
    assert all == Words(init) + U32Bytes(vs[n]);
    WordsLength(init);
    if i < n {
      WordsAt(init, i);
      assert init[i] == vs[i];
      assert all[4 * i..4 * i + 4] == Words(init)[4 * i..4 * i + 4];
    } else {
      assert all[4 * n..4 * n + 4] == U32Bytes(vs[n]);
    }
  }

  /** The blob has the fixed size and its four areas start at the fixed offsets. */
  lemma EncodeLayout(s: Snapshot)
    requires WellSized(s)
    ensures |Encode(s)| == SAVE_SIZE
    ensures Encode(s)[..FIXED_SIZE] == FixedBytes(s)
    ensures Encode(s)[INT_OFFSET..RAM_OFFSET] == InterruptBytes(s.interrupts)
    ensures Encode(s)[RAM_OFFSET..IO_OFFSET] == Nibbles(s.ram)
    ensures Encode(s)[IO_OFFSET..] == Nibbles(s.io)
  {
    WordsLength(TimerValues(s));
    InterruptBytesLength(s.interrupts);
  }

  /** The saved blob always has `SAVE_SIZE` bytes and passes `state_load`'s header check. */
  lemma SaveSizeAndHeader(s: Snapshot)
    requires WellSized(s)
    ensures |Encode(s)| == SAVE_SIZE
    ensures Encode(s)[..4] == STATE_FILE_MAGIC && Encode(s)[4] == STATE_FILE_VERSION
    ensures CheckHeader(Encode(s)) == None
  {
    EncodeLayout(s);
    assert Encode(s)[..4] == FixedBytes(s)[..4];
  }

  /** A byte at offset `j` of a section that sits at offset `k` of the blob. */
  lemma ByteInSection(b: seq<u8>, k: nat, t: seq<u8>, j: nat)
    requires k + |t| <= |b| && b[k..k + |t|] == t && j < |t|
    ensures b[k + j] == t[j]
  {
    assert b[k + j] == b[k..k + |t|][j];
  }

  /** A slice at offset `j` of a section that sits at offset `k` of the blob. */
  lemma SliceInSection(b: seq<u8>, k: nat, t: seq<u8>, j: nat, n: nat)
    requires k + |t| <= |b| && b[k..k + |t|] == t && j + n <= |t|
    ensures b[k + j..k + j + n] == t[j..j + n]
  {
    var u, w := b[k + j..k + j + n], t[j..j + n];
    forall i | 0 <= i < n ensures u[i] == w[i] {
      assert u[i] == b[k..k + |t|][j + i];
    }
  }

  /** A u32 field found at offset `j` of a section that sits at offset `k` of the blob. */
  lemma U32InSection(b: seq<u8>, k: nat, t: seq<u8>, j: nat, v: u32)
    requires k + |t| <= |b| && b[k..k + |t|] == t
    requires j + 4 <= |t| && t[j..j + 4] == U32Bytes(v)
    ensures U32At(b, k + j) == v
  {
    var w := b[k..k + |t|];
    assert b[k + j] == w[j] == t[j..j + 4][0];
    assert b[k + j + 1] == w[j + 1] == t[j..j + 4][1];
    assert b[k + j + 2] == w[j + 2] == t[j..j + 4][2];
    assert b[k + j + 3] == w[j + 3] == t[j..j + 4][3];
    U32Join(v);
  }

  /** A masked u16 register at offset `j` of a section that sits at offset `k` of the blob. */
  lemma U16InSection(b: seq<u8>, k: nat, t: seq<u8>, j: nat, v: u16, hiModulus: nat)
    requires hiModulus == 0x10 || hiModulus == 0x20
    requires k + |t| <= |b| && b[k..k + |t|] == t
    requires j + 2 <= |t| && t[j..j + 2] == U16Bytes(v, hiModulus)
    ensures U16At(b, k + j, hiModulus) == v % (0x100 * hiModulus)
  {
    var w := b[k..k + |t|];
    assert b[k + j] == w[j] == t[j..j + 2][0];
    assert b[k + j + 1] == w[j + 1] == t[j..j + 2][1];
    U16Join(v, hiModulus);
  }

  /** The registers decoded from a blob whose bytes 5 to 15 are
      `RegisterBytes(s)` are those of `s` under their masks. */
  lemma DecodeRegisters(b: seq<u8>, s: Snapshot)
    requires |b| >= SAVE_SIZE && b[5..16] == RegisterBytes(s)
    ensures U16At(b, 5, 0x20) == s.pc % 0x2000
    ensures U16At(b, 7, 0x10) == s.x % 0x1000 && U16At(b, 9, 0x10) == s.y % 0x1000
    ensures b[11] % 0x10 == s.a % 0x10 && b[12] % 0x10 == s.b % 0x10
    ensures b[13] % 0x20 == s.np % 0x20 && b[14] == s.sp && b[15] % 0x10 == s.flags % 0x10
  {
    var r := RegisterBytes(s);
    U16InSection(b, 5, r, 0, s.pc, 0x20);
    U16InSection(b, 5, r, 2, s.x, 0x10);
    U16InSection(b, 5, r, 4, s.y, 0x10);
    ByteInSection(b, 5, r, 6);
    ByteInSection(b, 5, r, 7);
    ByteInSection(b, 5, r, 8);
    ByteInSection(b, 5, r, 9);
    ByteInSection(b, 5, r, 10);
  }

  /** The timers decoded from a blob whose bytes 16 to 55 are
      `TimerBytes(s)` are exactly those of `s`. */
  lemma DecodeTimers(b: seq<u8>, s: Snapshot)
    requires |b| >= SAVE_SIZE && b[16..56] == TimerBytes(s)
    ensures U32At(b, 16) == s.tickCounter
    ensures U32At(b, 20) == s.clkTimer2hzTimestamp && U32At(b, 24) == s.clkTimer4hzTimestamp
    ensures U32At(b, 28) == s.clkTimer8hzTimestamp && U32At(b, 32) == s.clkTimer16hzTimestamp
    ensures U32At(b, 36) == s.clkTimer32hzTimestamp && U32At(b, 40) == s.clkTimer64hzTimestamp
    ensures U32At(b, 44) == s.clkTimer128hzTimestamp && U32At(b, 48) == s.clkTimer256hzTimestamp
    ensures U32At(b, 52) == s.progTimerTimestamp
  {
    var t := TimerBytes(s);
    TimerSlices(s);
    U32InSection(b, 16, t, 0, s.tickCounter);
    U32InSection(b, 16, t, 4, s.clkTimer2hzTimestamp);
    U32InSection(b, 16, t, 8, s.clkTimer4hzTimestamp);
    U32InSection(b, 16, t, 12, s.clkTimer8hzTimestamp);
    U32InSection(b, 16, t, 16, s.clkTimer16hzTimestamp);
    U32InSection(b, 16, t, 20, s.clkTimer32hzTimestamp);
    U32InSection(b, 16, t, 24, s.clkTimer64hzTimestamp);
    U32InSection(b, 16, t, 28, s.clkTimer128hzTimestamp);
    U32InSection(b, 16, t, 32, s.clkTimer256hzTimestamp);
    U32InSection(b, 16, t, 36, s.progTimerTimestamp);
  }

  /** The programmable timer settings and call depth decoded from a blob
      whose bytes 56 to 62 are `TailBytes(s)`. */
  lemma DecodeTail(b: seq<u8>, s: Snapshot)
    requires |b| >= SAVE_SIZE && b[56..63] == TailBytes(s)
    ensures b[56] % 2 == s.progTimerEnabled % 2 && b[57] == s.progTimerData
    ensures b[58] == s.progTimerRld && U32At(b, 59) == s.callDepth
  {
    var t := TailBytes(s);
    assert t[0] == s.progTimerEnabled % 2 && t[1] == s.progTimerData && t[2] == s.progTimerRld;
    assert t[3..7] == U32Bytes(s.callDepth);
    ByteInSection(b, 56, t, 0);
    ByteInSection(b, 56, t, 1);
    ByteInSection(b, 56, t, 2);
    var enabled := s.progTimerEnabled % 2;
    assert 0 <= enabled < 2 && enabled % 2 == enabled;
    U32InSection(b, 56, t, 3, s.callDepth);
  }

  /** A blob that starts with `FixedBytes(s)` holds each section at its offset. */
  lemma DecodeFixed(b: seq<u8>, s: Snapshot)
    requires |b| >= SAVE_SIZE && b[..FIXED_SIZE] == FixedBytes(s)
    ensures b[5..16] == RegisterBytes(s) && b[16..56] == TimerBytes(s) && b[56..63] == TailBytes(s)
  {
    var f := FixedBytes(s);
    assert b[5..16] == f[5..16];
    assert b[16..56] == f[16..56];
    assert b[56..63] == f[56..63];
  }

  /** The three bytes of slot `i` in the interrupt area, one by one. */
  lemma SlotBytesAt(ints: seq<Interrupt>, i: nat)
    requires i < |ints|
    ensures |InterruptBytes(ints)| == 3 * |ints|
    ensures InterruptBytes(ints)[3 * i] == ints[i].factorFlagReg % 0x10
    ensures InterruptBytes(ints)[3 * i + 1] == ints[i].maskReg % 0x10
    ensures InterruptBytes(ints)[3 * i + 2] == ints[i].triggered % 2
  {
    var area := InterruptBytes(ints);
    InterruptBytesAt(ints, i);
    var slot := area[3 * i..3 * i + 3];
    assert area[3 * i] == slot[0] && area[3 * i + 1] == slot[1] && area[3 * i + 2] == slot[2];
  }

  /** Slot `i` of an interrupt area that sits at offset `k` of the blob. */
  lemma SlotInSection(b: seq<u8>, k: nat, ints: seq<Interrupt>, i: nat)
    requires i < |ints| && k + 3 * |ints| <= |b|
    requires b[k..k + 3 * |ints|] == InterruptBytes(ints)
    ensures b[k + 3 * i] == ints[i].factorFlagReg % 0x10
    ensures b[k + 3 * i + 1] == ints[i].maskReg % 0x10
    ensures b[k + 3 * i + 2] == ints[i].triggered % 2
  {
    var area := InterruptBytes(ints);
    SlotBytesAt(ints, i);
    ByteInSection(b, k, area, 3 * i);
    ByteInSection(b, k, area, 3 * i + 1);
    ByteInSection(b, k, area, 3 * i + 2);
  }

  /** Slot `i` read back from a blob whose interrupt area is `InterruptBytes(ints)`. */
  lemma DecodeSlot(b: seq<u8>, ints: seq<Interrupt>, i: nat)
    requires |b| >= SAVE_SIZE && |ints| == INT_SLOT_NUM && i < INT_SLOT_NUM
    requires b[INT_OFFSET..RAM_OFFSET] == InterruptBytes(ints)
    ensures b[INT_OFFSET + 3 * i] == ints[i].factorFlagReg % 0x10
    ensures b[INT_OFFSET + 3 * i + 1] == ints[i].maskReg % 0x10
    ensures b[INT_OFFSET + 3 * i + 2] == ints[i].triggered % 2
  {
    SlotInSection(b, INT_OFFSET, ints, i);
  }

  /** The interrupt slots decoded from a blob whose interrupt area is
      `InterruptBytes(ints)` are `ints` under their masks. */
  lemma DecodeInterrupts(b: seq<u8>, ints: seq<Interrupt>)
    requires |b| >= SAVE_SIZE && |ints| == INT_SLOT_NUM
    requires b[INT_OFFSET..RAM_OFFSET] == InterruptBytes(ints)
    ensures forall i :: 0 <= i < INT_SLOT_NUM ==>
      SlotsAt(b, INT_OFFSET, INT_SLOT_NUM)[i] == MaskSlot(ints[i])
  {
    forall i | 0 <= i < INT_SLOT_NUM
      ensures SlotsAt(b, INT_OFFSET, INT_SLOT_NUM)[i] == MaskSlot(ints[i])
    {
      DecodeSlot(b, ints, i);
    }
  }

  /** The memory decoded from a blob whose RAM and I/O areas are the
      nibbles of `ram` and `io`. */
  lemma DecodeMemory(b: seq<u8>, ram: seq<u8>, io: seq<u8>)
    requires |b| >= SAVE_SIZE && |ram| == MEM_RAM_SIZE && |io| == MEM_IO_SIZE
    requires b[RAM_OFFSET..IO_OFFSET] == Nibbles(ram) && b[IO_OFFSET..SAVE_SIZE] == Nibbles(io)
    ensures NibblesAt(b, RAM_OFFSET, MEM_RAM_SIZE) == Nibbles(ram)
    ensures NibblesAt(b, IO_OFFSET, MEM_IO_SIZE) == Nibbles(io)
  {
    forall k | 0 <= k < MEM_RAM_SIZE ensures NibblesAt(b, RAM_OFFSET, MEM_RAM_SIZE)[k] == Nibbles(ram)[k] {
      ByteInSection(b, RAM_OFFSET, Nibbles(ram), k);
    }
    forall k | 0 <= k < MEM_IO_SIZE ensures NibblesAt(b, IO_OFFSET, MEM_IO_SIZE)[k] == Nibbles(io)[k] {
      ByteInSection(b, IO_OFFSET, Nibbles(io), k);
    }
  }

  /** Round trip: loading a saved blob restores every field under its mask. */
  lemma RoundTrip(s: Snapshot)
    requires WellSized(s)
    ensures |Encode(s)| == SAVE_SIZE && CheckHeader(Encode(s)) == None
    ensures Decode(Encode(s)) == Masked(s)
  {
    SaveSizeAndHeader(s);
    EncodeLayout(s);
    var e := Encode(s);
    DecodeFixed(e, s);
    DecodeRegisters(e, s);
    DecodeTimers(e, s);
    DecodeTail(e, s);
    DecodeInterrupts(e, s.interrupts);
    DecodeMemory(e, s.ram, s.io);
    assert SlotsAt(e, INT_OFFSET, INT_SLOT_NUM) == Masked(s).interrupts;
  }

  /** Interrupt slots read from a blob are already masked. */
  lemma SlotsFit(b: seq<u8>, offset: nat, n: nat)
    requires offset + 3 * n <= |b|
    ensures forall i :: 0 <= i < n ==> MaskSlot(SlotsAt(b, offset, n)[i]) == SlotsAt(b, offset, n)[i]
  {
  }

  /** Memory cells read from a blob are already nibbles. */
  lemma NibblesFit(b: seq<u8>, offset: nat, n: nat)
    requires offset + n <= |b|
    ensures Nibbles(NibblesAt(b, offset, n)) == NibblesAt(b, offset, n)
  {
  }

  /** Whatever the blob holds, every field `state_load` writes is already
      within its architectural width. */
  lemma DecodeFits(b: seq<u8>)
    requires |b| >= SAVE_SIZE
    ensures WellSized(Decode(b)) && Masked(Decode(b)) == Decode(b)
  {
    var d := Decode(b);
    var ints := SlotsAt(b, INT_OFFSET, INT_SLOT_NUM);
    assert d.interrupts == ints;
    SlotsFit(b, INT_OFFSET, INT_SLOT_NUM);
    assert Masked(d).interrupts == ints;
    NibblesFit(b, RAM_OFFSET, MEM_RAM_SIZE);
    NibblesFit(b, IO_OFFSET, MEM_IO_SIZE);
    assert d.pc < 0x2000 && d.x < 0x1000 && d.y < 0x1000;
    SmallMod(d.pc, 0x2000);
    SmallMod(d.x, 0x1000);
    SmallMod(d.y, 0x1000);
    SmallMod(d.a, 0x10);
    SmallMod(d.b, 0x10);
    SmallMod(d.np, 0x20);
    SmallMod(d.flags, 0x10);
    SmallMod(d.progTimerEnabled, 2);
    var t := Masked(d);
    assert t.ram == d.ram && t.io == d.io;
  }

  lemma SmallMod(v: int, m: int)
    requires 0 <= v < m
    ensures v % m == v
  {
  }

  /** Masking a 12-bit register first does not change its two saved bytes. */
  lemma MaskedSplit12(v: u16)
    ensures (v % 0x1000) % 0x100 == v % 0x100
    ensures ((v % 0x1000) / 0x100) % 0x10 == (v / 0x100) % 0x10
  {
    var r, q := v % 0x1000, v / 0x1000;
    assert v == q * 0x1000 + r;
    assert v / 0x100 == q * 0x10 + r / 0x100;
  }

  /** Masking the 13-bit PC first does not change its two saved bytes. */
  lemma MaskedSplit13(v: u16)
    ensures (v % 0x2000) % 0x100 == v % 0x100
    ensures ((v % 0x2000) / 0x100) % 0x20 == (v / 0x100) % 0x20
  {
    var r, q := v % 0x2000, v / 0x2000;
    assert v == q * 0x2000 + r;
    assert v / 0x100 == q * 0x20 + r / 0x100;
  }

  lemma RegistersMasked(s: Snapshot)
    ensures RegisterBytes(Masked(s)) == RegisterBytes(s)
  {
    var t := Masked(s);
    assert t.pc == s.pc % 0x2000 && t.x == s.x % 0x1000 && t.y == s.y % 0x1000;
    MaskedSplit13(s.pc);
    MaskedSplit12(s.x);
    MaskedSplit12(s.y);
    assert t.a % 0x10 == s.a % 0x10 && t.b % 0x10 == s.b % 0x10;
    assert t.np % 0x20 == s.np % 0x20 && t.flags % 0x10 == s.flags % 0x10 && t.sp == s.sp;
  }

  lemma {:induction false} InterruptBytesMasked(ints: seq<Interrupt>, m: seq<Interrupt>)
    requires |m| == |ints| && forall i :: 0 <= i < |m| ==> m[i] == MaskSlot(ints[i])
    ensures InterruptBytes(m) == InterruptBytes(ints)
  {
    if |m| > 0 {
      var n := |m| - 1;
      InterruptBytesMasked(ints[..n], m[..n]);
    }
  }

  lemma NibblesTwice(m: seq<u8>)
    ensures Nibbles(Nibbles(m)) == Nibbles(m)
  {
  }

  /** Saving a state reduced to its architectural widths yields the same blob. */
  lemma EncodeMasked(s: Snapshot)
    requires WellSized(s)
    ensures Encode(Masked(s)) == Encode(s)
  {
    var t := Masked(s);
    RegistersMasked(s);
    assert t.tickCounter == s.tickCounter && t.progTimerTimestamp == s.progTimerTimestamp;
    assert t.clkTimer2hzTimestamp == s.clkTimer2hzTimestamp && t.clkTimer4hzTimestamp == s.clkTimer4hzTimestamp;
    assert t.clkTimer8hzTimestamp == s.clkTimer8hzTimestamp && t.clkTimer16hzTimestamp == s.clkTimer16hzTimestamp;
    assert t.clkTimer32hzTimestamp == s.clkTimer32hzTimestamp && t.clkTimer64hzTimestamp == s.clkTimer64hzTimestamp;
    assert t.clkTimer128hzTimestamp == s.clkTimer128hzTimestamp;
    assert t.clkTimer256hzTimestamp == s.clkTimer256hzTimestamp;
    assert t.progTimerEnabled % 2 == s.progTimerEnabled % 2 && t.progTimerData == s.progTimerData;
    assert t.progTimerRld == s.progTimerRld && t.callDepth == s.callDepth;
    InterruptBytesMasked(s.interrupts, t.interrupts);
    assert t.ram == Nibbles(s.ram) && t.io == Nibbles(s.io);
    NibblesTwice(s.ram);
    NibblesTwice(s.io);
  }

  /** Save, load, save: the second blob equals the first. */
  lemma SaveLoadSave(s: Snapshot)
    requires WellSized(s)
    ensures |Encode(s)| == SAVE_SIZE && Encode(Decode(Encode(s))) == Encode(s)
  {
    RoundTrip(s);
    EncodeMasked(s);
  }

  /** Load, save, load: loading the blob saved from a loaded state gives the same state. */
  lemma LoadSaveLoad(b: seq<u8>)
    requires |b| >= SAVE_SIZE
    ensures WellSized(Decode(b)) && |Encode(Decode(b))| == SAVE_SIZE
    ensures Decode(Encode(Decode(b))) == Decode(b)
  {
    DecodeFits(b);
    RoundTrip(Decode(b));
  }

  // ---------------------------------------------------------------------
  // state_save

  /** Bytes 0 to 15 of the blob, one by one, as `state_save` writes them. */
  lemma EncodeRegistersAt(s: Snapshot)
    requires WellSized(s)
    ensures var e := Encode(s);
      |e| == SAVE_SIZE &&
      e[0] == 0x54 && e[1] == 0x4C && e[2] == 0x53 && e[3] == 0x54 && e[4] == STATE_FILE_VERSION &&
      e[5] == s.pc % 0x100 && e[6] == (s.pc / 0x100) % 0x20 &&
      e[7] == s.x % 0x100 && e[8] == (s.x / 0x100) % 0x10 &&
      e[9] == s.y % 0x100 && e[10] == (s.y / 0x100) % 0x10 &&
      e[11] == s.a % 0x10 && e[12] == s.b % 0x10 && e[13] == s.np % 0x20 &&
      e[14] == s.sp && e[15] == s.flags % 0x10
  {
    var e := Encode(s);
    SaveSizeAndHeader(s);
    assert e[..4][0] == e[0] && e[..4][1] == e[1] && e[..4][2] == e[2] && e[..4][3] == e[3];
    EncodeLayout(s);
    DecodeFixed(e, s);
    var r := RegisterBytes(s);
    ByteInSection(e, 5, r, 0);
    ByteInSection(e, 5, r, 1);
    ByteInSection(e, 5, r, 2);
    ByteInSection(e, 5, r, 3);
    ByteInSection(e, 5, r, 4);
    ByteInSection(e, 5, r, 5);
    ByteInSection(e, 5, r, 6);
    ByteInSection(e, 5, r, 7);
    ByteInSection(e, 5, r, 8);
    ByteInSection(e, 5, r, 9);
    ByteInSection(e, 5, r, 10);
  }

  /** Each timer value sits at its offset among bytes 16 to 55 of `TimerBytes`. */
  lemma TimerSlices(s: Snapshot)
    ensures var t := TimerBytes(s);
      |t| == 40 &&
      t[0..4] == U32Bytes(s.tickCounter) &&
      t[4..8] == U32Bytes(s.clkTimer2hzTimestamp) && t[8..12] == U32Bytes(s.clkTimer4hzTimestamp) &&
      t[12..16] == U32Bytes(s.clkTimer8hzTimestamp) && t[16..20] == U32Bytes(s.clkTimer16hzTimestamp) &&
      t[20..24] == U32Bytes(s.clkTimer32hzTimestamp) && t[24..28] == U32Bytes(s.clkTimer64hzTimestamp) &&
      t[28..32] == U32Bytes(s.clkTimer128hzTimestamp) && t[32..36] == U32Bytes(s.clkTimer256hzTimestamp) &&
      t[36..40] == U32Bytes(s.progTimerTimestamp)
  {
    var vs := TimerValues(s);
    WordsAt(vs, 0); WordsAt(vs, 1); WordsAt(vs, 2); WordsAt(vs, 3); WordsAt(vs, 4);
    WordsAt(vs, 5); WordsAt(vs, 6); WordsAt(vs, 7); WordsAt(vs, 8); WordsAt(vs, 9);
  }

  /** Bytes 16 to 62 of the blob: the timers, the programmable timer bytes
      and the call depth, at their offsets. */
  lemma EncodeTimersAt(s: Snapshot)
    requires WellSized(s)
    ensures var e := Encode(s);
      |e| == SAVE_SIZE &&
      e[16..20] == U32Bytes(s.tickCounter) &&
      e[20..24] == U32Bytes(s.clkTimer2hzTimestamp) && e[24..28] == U32Bytes(s.clkTimer4hzTimestamp) &&
      e[28..32] == U32Bytes(s.clkTimer8hzTimestamp) && e[32..36] == U32Bytes(s.clkTimer16hzTimestamp) &&
      e[36..40] == U32Bytes(s.clkTimer32hzTimestamp) && e[40..44] == U32Bytes(s.clkTimer64hzTimestamp) &&
      e[44..48] == U32Bytes(s.clkTimer128hzTimestamp) && e[48..52] == U32Bytes(s.clkTimer256hzTimestamp) &&
      e[52..56] == U32Bytes(s.progTimerTimestamp) &&
      e[56] == s.progTimerEnabled % 2 && e[57] == s.progTimerData && e[58] == s.progTimerRld &&
      e[59..63] == U32Bytes(s.callDepth)
  {
    var e := Encode(s);
    EncodeLayout(s);
    DecodeFixed(e, s);
    var t := TimerBytes(s);
    TimerSlices(s);
    SliceInSection(e, 16, t, 0, 4);
    SliceInSection(e, 16, t, 4, 4);
    SliceInSection(e, 16, t, 8, 4);
    SliceInSection(e, 16, t, 12, 4);
    SliceInSection(e, 16, t, 16, 4);
    SliceInSection(e, 16, t, 20, 4);
    SliceInSection(e, 16, t, 24, 4);
    SliceInSection(e, 16, t, 28, 4);
    SliceInSection(e, 16, t, 32, 4);
    SliceInSection(e, 16, t, 36, 4);
    var tail := TailBytes(s);
    ByteInSection(e, 56, tail, 0);
    ByteInSection(e, 56, tail, 1);
    ByteInSection(e, 56, tail, 2);
    SliceInSection(e, 56, tail, 3, 4);
    assert tail[3..7] == U32Bytes(s.callDepth);
  }

  /** Byte `k` of the RAM area and of the I/O area is the low nibble of that cell. */
  lemma EncodeNibbleAt(s: Snapshot, k: nat)
    requires WellSized(s)
    ensures |Encode(s)| == SAVE_SIZE
    ensures k < MEM_RAM_SIZE ==> Encode(s)[RAM_OFFSET + k] == s.ram[k] % 0x10
    ensures k < MEM_IO_SIZE ==> Encode(s)[IO_OFFSET + k] == s.io[k] % 0x10
  {
    EncodeLayout(s);
    if k < MEM_RAM_SIZE {
      ByteInSection(Encode(s), RAM_OFFSET, Nibbles(s.ram), k);
    }
    if k < MEM_IO_SIZE {
      assert Encode(s)[IO_OFFSET..] == Encode(s)[IO_OFFSET..IO_OFFSET + |Nibbles(s.io)|];
      ByteInSection(Encode(s), IO_OFFSET, Nibbles(s.io), k);
    }
  }

  /** Every masked byte of the blob is within its mask: the high bytes of
      PC, X and Y are below 0x20, 0x10 and 0x10; in the interrupt area the
      factor and mask bytes are nibbles and every third byte, the triggered
      flag, is 0 or 1; every RAM and I/O byte is a nibble. */
  lemma EncodeBounds(s: Snapshot)
    requires WellSized(s)
    ensures |Encode(s)| == SAVE_SIZE
    ensures Encode(s)[6] < 0x20 && Encode(s)[8] < 0x10 && Encode(s)[10] < 0x10
    ensures var area := Encode(s)[INT_OFFSET..RAM_OFFSET];
      forall k :: 0 <= k < |area| ==> area[k] < (if k % 3 == 2 then 2 else 0x10)
    ensures var mem := Encode(s)[RAM_OFFSET..];
      forall k :: 0 <= k < |mem| ==> mem[k] < 0x10
  {
    EncodeRegistersAt(s);
    EncodeLayout(s);
    var area := Encode(s)[INT_OFFSET..RAM_OFFSET];
    forall k | 0 <= k < |area| ensures area[k] < (if k % 3 == 2 then 2 else 0x10) {
      var i := k / 3;
      InterruptBytesAt(s.interrupts, i);
      assert area[k] == area[3 * i..3 * i + 3][k % 3];
    }
    var mem := Encode(s)[RAM_OFFSET..];
    assert mem == Nibbles(s.ram) + Nibbles(s.io);
  }

  /** `save[num++] = v`, while the buffer's prefix agrees with the blob being written. */
  method PutByte(save: array<u8>, num: nat, v: u8, ghost blob: seq<u8>) returns (next: nat)
    requires num < save.Length && num < |blob|
    requires save[..num] == blob[..num] && blob[num] == v
    modifies save
    ensures next == num + 1 && save[..next] == blob[..next]
  {
    save[num] := v;
    next := num + 1;
    assert save[..next] == save[..num] + [v];
    assert blob[..next] == blob[..num] + [v];
  }

  /** Four `save[num++]` of a u32, least significant byte first. */
  method PutU32(save: array<u8>, num: nat, v: u32, ghost blob: seq<u8>) returns (next: nat)
    requires num + 4 <= save.Length && num + 4 <= |blob|
    requires save[..num] == blob[..num] && blob[num..num + 4] == U32Bytes(v)
    modifies save
    ensures next == num + 4 && save[..next] == blob[..next]
  {
    save[num] := v % 0x100;
    save[num + 1] := (v / 0x100) % 0x100;
    save[num + 2] := (v / 0x1_0000) % 0x100;
    save[num + 3] := (v / 0x100_0000) % 0x100;
    next := num + 4;
    assert save[..next] == save[..num] + save[num..next];
    assert blob[..next] == blob[..num] + blob[num..next];
  }

  /** The magic and version bytes of `state_save`: bytes 0 to 4. */
  method PutHeader(save: array<u8>, ghost blob: seq<u8>) returns (num: nat)
    requires save.Length >= FIXED_SIZE && |blob| >= FIXED_SIZE && blob[..5] == HeaderBytes()
    modifies save
    ensures num == 5 && save[..num] == blob[..num]
  {
    assert blob[0] == 0x54 && blob[1] == 0x4C && blob[2] == 0x53 && blob[3] == 0x54
      && blob[4] == STATE_FILE_VERSION by {
      assert blob[..5][0] == blob[0] && blob[..5][1] == blob[1] && blob[..5][2] == blob[2];
      assert blob[..5][3] == blob[3] && blob[..5][4] == blob[4];
    }
    num := 0;
    assert save[..num] == blob[..num];
    num := PutByte(save, num, 0x54, blob);
    num := PutByte(save, num, 0x4C, blob);
    num := PutByte(save, num, 0x53, blob);
    num := PutByte(save, num, 0x54, blob);
    num := PutByte(save, num, STATE_FILE_VERSION, blob);
  }

  /** The register bytes of `state_save`: bytes 5 to 15. */
  method PutRegisters(save: array<u8>, num0: nat, st: State, ghost blob: seq<u8>) returns (num: nat)
    requires st.Valid() && save.Length >= FIXED_SIZE && num0 == 5
    requires save != st.ram && save != st.io && blob == Encode(st.Abstract())
    requires save[..num0] == blob[..num0]
    modifies save
    ensures num == 16 && save[..num] == blob[..num]
  {
    EncodeRegistersAt(st.Abstract());
    num := num0;
    num := PutByte(save, num, st.pc % 0x100, blob);
    num := PutByte(save, num, (st.pc / 0x100) % 0x20, blob);
    num := PutByte(save, num, st.x % 0x100, blob);
    num := PutByte(save, num, (st.x / 0x100) % 0x10, blob);
    num := PutByte(save, num, st.y % 0x100, blob);
    num := PutByte(save, num, (st.y / 0x100) % 0x10, blob);
    num := PutByte(save, num, st.a % 0x10, blob);
    num := PutByte(save, num, st.b % 0x10, blob);
    num := PutByte(save, num, st.np % 0x20, blob);
    num := PutByte(save, num, st.sp, blob);
    num := PutByte(save, num, st.flags % 0x10, blob);
  }

  /** The timer bytes of `state_save`: bytes 16 to 62. */
  method PutTimers(save: array<u8>, num0: nat, st: State, ghost blob: seq<u8>) returns (num: nat)
    requires st.Valid() && save.Length >= FIXED_SIZE && num0 == 16
    requires save != st.ram && save != st.io && blob == Encode(st.Abstract())
    requires save[..num0] == blob[..num0]
    modifies save
    ensures num == FIXED_SIZE && save[..num] == blob[..num]
  {
    EncodeTimersAt(st.Abstract());
    num := num0;
    num := PutU32(save, num, st.tickCounter, blob);
    num := PutU32(save, num, st.clkTimer2hzTimestamp, blob);
    num := PutU32(save, num, st.clkTimer4hzTimestamp, blob);
    num := PutU32(save, num, st.clkTimer8hzTimestamp, blob);
    num := PutU32(save, num, st.clkTimer16hzTimestamp, blob);
    num := PutU32(save, num, st.clkTimer32hzTimestamp, blob);
    num := PutU32(save, num, st.clkTimer64hzTimestamp, blob);
    num := PutU32(save, num, st.clkTimer128hzTimestamp, blob);
    num := PutU32(save, num, st.clkTimer256hzTimestamp, blob);
    num := PutU32(save, num, st.progTimerTimestamp, blob);
    num := PutByte(save, num, st.progTimerEnabled % 2, blob);
    num := PutByte(save, num, st.progTimerData, blob);
    num := PutByte(save, num, st.progTimerRld, blob);
    num := PutU32(save, num, st.callDepth, blob);
  }

  /** The interrupt loop of `state_save`: three bytes per slot. */
  method PutInterrupts(save: array<u8>, num: nat, ints: array<Interrupt>, ghost blob: seq<u8>)
    returns (next: nat)
    requires num + 3 * ints.Length <= save.Length && num + 3 * ints.Length <= |blob|
    requires save[..num] == blob[..num]
    requires blob[num..num + 3 * ints.Length] == InterruptBytes(ints[..])
    modifies save
    ensures next == num + 3 * ints.Length && save[..next] == blob[..next]
  {
    next := num;
    var i := 0;
    while i < ints.Length
      invariant 0 <= i <= ints.Length && next == num + 3 * i
      invariant save[..next] == blob[..next]
    {
      SlotInSection(blob, num, ints[..], i);
      next := PutByte(save, next, ints[i].factorFlagReg % 0x10, blob);
      next := PutByte(save, next, ints[i].maskReg % 0x10, blob);
      next := PutByte(save, next, ints[i].triggered % 2, blob);
      i := i + 1;
    }
  }

  /** The RAM and I/O loops of `state_save`: one low nibble per memory cell. */
  method PutNibbles(save: array<u8>, num: nat, mem: array<u8>, ghost blob: seq<u8>)
    returns (next: nat)
    requires num + mem.Length <= save.Length && num + mem.Length <= |blob| && save != mem
    requires save[..num] == blob[..num] && blob[num..num + mem.Length] == Nibbles(mem[..])
    modifies save
    ensures next == num + mem.Length && save[..next] == blob[..next]
  {
    next := num;
    var i := 0;
    while i < mem.Length
      invariant 0 <= i <= mem.Length && next == num + i
      invariant save[..next] == blob[..next]
    {
      ByteInSection(blob, num, Nibbles(mem[..]), i);
      next := PutByte(save, next, mem[i] % 0x10, blob);
      i := i + 1;
    }
  }

  /** `state_save`: a fresh buffer of `SAVE_SIZE` bytes holding `Encode` of
      the engine state; `outLen` is what the C code stores in `*out_len`. */
  method StateSave(st: State) returns (save: array<u8>, outLen: nat)
    requires st.Valid()
    ensures fresh(save) && save.Length == SAVE_SIZE && outLen == SAVE_SIZE
    ensures save[..] == Encode(st.Abstract())
  {
    ghost var s := st.Abstract();
    ghost var blob := Encode(s);
    EncodeLayout(s);
    assert blob[IO_OFFSET..] == blob[IO_OFFSET..IO_OFFSET + MEM_IO_SIZE];
    save := new u8[SAVE_SIZE];
    assert blob[..5] == HeaderBytes() by {
      SaveSizeAndHeader(s);
    }
    var num := PutHeader(save, blob);
    num := PutRegisters(save, num, st, blob);
    num := PutTimers(save, num, st, blob);
    num := PutInterrupts(save, num, st.interrupts, blob);
    num := PutNibbles(save, num, st.ram, blob);
    num := PutNibbles(save, num, st.io, blob);
    assert save[..] == save[..num];
    assert blob[..num] == blob;
    outLen := num;
  }

  // ---------------------------------------------------------------------
  // state_load

  /** The interrupt loop of `state_load`: slot `i` from bytes `num + 3 * i` on. */
  method LoadInterrupts(ints: array<Interrupt>, save: array<u8>, num: nat) returns (next: nat)
    requires num + 3 * ints.Length <= save.Length
    modifies ints
    ensures next == num + 3 * ints.Length
    ensures ints[..] == SlotsAt(save[..], num, ints.Length)
  {
    next := num;
    var i := 0;
    while i < ints.Length
      invariant 0 <= i <= ints.Length && next == num + 3 * i
      invariant forall j :: 0 <= j < i ==> ints[j] == SlotsAt(save[..], num, ints.Length)[j]
    {
      var factorFlagReg := save[next] % 0x10;
      next := next + 1;
      var maskReg := save[next] % 0x10;
      next := next + 1;
      var triggered := save[next] % 2;
      next := next + 1;
      ints[i] := Interrupt(factorFlagReg, maskReg, triggered);
      i := i + 1;
    }
  }

  /** The RAM and I/O loops of `state_load`: cell `i` is the low nibble of byte `num + i`. */
  method LoadNibbles(mem: array<u8>, save: array<u8>, num: nat) returns (next: nat)
    requires num + mem.Length <= save.Length && mem != save
    modifies mem
    ensures next == num + mem.Length
    ensures mem[..] == NibblesAt(save[..], num, mem.Length)
  {
    next := num;
    var i := 0;
    while i < mem.Length
      invariant 0 <= i <= mem.Length && next == num + i
      invariant forall j :: 0 <= j < i ==> mem[j] == save[num + j] % 0x10
    {
      mem[i] := save[next] % 0x10;
      next := next + 1;
      i := i + 1;
    }
  }

  /** Bytes 5 to 15 of `state_load`: the registers under their masks. */
  method LoadRegisters(st: State, save: array<u8>, num0: nat) returns (num: nat)
    requires save.Length >= SAVE_SIZE && num0 == 5
    modifies st`pc, st`x, st`y, st`a, st`b, st`np, st`sp, st`flags
    ensures num == 16
    ensures st.pc == U16At(save[..], 5, 0x20) && st.x == U16At(save[..], 7, 0x10)
    ensures st.y == U16At(save[..], 9, 0x10)
    ensures st.a == save[11] % 0x10 && st.b == save[12] % 0x10 && st.np == save[13] % 0x20
    ensures st.sp == save[14] && st.flags == save[15] % 0x10
  {
    num := num0;
    st.pc := U16At(save[..], num, 0x20);
    num := num + 2;
    st.x := U16At(save[..], num, 0x10);
    num := num + 2;
    st.y := U16At(save[..], num, 0x10);
    num := num + 2;
    st.a := save[num] % 0x10;
    num := num + 1;
    st.b := save[num] % 0x10;
    num := num + 1;
    st.np := save[num] % 0x20;
    num := num + 1;
    st.sp := save[num];
    num := num + 1;
    st.flags := save[num] % 0x10;
    num := num + 1;
  }

  /** Bytes 16 to 55 of `state_load`: the tick counter and the timer timestamps. */
  method LoadTimers(st: State, save: array<u8>, num0: nat) returns (num: nat)
    requires save.Length >= SAVE_SIZE && num0 == 16
    modifies st`tickCounter, st`clkTimer2hzTimestamp, st`clkTimer4hzTimestamp, st`clkTimer8hzTimestamp, st`clkTimer16hzTimestamp, st`clkTimer32hzTimestamp, st`clkTimer64hzTimestamp, st`clkTimer128hzTimestamp, st`clkTimer256hzTimestamp, st`progTimerTimestamp
    ensures num == 56
    ensures st.tickCounter == U32At(save[..], 16)
    ensures st.clkTimer2hzTimestamp == U32At(save[..], 20)
    ensures st.clkTimer4hzTimestamp == U32At(save[..], 24)
    ensures st.clkTimer8hzTimestamp == U32At(save[..], 28)
    ensures st.clkTimer16hzTimestamp == U32At(save[..], 32)
    ensures st.clkTimer32hzTimestamp == U32At(save[..], 36)
    ensures st.clkTimer64hzTimestamp == U32At(save[..], 40)
    ensures st.clkTimer128hzTimestamp == U32At(save[..], 44)
    ensures st.clkTimer256hzTimestamp == U32At(save[..], 48)
    ensures st.progTimerTimestamp == U32At(save[..], 52)
  {
    num := num0;
    st.tickCounter := U32At(save[..], num);
    num := num + 4;
    st.clkTimer2hzTimestamp := U32At(save[..], num);
    num := num + 4;
    st.clkTimer4hzTimestamp := U32At(save[..], num);
    num := num + 4;
    st.clkTimer8hzTimestamp := U32At(save[..], num);
    num := num + 4;
    st.clkTimer16hzTimestamp := U32At(save[..], num);
    num := num + 4;
    st.clkTimer32hzTimestamp := U32At(save[..], num);
    num := num + 4;
    st.clkTimer64hzTimestamp := U32At(save[..], num);
    num := num + 4;
    st.clkTimer128hzTimestamp := U32At(save[..], num);
    num := num + 4;
    st.clkTimer256hzTimestamp := U32At(save[..], num);
    num := num + 4;
    st.progTimerTimestamp := U32At(save[..], num);
    num := num + 4;
  }

  /** Bytes 56 to 62 of `state_load`: the programmable timer bytes and the call depth. */
  method LoadTail(st: State, save: array<u8>, num0: nat) returns (num: nat)
    requires save.Length >= SAVE_SIZE && num0 == 56
    modifies st`progTimerEnabled, st`progTimerData, st`progTimerRld, st`callDepth
    ensures num == FIXED_SIZE
    ensures st.progTimerEnabled == save[56] % 2 && st.progTimerData == save[57]
    ensures st.progTimerRld == save[58] && st.callDepth == U32At(save[..], 59)
  {
    num := num0;
    st.progTimerEnabled := save[num] % 2;
    num := num + 1;
    st.progTimerData := save[num];
    num := num + 1;
    st.progTimerRld := save[num];
    num := num + 1;
    st.callDepth := U32At(save[..], num);
    num := num + 4;
  }

  /** The scalar fields `state_load` reads, bytes 5 to 62, as `Decode` reads them. */
  method LoadScalars(st: State, save: array<u8>, num0: nat) returns (num: nat)
    requires save.Length >= SAVE_SIZE && num0 == 5
    modifies st`pc, st`x, st`y, st`a, st`b, st`np, st`sp, st`flags, st`tickCounter, st`clkTimer2hzTimestamp, st`clkTimer4hzTimestamp, st`clkTimer8hzTimestamp, st`clkTimer16hzTimestamp, st`clkTimer32hzTimestamp, st`clkTimer64hzTimestamp, st`clkTimer128hzTimestamp, st`clkTimer256hzTimestamp, st`progTimerTimestamp, st`progTimerEnabled, st`progTimerData, st`progTimerRld, st`callDepth
    ensures num == FIXED_SIZE
    ensures var d := Decode(save[..]);
      st.pc == d.pc && st.x == d.x && st.y == d.y && st.a == d.a && st.b == d.b && st.np == d.np && st.sp == d.sp && st.flags == d.flags && st.tickCounter == d.tickCounter && st.clkTimer2hzTimestamp == d.clkTimer2hzTimestamp && st.clkTimer4hzTimestamp == d.clkTimer4hzTimestamp && st.clkTimer8hzTimestamp == d.clkTimer8hzTimestamp && st.clkTimer16hzTimestamp == d.clkTimer16hzTimestamp && st.clkTimer32hzTimestamp == d.clkTimer32hzTimestamp && st.clkTimer64hzTimestamp == d.clkTimer64hzTimestamp && st.clkTimer128hzTimestamp == d.clkTimer128hzTimestamp && st.clkTimer256hzTimestamp == d.clkTimer256hzTimestamp && st.progTimerTimestamp == d.progTimerTimestamp && st.progTimerEnabled == d.progTimerEnabled && st.progTimerData == d.progTimerData && st.progTimerRld == d.progTimerRld && st.callDepth == d.callDepth
  {
    num := LoadRegisters(st, save, num0);
    num := LoadTimers(st, save, num);
    num := LoadTail(st, save, num);
  }

  /** Everything `state_load` reads after the header, in blob order. */
  method LoadFields(st: State, save: array<u8>, num0: nat) returns (num: nat)
    requires st.Valid() && save.Length >= SAVE_SIZE && num0 == 5
    requires save != st.ram && save != st.io
    modifies st, st.interrupts, st.ram, st.io
    ensures num == SAVE_SIZE && st.Valid() && st.refreshes == old(st.refreshes)
    ensures st.Abstract() == Decode(save[..])
  {
    num := LoadScalars(st, save, num0);
    num := LoadInterrupts(st.interrupts, save, num);
    num := LoadNibbles(st.ram, save, num);
    num := LoadNibbles(st.io, save, num);
  }

  /** `state_load`: a blob with the wrong magic or version changes nothing
      and is reported; any other blob is decoded into the engine, after which
      `tamalib_refresh_hw` sees the new state. The header check reads at
      most five bytes; the rest of the blob is read only once it passes. */
  method StateLoad(st: State, save: array<u8>) returns (report: Option<LoadError>)
    requires st.Valid() && save.Length >= 5
    requires CheckHeader(save[..]) == None ==> save.Length >= SAVE_SIZE
    requires save != st.ram && save != st.io
    modifies st, st.interrupts, st.ram, st.io
    ensures st.Valid() && report == CheckHeader(save[..])
    ensures report.Some? ==> unchanged(st, st.interrupts, st.ram, st.io)
    ensures report.None? ==> st.Abstract() == Decode(save[..])
    ensures report.None? ==> st.refreshes == old(st.refreshes) + [st.Abstract()]
  {
    var num: nat := 0;
    if save[0] != STATE_FILE_MAGIC[0] || save[1] != STATE_FILE_MAGIC[1]
       || save[2] != STATE_FILE_MAGIC[2] || save[3] != STATE_FILE_MAGIC[3] {
      return Some(WrongMagic);
    }
    num := num + 4;
    if save[num] != STATE_FILE_VERSION {
      return Some(UnsupportedVersion(save[num]));
    }
    num := num + 1;

    num := LoadFields(st, save, num);
    if num != SAVE_SIZE {
      assert false;
    }
    st.refreshes := st.refreshes + [st.Abstract()];
    report := None;
  }
}
