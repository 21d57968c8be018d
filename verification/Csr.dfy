/** Control and status registers, with the supervisor's views of the machine registers. */
module Csr {
  import opened Words

  const CSR_SIZE := 4096

  type CsrAddress = a: int | 0 <= a < 4096
  type Csrs = c: seq<bv64> | |c| == 4096 witness seq(4096, _ => 0)

  const FCSR: CsrAddress := 0x003
  const TIME: CsrAddress := 0xc01

  const SSTATUS: CsrAddress := 0x100
  const SIE: CsrAddress := 0x104
  const STVEC: CsrAddress := 0x105
  const SEPC: CsrAddress := 0x141
  const SCAUSE: CsrAddress := 0x142
  const STVAL: CsrAddress := 0x143
  const SIP: CsrAddress := 0x144
  const SATP: CsrAddress := 0x180

  const MVENDORID: CsrAddress := 0xf11
  const MARCHID: CsrAddress := 0xf12
  const MIMPID: CsrAddress := 0xf13
  const MHARTID: CsrAddress := 0xf14
  const MSTATUS: CsrAddress := 0x300
  const MISA: CsrAddress := 0x301
  const MEDELEG: CsrAddress := 0x302
  const MIDELEG: CsrAddress := 0x303
  const MIE: CsrAddress := 0x304
  const MTVEC: CsrAddress := 0x305
  const MEPC: CsrAddress := 0x341
  const MCAUSE: CsrAddress := 0x342
  const MTVAL: CsrAddress := 0x343
  const MIP: CsrAddress := 0x344

  // SIE | SPIE | SPP | FS | XS | SUM | MXR: what a write of SSTATUS reaches.
  const SSTATUS_WRITABLE: bv64 := 0xd_e122
  // The same with UXL: what a read of SSTATUS shows.
  const SSTATUS_READABLE: bv64 := 0x3_000d_e122

  const SSIP_BIT: bv64 := 0x2
  const MSIP_BIT: bv64 := 0x8
  const STIP_BIT: bv64 := 0x20
  const MTIP_BIT: bv64 := 0x80
  const SEIP_BIT: bv64 := 0x200
  const MEIP_BIT: bv64 := 0x800

  // MXL=2 and the extensions S, M, I, F, D, C and A.
  const MISA_RESET: bv64 := 0x8000_0000_0004_112d

  function Reset(): Csrs {
    seq(4096, i => if i == MISA then MISA_RESET else 0)
  }

  // The word operations are named, so that proofs can hide them and reason by congruence.
  function Clear(w: bv64, mask: bv64): bv64 { w & !mask }

  function Bit(k: bv6): bv64 { 1 << k }

  function Read(c: Csrs, a: CsrAddress): bv64 {
    if a == SSTATUS then And(c[MSTATUS], SSTATUS_READABLE)
    else if a == SIE then And(c[MIE], c[MIDELEG])
    else if a == SIP then And(c[MIP], c[MIDELEG])
    else c[a]
  }

  predicate IsReadOnly(a: CsrAddress) {
    a == MVENDORID || a == MARCHID || a == MIMPID || a == MHARTID
  }

  /** The bits of `v` where `mask` is set, the bits of `w` elsewhere. */
  function Merge(w: bv64, mask: bv64, v: bv64): bv64 {
    (w & !mask) | (v & mask)
  }

  function Write(c: Csrs, a: CsrAddress, v: bv64): Csrs {
    if IsReadOnly(a) then c
    else if a == SSTATUS then c[MSTATUS := Merge(c[MSTATUS], SSTATUS_WRITABLE, v)]
    else if a == SIE then c[MIE := Merge(c[MIE], c[MIDELEG], v)]
    else if a == SIP then c[MIP := Merge(c[MIP], And(SSIP_BIT, c[MIDELEG]), v)]
    else c[a := v]
  }

  function ReadBit(c: Csrs, a: CsrAddress, bit: bv6): bv64 {
    if And(Read(c, a), Bit(bit)) != 0 then 1 else 0
  }

  /** As in the source, a value other than 0 or 1 is not written at all. */
  function WriteBit(c: Csrs, a: CsrAddress, bit: bv6, val: bv64): Csrs {
    if val == 1 then Write(c, a, Or(Read(c, a), Bit(bit)))
    else if val == 0 then Write(c, a, Clear(Read(c, a), Bit(bit)))
    else c
  }

  /** The bits from `k` up. */
  function From(k: bv6): bv64 { !0 << k }

  /** The word with the bits of `from` that are not in `above` cleared, joined with `x`. */
  function Put(w: bv64, from: bv64, above: bv64, x: bv64): bv64 { (w & (above | !from)) | x }

  /** Bits `start..end` of a word. */
  function Extract(w: bv64, start: bv6, end: bv6): bv64 {
    Shr(Clear(w, From(end)), start)
  }

  /** The word with bits `start..end` replaced by `v`. */
  function Insert(w: bv64, start: bv6, end: bv6, v: bv64): bv64 {
    Put(w, From(start), From(end), Shl(v, start))
  }

  function ReadBits(c: Csrs, a: CsrAddress, start: bv6, end: bv6): bv64 {
    Extract(Read(c, a), start, end)
  }

  /** The range `start..` up to bit 63. */
  function ReadBitsFrom(c: Csrs, a: CsrAddress, start: bv6): bv64 {
    Shr(Read(c, a), start)
  }

  function WriteBits(c: Csrs, a: CsrAddress, start: bv6, end: bv6, v: bv64): Csrs {
    Write(c, a, Insert(Read(c, a), start, end, v))
  }

  // ---------------------------------------------------------------------------
  // Field laws

  predicate Apart(x: bv64, mask: bv64) { x & mask == 0 }

  predicate Covers(outer: bv64, inner: bv64) { outer & inner == inner }

  /** The value is no wider than the field: moved into place it loses no bit and reaches none above. */
  predicate Fits(v: bv64, start: bv6, end: bv6) {
    Shr(Shl(v, start), start) == v && Apart(Shl(v, start), From(end))
  }

  lemma FromNested(j: bv6, k: bv6)
    requires j <= k
    ensures Covers(From(j), From(k))
  {
  }

  lemma ShiftedValueIsAbove(v: bv64, start: bv6)
    ensures Covers(From(start), Shl(v, start))
  {
  }

  lemma PutThenClearRaw(w: bv64, from: bv64, above: bv64, x: bv64)
    requires x & above == 0 && from & above == above
    ensures Clear(Put(w, from, above, x), above) == x | (w & !from)
  {
  }

  lemma JoinClearRaw(w: bv64, from: bv64, x: bv64)
    ensures Or(x, Clear(w, from)) == x | (w & !from)
  {
  }

  lemma PutThenClear(w: bv64, from: bv64, above: bv64, x: bv64)
    requires Apart(x, above) && Covers(from, above)
    ensures Clear(Put(w, from, above, x), above) == Or(x, Clear(w, from))
  {
    hide Clear, Put, Or;
    PutThenClearRaw(w, from, above, x);
    JoinClearRaw(w, from, x);
  }

  lemma AndBits(y: bv64, s: bv64)
    ensures And(y, s) == y & s
  {
  }

  lemma SplitAt(y: bv64, s: bv64)
    ensures y == Or(And(y, s), Clear(y, s))
  {
  }

  lemma ShiftOut0(x: bv64, w: bv64, s: bv6, f: bv64, y: bv64)
    requires s & 56 == 0 && f == !0 << s && y == x | (w & !f)
    ensures y >> s == x >> s
  {
  }

  lemma ShiftOut1(x: bv64, w: bv64, s: bv6, f: bv64, y: bv64)
    requires s & 56 == 8 && f == !0 << s && y == x | (w & !f)
    ensures y >> s == x >> s
  {
  }

  lemma ShiftOut2(x: bv64, w: bv64, s: bv6, f: bv64, y: bv64)
    requires s & 56 == 16 && f == !0 << s && y == x | (w & !f)
    ensures y >> s == x >> s
  {
  }

  lemma ShiftOut3(x: bv64, w: bv64, s: bv6, f: bv64, y: bv64)
    requires s & 56 == 24 && f == !0 << s && y == x | (w & !f)
    ensures y >> s == x >> s
  {
  }

  lemma ShiftOut4(x: bv64, w: bv64, s: bv6, f: bv64, y: bv64)
    requires s & 56 == 32 && f == !0 << s && y == x | (w & !f)
    ensures y >> s == x >> s
  {
  }

  lemma ShiftOut5(x: bv64, w: bv64, s: bv6, f: bv64, y: bv64)
    requires s & 56 == 40 && f == !0 << s && y == x | (w & !f)
    ensures y >> s == x >> s
  {
  }

  lemma ShiftOut6(x: bv64, w: bv64, s: bv6, f: bv64, y: bv64)
    requires s & 56 == 48 && f == !0 << s && y == x | (w & !f)
    ensures y >> s == x >> s
  {
  }

  lemma ShiftOut7(x: bv64, w: bv64, s: bv6, f: bv64, y: bv64)
    requires s & 56 == 56 && f == !0 << s && y == x | (w & !f)
    ensures y >> s == x >> s
  {
  }

  lemma ShiftOut(x: bv64, w: bv64, s: bv6, f: bv64, y: bv64)
    requires f == !0 << s && y == x | (w & !f)
    ensures Shr(y, s) == Shr(x, s)
  {
    hide Shr;
    ShiftOutRaw(x, w, s, f, y);
    ShrIsShift(y, s);
    ShrIsShift(x, s);
  }

  lemma ShrIsShift(y: bv64, s: bv6)
    ensures Shr(y, s) == y >> s
  {
  }

  lemma ShiftOutRaw(x: bv64, w: bv64, s: bv6, f: bv64, y: bv64)
    requires f == !0 << s && y == x | (w & !f)
    ensures y >> s == x >> s
  {
    var group := s & 56;
    if group == 0 { ShiftOut0(x, w, s, f, y); } else if group == 8 { ShiftOut1(x, w, s, f, y); }
    else if group == 16 { ShiftOut2(x, w, s, f, y); } else if group == 24 { ShiftOut3(x, w, s, f, y); }
    else if group == 32 { ShiftOut4(x, w, s, f, y); } else if group == 40 { ShiftOut5(x, w, s, f, y); }
    else if group == 48 { ShiftOut6(x, w, s, f, y); } else { EighthGroup(s); ShiftOut7(x, w, s, f, y); }
  }

  lemma EighthGroup(s: bv6)
    requires s & 56 != 0 && s & 56 != 8 && s & 56 != 16 && s & 56 != 24
    requires s & 56 != 32 && s & 56 != 40 && s & 56 != 48
    ensures s & 56 == 56
  {
  }

  lemma ShiftOutFrom(x: bv64, w: bv64, s: bv6, f: bv64, y: bv64)
    requires f == From(s) && y == x | (w & !f)
    ensures Shr(y, s) == Shr(x, s)
  {
    hide Shr;
    ShiftOut(x, w, s, f, y);
  }

  /** What lies below `s` is shifted out. */
  lemma LowPartShiftedOut(x: bv64, w: bv64, s: bv6, f: bv64, y: bv64)
    requires f == From(s) && y == Or(x, Clear(w, f))
    ensures Shr(y, s) == Shr(x, s)
  {
    hide From, Shr, Or, Clear;
    JoinClearRaw(w, f, x);
    ShiftOutFrom(x, w, s, f, y);
  }

  /** Words that agree from bit `s` up agree once shifted by `s`. */
  lemma ShiftForgetsBelow(y: bv64, z: bv64, s: bv6)
    requires And(y, From(s)) == And(z, From(s))
    ensures Shr(y, s) == Shr(z, s)
  {
    hide From, Shr, Or, Clear, And;
    var f := From(s);
    SplitAt(y, f);
    SplitAt(z, f);
    LowPartShiftedOut(And(y, f), y, s, f, y);
    LowPartShiftedOut(And(z, f), z, s, f, z);
  }

  /** A field write is read back. */
  lemma ExtractInsertSame(w: bv64, start: bv6, end: bv6, v: bv64)
    requires start < end && Fits(v, start, end)
    ensures Extract(Insert(w, start, end, v), start, end) == v
  {
    hide From, Shl, Shr, Clear, Put, Or, Apart, Covers;
    var f, h, x := From(start), From(end), Shl(v, start);
    FromNested(start, end);
    PutThenClear(w, f, h, x);
    LowPartShiftedOut(x, w, start, f, Clear(Put(w, f, h, x), h));
  }
}
