/** The system bus: DRAM, the core-local interruptor and the virtio block device. */
module Devices {
  import opened Types
  import opened Words
  import opened ByteStore

  /** A 64-bit address as a number. */
  type Addr = a: int | 0 <= a < TWO64

  function Phys(a: bv64): Addr { a as int }

  const MROM_BASE := 0x1000
  const MROM_END := 0x1_0000
  const CLINT_BASE := 0x200_0000
  const CLINT_END := CLINT_BASE + 0x1_0000
  const PLIC_BASE := 0xc00_0000
  const PLIC_END := PLIC_BASE + 0x20_8000
  const UART_BASE := 0x1000_0000
  const UART_END := UART_BASE + 0x100
  const VIRTIO_BASE := 0x1000_1000
  const VIRTIO_END := VIRTIO_BASE + 0x1000
  const DRAM_BASE := 0x8000_0000
  const DRAM_SIZE := 0x4000_0000
  const DRAM_END := DRAM_BASE + DRAM_SIZE

  // ---------------------------------------------------------------------------
  // CLINT

  const CLINT_MSIP := CLINT_BASE
  const CLINT_MTIMECMP := CLINT_BASE + 0x4000
  const CLINT_MTIME := CLINT_BASE + 0xbff8

  datatype Clint = Clint(msip: bv64, mtimecmp: bv64, mtime: bv64)

  datatype ClintReg = Msip | Mtimecmp | Mtime {
    function Base(): Addr {
      match this
      case Msip => CLINT_MSIP
      case Mtimecmp => CLINT_MTIMECMP
      case Mtime => CLINT_MTIME
    }

    function Width(): nat { if this == Msip then 4 else 8 }

    /** The source's ranges include the byte after the register. */
    predicate Answers(a: Addr) { Base() <= a <= Base() + Width() }
  }

  function ClintGet(c: Clint, r: ClintReg): bv64 {
    match r
    case Msip => c.msip
    case Mtimecmp => c.mtimecmp
    case Mtime => c.mtime
  }

  /** `msip` is a 32-bit register. */
  function ClintSet(c: Clint, r: ClintReg, v: bv64): Clint {
    match r
    case Msip => c.(msip := Low32(v))
    case Mtimecmp => c.(mtimecmp := v)
    case Mtime => c.(mtime := v)
  }

  /** `8 * k` as a shift count. */
  function ByteShift(k: nat): bv6
    requires k < 8
  {
    if k == 0 then 0 else if k == 1 then 8 else if k == 2 then 16 else if k == 3 then 24
    else if k == 4 then 32 else if k == 5 then 40 else if k == 6 then 48 else 56
  }

  function DropBytes(v: bv64, k: nat): bv64
    requires k < 8
  {
    Shr(v, ByteShift(k))
  }

  function PadBytes(v: bv64, k: nat): bv64
    requires k < 8
  {
    Shl(v, ByteShift(k))
  }

  function CutTo(v: bv64, size: Size): bv64 { v & size.Mask() }

  function Overwrite(reg: bv64, mask: bv64, v: bv64): bv64 { (reg & !mask) | v }

  function Low32(v: bv64): bv64 { v & 0xffff_ffff }

  /** A read at byte `off` of a register. The shift count `off * 8` wraps at 64 bits. */
  function SubRead(reg: bv64, off: nat, size: Size): bv64 {
    if size == DoubleWord then reg else CutTo(DropBytes(reg, off % 8), size)
  }

  function SubWrite(reg: bv64, off: nat, v: bv64, size: Size): bv64 {
    if size == DoubleWord then v
    else Overwrite(reg, PadBytes(size.Mask(), off % 8), PadBytes(CutTo(v, size), off % 8))
  }

  function ClintRead(c: Clint, a: Addr, size: Size): Outcome<bv64> {
    if Msip.Answers(a) then Ok(SubRead(c.msip, a - CLINT_MSIP, size))
    else if Mtimecmp.Answers(a) then Ok(SubRead(c.mtimecmp, a - CLINT_MTIMECMP, size))
    else if Mtime.Answers(a) then Ok(SubRead(c.mtime, a - CLINT_MTIME, size))
    else Err(LoadAccessFault)
  }

  function ClintWrite(c: Clint, a: Addr, v: bv64, size: Size): (Clint, Outcome<()>) {
    if Msip.Answers(a) then (ClintSet(c, Msip, SubWrite(c.msip, a - CLINT_MSIP, v, size)), Ok(()))
    else if Mtimecmp.Answers(a) then
      (ClintSet(c, Mtimecmp, SubWrite(c.mtimecmp, a - CLINT_MTIMECMP, v, size)), Ok(()))
    else if Mtime.Answers(a) then (ClintSet(c, Mtime, SubWrite(c.mtime, a - CLINT_MTIME, v, size)), Ok(()))
    else (c, Err(StoreAMOAccessFault))
  }

  // ---------------------------------------------------------------------------
  // Virtio: the registers that the disk access depends on. The environment answers for the others.

  const VIRTIO_GUEST_PAGE_SIZE := VIRTIO_BASE + 0x028
  const VIRTIO_QUEUE_PFN := VIRTIO_BASE + 0x040
  const VIRTIO_QUEUE_NOTIFY := VIRTIO_BASE + 0x050
  const VIRTIO_INTERRUPT_STATUS := VIRTIO_BASE + 0x060
  const VIRTIO_INTERRUPT_ACK := VIRTIO_BASE + 0x064

  // The value of the notify register when nothing is to be processed.
  const NO_NOTIFY: bv64 := 9999

  datatype Virtio = Virtio(
    id: Addr,
    guestPageSize: bv64,
    queuePfn: bv64,
    queueNotify: bv64,
    interruptStatus: bv64,
    disk: seq<bv8>)

  predicate IsOdd(v: bv64) { v & 1 == 1 }

  function Acknowledged(status: bv64): bv64 { status & !1 }

  function VirtioRead(v: Virtio, env: Env, a: Addr, size: Size): Outcome<bv64> {
    if size == DoubleWord then Err(LoadAccessFault)
    else if a == VIRTIO_QUEUE_PFN then Ok(v.queuePfn)
    else if a == VIRTIO_INTERRUPT_STATUS then Ok(v.interruptStatus)
    else env.Read(a, size)
  }

  function VirtioWrite(v: Virtio, env: Env, a: Addr, value: bv64, size: Size): (Virtio, Outcome<()>) {
    if size == DoubleWord then (v, Err(StoreAMOAccessFault))
    else if a == VIRTIO_GUEST_PAGE_SIZE then (v.(guestPageSize := Low32(value)), Ok(()))
    else if a == VIRTIO_QUEUE_PFN then (v.(queuePfn := Low32(value)), Ok(()))
    else if a == VIRTIO_QUEUE_NOTIFY then (v.(queueNotify := Low32(value)), Ok(()))
    else if a == VIRTIO_INTERRUPT_ACK then
      if IsOdd(value) then (v.(interruptStatus := Acknowledged(v.interruptStatus)), Ok(())) else (v, Panic)
    else (v, env.Write(a, size))
  }

  // ---------------------------------------------------------------------------
  // The bus

  datatype Bus = Bus(dram: seq<bv8>, clint: Clint, virtio: Virtio, env: Env)

  predicate IsDram(a: Addr) { DRAM_BASE <= a <= DRAM_END }

  /** The whole access lies in the DRAM that is there. */
  predicate InDram(b: Bus, a: Addr, size: Size) {
    IsDram(a) && a - DRAM_BASE + size.Bytes() <= |b.dram|
  }

  predicate IsClint(a: Addr) { CLINT_BASE <= a <= CLINT_END }
  predicate IsVirtio(a: Addr) { VIRTIO_BASE <= a <= VIRTIO_END }
  predicate IsPlicOrUart(a: Addr) { PLIC_BASE <= a <= PLIC_END || UART_BASE <= a <= UART_END }
  predicate IsRom(a: Addr) { MROM_BASE <= a <= MROM_END }

  function BusRead(b: Bus, a: Addr, size: Size): Outcome<bv64> {
    if IsRom(a) then b.env.Read(a, size)
    else if IsClint(a) then ClintRead(b.clint, a, size)
    else if IsPlicOrUart(a) then b.env.Read(a, size)
    else if IsVirtio(a) then VirtioRead(b.virtio, b.env, a, size)
    else if IsDram(a) then
      if InDram(b, a, size) then Ok(LoadBytes(b.dram, a - DRAM_BASE, size)) else Panic
    else Err(LoadAccessFault)
  }

  /** The ROM does not answer writes. */
  function BusWrite(b: Bus, a: Addr, v: bv64, size: Size): (Bus, Outcome<()>) {
    if IsClint(a) then
      var (c, r) := ClintWrite(b.clint, a, v, size);
      (b.(clint := c), r)
    else if IsPlicOrUart(a) then (b, b.env.Write(a, size))
    else if IsVirtio(a) then
      var (w, r) := VirtioWrite(b.virtio, b.env, a, v, size);
      (b.(virtio := w), r)
    else if IsDram(a) then
      if InDram(b, a, size) then (b.(dram := StoreBytes(b.dram, a - DRAM_BASE, v, size)), Ok(())) else (b, Panic)
    else (b, Err(StoreAMOAccessFault))
  }

  /** A write that is refused leaves the bus as it was, and a write never resizes the DRAM. */
  lemma WriteKeepsShape(b: Bus, a: Addr, v: bv64, size: Size)
    ensures var (b', r) := BusWrite(b, a, v, size);
            |b'.dram| == |b.dram| && b'.env == b.env && b'.virtio.disk == b.virtio.disk && b'.virtio.id == b.virtio.id
            && (!r.Ok? ==> b' == b)
  {
    hide StoreBytes;
  }

  /** The bus answers a read with a load access fault or not at all. */
  lemma BusReadError(b: Bus, a: Addr, size: Size)
    ensures var r := BusRead(b, a, size); r.Err? ==> r.error == LoadAccessFault
  {
    hide LoadBytes, SubRead;
  }

  lemma BusWriteError(b: Bus, a: Addr, v: bv64, size: Size)
    ensures var r := BusWrite(b, a, v, size).1; r.Err? ==> r.error == StoreAMOAccessFault
  {
    hide StoreBytes, SubWrite;
  }

  lemma StoreMissesRead(b: Bus, a: Addr, v: bv64, size: Size, p: Addr, other: Size)
    requires InDram(b, a, size) && !(a < p + other.Bytes() && p < a + size.Bytes())
    ensures BusRead(BusWrite(b, a, v, size).0, p, other) == BusRead(b, p, other)
  {
    hide StoreBytes, LoadBytes, SubRead;
    if InDram(b, p, other) {
      LoadStoreDisjoint(b.dram, a - DRAM_BASE, v, size, p - DRAM_BASE, other);
    }
  }

  /** A DRAM store is read back, cut to its size. */
  lemma StoreIsReadBack(b: Bus, a: Addr, v: bv64, size: Size)
    requires InDram(b, a, size)
    ensures BusWrite(b, a, v, size).1 == Ok(())
    ensures BusRead(BusWrite(b, a, v, size).0, a, size) == Ok(v & size.Mask())
  {
    hide StoreBytes, LoadBytes, SubRead;
    LoadStoreSame(b.dram, a - DRAM_BASE, v, size);
  }
}
