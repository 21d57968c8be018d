/** The timer, and the choice of the interrupt to take. */
module Interrupts {
  import opened Types
  import opened Words
  import opened Csr
  import opened CsrWindows
  import opened Devices
  import opened HartState
  import opened Disk
  import opened Traps
  import opened TrapLaws

  // ---------------------------------------------------------------------------
  // The timer

  predicate SoftwarePending(msip: bv64) { msip & 1 != 0 }

  function SetPending(c: Csrs, bit: bv64): Csrs { Csr.Write(c, MIP, Or(Csr.Read(c, MIP), bit)) }

  function ClearPending(c: Csrs, bit: bv64): Csrs { Csr.Write(c, MIP, Clear(Csr.Read(c, MIP), bit)) }

  function PostSoftware(c: Csrs, msip: bv64): Csrs {
    if SoftwarePending(msip) then SetPending(c, MSIP_BIT) else c
  }

  predicate Exceeds(mtimecmp: bv64, mtime: bv64) { mtimecmp > mtime }

  predicate Reached(mtime: bv64, mtimecmp: bv64) { mtime >= mtimecmp }

  function SyncTimer(c: Csrs, mtimecmp: bv64, mtime: bv64): Csrs {
    var c1 := if Exceeds(mtimecmp, mtime) then ClearPending(c, MTIP_BIT) else c;
    if Reached(mtime, mtimecmp) then SetPending(c1, MTIP_BIT) else c1
  }

  /** One step of the timer: it posts the software interrupt, and the timer interrupt follows the
      comparison of `mtime` with `mtimecmp`. */
  function ClintTick(c: Clint, csr: Csrs): (Clint, Csrs) {
    var c1 := c.(mtime := Add(c.mtime, 1));
    (c1, SyncTimer(PostSoftware(csr, c1.msip), c1.mtimecmp, c1.mtime))
  }

  function Tick(m: Hart): Hart {
    var (c, csr) := ClintTick(m.bus.clint, m.csr);
    m.(bus := m.bus.(clint := c), csr := csr[TIME := Add(csr[TIME], 1)])
  }

  // ---------------------------------------------------------------------------
  // Pending interrupts

  predicate BitIsClear(w: bv64, k: bv6) { Shr(w, k) & 1 == 0 }

  /** The hart is in a mode whose interrupts are disabled. */
  predicate Gated(m: Hart) {
    match m.mode
    case Machine => BitIsClear(Csr.Read(m.csr, MSTATUS), 3)
    case Supervisor => BitIsClear(Csr.Read(m.csr, SSTATUS), 1)
    case _ => false
  }

  function Pend(m: Hart, bit: bv64): Hart { m.(csr := SetPending(m.csr, bit)) }

  /** Poll the devices: the UART first, then the disk, whose failure panics. */
  function PollDevices(m: Hart): Outcome<Hart> {
    if m.bus.env.uart then Ok(Pend(m, SEIP_BIT))
    else if m.bus.virtio.queueNotify == NO_NOTIFY then Ok(m)
    else
      match DiskAccess(m.bus.(virtio := m.bus.virtio.(queueNotify := NO_NOTIFY)))
      case Ok(b) => Ok(Pend(m.(bus := b), SEIP_BIT))
      case _ => Panic
  }

  predicate HasBit(w: bv64, bit: bv64) { w & bit != 0 }

  function Drop(m: Hart, bit: bv64): Hart { m.(csr := ClearPending(m.csr, bit)) }

  /** The first enabled pending interrupt; its pending bit is cleared. */
  function Choose(m: Hart): (Hart, Option<Interrupt>) {
    var pending := And(Csr.Read(m.csr, MIE), Csr.Read(m.csr, MIP));
    if HasBit(pending, MEIP_BIT) then (Drop(m, MEIP_BIT), Some(MachineExternal))
    else if HasBit(pending, MSIP_BIT) then (Drop(m, MSIP_BIT), Some(MachineSoftware))
    else if HasBit(pending, MTIP_BIT) then (Drop(m, MTIP_BIT), Some(MachineTimer))
    else if HasBit(pending, SEIP_BIT) then (Drop(m, SEIP_BIT), Some(SupervisorExternal))
    else if HasBit(pending, SSIP_BIT) then (Drop(m, SSIP_BIT), Some(SupervisorSoftware))
    else if HasBit(pending, STIP_BIT) then (Drop(m, STIP_BIT), Some(SupervisorTimer))
    else (m, None)
  }

  function CheckPending(m: Hart): Outcome<(Hart, Option<Interrupt>)> {
    if Gated(m) then Ok((m, None))
    else
      match PollDevices(m)
      case Ok(polled) => Ok(Choose(polled))
      case _ => Panic
  }

  // ---------------------------------------------------------------------------
  // The timer bit

  lemma TimerBit()
    ensures Bit(7) == MTIP_BIT && Bit(3) == MSIP_BIT
  {
  }

  lemma PendingIsMip(c: Csrs, bit: bv64)
    ensures SetPending(c, bit) == c[MIP := Or(c[MIP], bit)] && ClearPending(c, bit) == c[MIP := Clear(c[MIP], bit)]
  {
    hide And, Merge, Or, Clear;
  }

  lemma JoinSets(w: bv64, b: bv64)
    requires b != 0
    ensures HasBit(Or(w, b), b) && !HasBit(Clear(w, b), b)
  {
  }

  lemma SyncTimerSyncs(c: Csrs, mtimecmp: bv64, mtime: bv64)
    ensures HasBit(SyncTimer(c, mtimecmp, mtime)[MIP], MTIP_BIT) <==> Reached(mtime, mtimecmp)
    ensures SyncTimer(c, mtimecmp, mtime)
            == c[MIP := if Reached(mtime, mtimecmp) then Or(c[MIP], MTIP_BIT) else Clear(c[MIP], MTIP_BIT)]
  {
    hide SetPending, ClearPending, Or, Clear, HasBit;
    PendingIsMip(c, MTIP_BIT);
    JoinSets(c[MIP], MTIP_BIT);
  }

  /** After every step of the timer, whatever was in MIP before, the timer bit says whether `mtime`
      has reached `mtimecmp`. */
  lemma TickSyncsTimer(m: Hart)
    ensures var m' := Tick(m); HasBit(m'.csr[MIP], MTIP_BIT) <==> Reached(m'.bus.clint.mtime, m'.bus.clint.mtimecmp)
  {
    hide PostSoftware, SyncTimer, HasBit, Add, Reached;
    var c := m.bus.clint;
    SyncTimerSyncs(PostSoftware(m.csr, c.msip), c.mtimecmp, Add(c.mtime, 1));
  }

  // The two bits of MIP that the timer device drives.
  const DRIVEN_BITS: bv64 := 0x88

  lemma SoftwareBits(w: bv64)
    ensures Clear(Or(w, MSIP_BIT), DRIVEN_BITS) == Clear(w, DRIVEN_BITS)
  {
  }

  lemma TimerSet(w: bv64)
    ensures Clear(Or(w, MTIP_BIT), DRIVEN_BITS) == Clear(w, DRIVEN_BITS)
  {
  }

  lemma TimerCleared(w: bv64)
    ensures Clear(Clear(w, MTIP_BIT), DRIVEN_BITS) == Clear(w, DRIVEN_BITS)
  {
  }

  lemma TimerKeepsSoftware(w: bv64)
    ensures HasBit(Or(w, MTIP_BIT), MSIP_BIT) == HasBit(w, MSIP_BIT)
    ensures HasBit(Clear(w, MTIP_BIT), MSIP_BIT) == HasBit(w, MSIP_BIT)
  {
  }

  /** The timer moves nothing but `mtime`, TIME and its two bits of MIP; the software bit is set, and
      never cleared, when `msip` asks for it. */
  lemma TickMovesOnlyTime(m: Hart)
    ensures var m' := Tick(m);
            && m' == m.(csr := m'.csr, bus := m.bus.(clint := m.bus.clint.(mtime := Add(m.bus.clint.mtime, 1))))
            && (forall a: CsrAddress | a != MIP && a != TIME :: m'.csr[a] == m.csr[a])
            && m'.csr[TIME] == Add(m.csr[TIME], 1)
            && Clear(m'.csr[MIP], DRIVEN_BITS) == Clear(m.csr[MIP], DRIVEN_BITS)
            && (HasBit(m'.csr[MIP], MSIP_BIT) <==> HasBit(m.csr[MIP], MSIP_BIT) || SoftwarePending(m.bus.clint.msip))
  {
    hide SetPending, SyncTimer, Or, Clear, HasBit, Add, SoftwarePending, Reached;
    var c, mip := m.bus.clint, m.csr[MIP];
    PendingIsMip(m.csr, MSIP_BIT);
    var csr1 := PostSoftware(m.csr, c.msip);
    SyncTimerSyncs(csr1, c.mtimecmp, Add(c.mtime, 1));
    SoftwareBits(mip);
    TimerSet(csr1[MIP]);
    TimerCleared(csr1[MIP]);
    JoinSets(mip, MSIP_BIT);
    TimerKeepsSoftware(csr1[MIP]);
  }

  // ---------------------------------------------------------------------------
  // The choice

  /** The order in which pending interrupts are taken. */
  const PRIORITY: seq<Interrupt> :=
    [MachineExternal, MachineSoftware, MachineTimer, SupervisorExternal, SupervisorSoftware, SupervisorTimer]

  /** The interrupt is set in both MIE and MIP. */
  predicate IsRaised(c: Csrs, i: Interrupt) {
    ReadBit(c, MIE, InterruptCode(i)) == 1 && ReadBit(c, MIP, InterruptCode(i)) == 1
  }

  /** The first raised interrupt of a list. */
  function FirstRaised(c: Csrs, order: seq<Interrupt>): Option<Interrupt> {
    if order == [] then None
    else if IsRaised(c, order[0]) then Some(order[0])
    else FirstRaised(c, order[1..])
  }

  lemma RaisedBit(c: Csrs, i: Interrupt, bit: bv64)
    requires bit == Bit(InterruptCode(i))
    ensures IsRaised(c, i) <==> HasBit(And(Csr.Read(c, MIE), Csr.Read(c, MIP)), bit)
  {
    hide Csr.Read, And, HasBit, Bit;
    var e, p, k := Csr.Read(c, MIE), Csr.Read(c, MIP), InterruptCode(i);
    OneBit(e, p, k, bit);
  }

  lemma OneBit(e: bv64, p: bv64, k: bv6, bit: bv64)
    requires bit == Bit(k)
    ensures HasBit(And(e, p), bit) <==> And(e, bit) != 0 && And(p, bit) != 0
  {
    hide And, Bit;
    if And(e, bit) == 0 {
      NoneKept(e, p, bit);
    } else {
      OneBitKept(e, k, bit);
      AllKept(e, p, bit);
    }
  }

  lemma NoneKept(e: bv64, p: bv64, bit: bv64)
    requires And(e, bit) == 0
    ensures !HasBit(And(e, p), bit)
  {
  }

  lemma OneBitKept(e: bv64, k: bv6, bit: bv64)
    requires bit == Bit(k) && And(e, bit) != 0
    ensures And(e, bit) == bit
  {
    OneBitIs(k, bit);
    SingleBit(e, bit);
  }

  /** A single bit, by its defining property. */
  predicate IsOneBit(bit: bv64) { bit != 0 && bit & (bit - 1) == 0 }

  lemma OneBitIs(k: bv6, bit: bv64)
    requires bit == Bit(k)
    ensures IsOneBit(bit)
  {
  }

  lemma SingleBit(w: bv64, bit: bv64)
    requires IsOneBit(bit) && And(w, bit) != 0
    ensures And(w, bit) == bit
  {
  }

  lemma AllKept(e: bv64, p: bv64, bit: bv64)
    requires And(e, bit) == bit
    ensures HasBit(And(e, p), bit) <==> And(p, bit) != 0
  {
    hide And, HasBit;
    KeepThrough(e, p, bit);
    HasBitIsKeep(And(e, p), bit);
  }

  lemma KeepThrough(e: bv64, p: bv64, bit: bv64)
    requires And(e, bit) == bit
    ensures And(And(e, p), bit) == And(p, bit)
  {
  }

  lemma HasBitIsKeep(w: bv64, bit: bv64)
    ensures HasBit(w, bit) <==> And(w, bit) != 0
  {
  }

  lemma PendingBits()
    ensures Bit(1) == SSIP_BIT && Bit(5) == STIP_BIT && Bit(9) == SEIP_BIT && Bit(11) == MEIP_BIT
  {
  }

  /** The interrupt chosen is the first of the priority order that is both enabled and pending, none if
      there is none, and of the whole state only its pending bit changes. */
  lemma ChoosesFirst(m: Hart)
    ensures Choose(m).1 == FirstRaised(m.csr, PRIORITY)
    ensures match Choose(m).1
            case None => Choose(m).0 == m
            case Some(i) => Choose(m).0 == m.(csr := m.csr[MIP := Clear(m.csr[MIP], Bit(InterruptCode(i)))])
  {
    hide Csr.Read, ClearPending, And, HasBit, IsRaised, Clear, Bit, FirstRaised;
    TimerBit();
    PendingBits();
    RaisedBit(m.csr, MachineExternal, MEIP_BIT);
    RaisedBit(m.csr, MachineSoftware, MSIP_BIT);
    RaisedBit(m.csr, MachineTimer, MTIP_BIT);
    RaisedBit(m.csr, SupervisorExternal, SEIP_BIT);
    RaisedBit(m.csr, SupervisorSoftware, SSIP_BIT);
    RaisedBit(m.csr, SupervisorTimer, STIP_BIT);
    UnfoldPriority(m.csr);
    DropsBit(m, MEIP_BIT);
    DropsBit(m, MSIP_BIT);
    DropsBit(m, MTIP_BIT);
    DropsBit(m, SEIP_BIT);
    DropsBit(m, SSIP_BIT);
    DropsBit(m, STIP_BIT);
  }

  lemma DropsBit(m: Hart, bit: bv64)
    ensures Drop(m, bit) == m.(csr := m.csr[MIP := Clear(m.csr[MIP], bit)])
  {
    hide ClearPending, Clear;
    PendingIsMip(m.csr, bit);
  }

  lemma UnfoldPriority(c: Csrs)
    ensures FirstRaised(c, PRIORITY) ==
            if IsRaised(c, MachineExternal) then Some(MachineExternal)
            else if IsRaised(c, MachineSoftware) then Some(MachineSoftware)
            else if IsRaised(c, MachineTimer) then Some(MachineTimer)
            else if IsRaised(c, SupervisorExternal) then Some(SupervisorExternal)
            else if IsRaised(c, SupervisorSoftware) then Some(SupervisorSoftware)
            else if IsRaised(c, SupervisorTimer) then Some(SupervisorTimer)
            else None
  {
    hide IsRaised;
    hide FirstRaised;
    var last := [SupervisorTimer];
    var fifth := [SupervisorSoftware] + last;
    var fourth := [SupervisorExternal] + fifth;
    var third := [MachineTimer] + fourth;
    var second := [MachineSoftware] + third;
    assert PRIORITY == [MachineExternal] + second && last == [SupervisorTimer] + [];
    FirstOf(c, MachineExternal, second);
    FirstOf(c, MachineSoftware, third);
    FirstOf(c, MachineTimer, fourth);
    FirstOf(c, SupervisorExternal, fifth);
    FirstOf(c, SupervisorSoftware, last);
    FirstOf(c, SupervisorTimer, []);
    FirstOfNone(c);
  }

  lemma FirstOf(c: Csrs, i: Interrupt, rest: seq<Interrupt>)
    ensures FirstRaised(c, [i] + rest) == if IsRaised(c, i) then Some(i) else FirstRaised(c, rest)
  {
    hide IsRaised;
    assert ([i] + rest)[1..] == rest;
  }

  lemma FirstOfNone(c: Csrs)
    ensures FirstRaised(c, []) == None
  {
  }

  // ---------------------------------------------------------------------------
  // Masking

  lemma GateBit(w: bv64, k: bv6)
    ensures BitIsClear(w, k) <==> And(w, Bit(k)) == 0
  {
  }

  /** Interrupts are gated exactly when the mode's own enable bit in mstatus is clear. */
  lemma GatedIffMasked(m: Hart)
    ensures Gated(m) <==> Masked(m)
  {
    hide Csr.Read, And, Bit, BitIsClear, Covers;
    GateBit(Csr.Read(m.csr, MSTATUS), 3);
    GateBit(Csr.Read(m.csr, SSTATUS), 1);
    SstatusFlags();
    SstatusReadsMstatus(m.csr, 1);
  }

  /** While interrupts are masked nothing is taken and nothing changes, not even a device. */
  lemma MaskedTakesNothing(m: Hart)
    requires Masked(m)
    ensures CheckPending(m) == Ok((m, None))
  {
    hide Gated, Masked, PollDevices, Choose;
    GatedIffMasked(m);
  }

  /** The CSRs once the devices are polled: an interrupting device sets the supervisor external bit. */
  function PolledCsrs(m: Hart): Csrs {
    if m.bus.env.uart || m.bus.virtio.queueNotify != NO_NOTIFY then m.csr[MIP := Or(m.csr[MIP], SEIP_BIT)]
    else m.csr
  }

  /** Interrupts are neither invented nor lost: with interrupts enabled the one taken is the first of
      those raised once the devices are polled; its pending bit is cleared, no other bit of any CSR
      changes, and outside the CSRs and the devices nothing does. */
  lemma PendingIsConserved(m: Hart)
    requires !Masked(m) && CheckPending(m).Ok?
    ensures var (m', taken) := CheckPending(m).value;
            && taken == FirstRaised(PolledCsrs(m), PRIORITY)
            && m' == m.(csr := m'.csr, bus := m'.bus)
            && m'.csr == match taken
                         case None => PolledCsrs(m)
                         case Some(i) => PolledCsrs(m)[MIP := Clear(PolledCsrs(m)[MIP], Bit(InterruptCode(i)))]
  {
    hide Gated, Masked, Choose, PollDevices, PolledCsrs, FirstRaised, Clear, Bit;
    GatedIffMasked(m);
    PollingPends(m);
    ChoosesFirst(PollDevices(m).value);
  }

  lemma PollingPends(m: Hart)
    requires PollDevices(m).Ok?
    ensures var polled := PollDevices(m).value; polled == m.(csr := PolledCsrs(m), bus := polled.bus)
  {
    hide DiskAccess, SetPending, Or;
    PendingIsMip(m.csr, SEIP_BIT);
  }
}
