/** Taking a trap: the entry into supervisor or machine mode and the status stacks of mstatus. */
module Traps {
  import opened Types
  import opened Words
  import opened Csr
  import opened CsrWindows
  import opened HartState
  import opened Executor

  datatype Trap = Contained | Requested | Invisible | Fatal

  function InterruptCode(i: Interrupt): bv6 {
    match i
    case SupervisorSoftware => 1
    case MachineSoftware => 3
    case SupervisorTimer => 5
    case MachineTimer => 7
    case SupervisorExternal => 9
    case MachineExternal => 11
  }

  function ExceptionCode(e: Exception): bv6 {
    match e
    case InstructionAddressMisaligned => 0
    case InstructionAccessFault => 1
    case IllegalInstruction => 2
    case Breakpoint => 3
    case LoadAddressMisaligned => 4
    case LoadAccessFault => 5
    case StoreAMOAddressMisaligned => 6
    case StoreAMOAccessFault => 7
    case EnvironmentCallFromUMode => 8
    case EnvironmentCallFromSMode => 9
    case EnvironmentCallFromMMode => 11
    case InstructionPageFault => 12
    case LoadPageFault => 13
    case StoreAMOPageFault => 15
  }

  function TrapKind(e: Exception): Trap {
    match e
    case InstructionAddressMisaligned | InstructionAccessFault => Fatal
    case IllegalInstruction => Invisible
    case Breakpoint => Requested
    case LoadAddressMisaligned | LoadAccessFault | StoreAMOAddressMisaligned | StoreAMOAccessFault => Fatal
    case EnvironmentCallFromUMode | EnvironmentCallFromSMode | EnvironmentCallFromMMode => Requested
    case InstructionPageFault | LoadPageFault | StoreAMOPageFault => Invisible
  }

  /** The delegation bit of a cause; only the low sixteen are implemented. */
  predicate IsDelegated(deleg: bv64, code: bv6) { Shr(deleg & 0xffff, code) & 1 == 1 }

  function ExceptionCause(e: Exception): bv64 { ExceptionCode(e) as bv64 }

  function InterruptCause(code: bv6): bv64 { 0x8000_0000_0000_0000 | (code as bv64) }

  /** The offset of a cause in a vectored trap table. */
  function VectorOffset(tvecMode: bv64, code: bv6): bv64 { if tvecMode == 1 then 4 * (code as bv64) else 0 }

  /** SPIE takes SIE, SIE is cleared, and SPP records the mode. */
  function PushSupervisor(c: Csrs, from: Mode): Csrs {
    var c1 := WriteBit(c, SSTATUS, 5, ReadBit(c, SSTATUS, 1));
    var c2 := WriteBit(c1, SSTATUS, 1, 0);
    WriteBit(c2, SSTATUS, 8, if from == User then 0 else 1)
  }

  function Mpp(from: Mode): Option<bv64> {
    match from
    case User => Some(0)
    case Supervisor => Some(1)
    case Machine => Some(3)
    case Debug => None
  }

  /** MPIE takes MIE, and MIE is cleared. */
  function PushMachine(c: Csrs): Csrs {
    WriteBit(WriteBit(c, MSTATUS, 7, ReadBit(c, MSTATUS, 3)), MSTATUS, 3, 0)
  }

  /** MPP takes the mode; there is none for debug mode. */
  function RecordMode(c: Csrs, from: Mode): (Csrs, Outcome<()>) {
    match Mpp(from)
    case Some(v) => (WriteBits(c, MSTATUS, 11, 13, v), Ok(()))
    case None => (c, Panic)
  }

  function RecordSupervisor(c: Csrs, epc: bv64, cause: bv64): Csrs {
    Csr.Write(Csr.Write(Csr.Write(c, SEPC, ClearLowBit(epc)), SCAUSE, cause), STVAL, 0)
  }

  function RecordMachine(c: Csrs, epc: bv64, cause: bv64): Csrs {
    Csr.Write(Csr.Write(Csr.Write(c, MEPC, ClearLowBit(epc)), MCAUSE, cause), MTVAL, 0)
  }

  function EnterSupervisor(m: Hart, epc: bv64, cause: bv64, target: bv64): Hart {
    m.(prevMode := m.mode, mode := Supervisor, pc := target,
      csr := PushSupervisor(RecordSupervisor(m.csr, epc, cause), m.mode))
  }

  /** A trap from debug mode panics when the previous mode is to be recorded. */
  function EnterMachine(m: Hart, epc: bv64, cause: bv64, target: bv64): (Hart, Outcome<()>) {
    var c := PushMachine(RecordMachine(m.csr, epc, cause));
    var m1 := m.(prevMode := m.mode, mode := Machine, pc := target, csr := c);
    var (c1, r) := RecordMode(c, m.mode);
    (m1.(csr := c1), r)
  }

  predicate ExceptionToSupervisor(m: Hart, e: Exception) {
    m.mode.Rank() <= Supervisor.Rank() && IsDelegated(Csr.Read(m.csr, MEDELEG), ExceptionCode(e))
  }

  /** The machine timer is never delegated. */
  predicate InterruptToSupervisor(m: Hart, i: Interrupt) {
    m.mode.Rank() <= Supervisor.Rank() && IsDelegated(Csr.Read(m.csr, MIDELEG), InterruptCode(i))
    && InterruptCode(i) != InterruptCode(MachineTimer)
  }

  function TrapBase(m: Hart, tvec: CsrAddress): bv64 { ClearLowBit(Csr.Read(m.csr, tvec)) }

  /** The exception pc is taken to be four bytes back. */
  function TakeException(m: Hart, e: Exception): (Hart, Outcome<Trap>) {
    var epc, cause := Sub(m.pc, 4), ExceptionCause(e);
    if ExceptionToSupervisor(m, e) then (EnterSupervisor(m, epc, cause, TrapBase(m, STVEC)), Ok(TrapKind(e)))
    else
      var (m', r) := EnterMachine(m, epc, cause, TrapBase(m, MTVEC));
      (m', if r.Ok? then Ok(TrapKind(e)) else Panic)
  }

  function VectoredBase(m: Hart, tvec: CsrAddress, code: bv6): bv64 {
    Add(TrapBase(m, tvec), VectorOffset(ReadBit(m.csr, tvec, 0), code))
  }

  function TakeInterrupt(m: Hart, i: Interrupt): (Hart, Outcome<()>) {
    var awake, code := m.(idle := false), InterruptCode(i);
    var cause := InterruptCause(code);
    if InterruptToSupervisor(m, i) then
      (EnterSupervisor(awake, m.pc, cause, VectoredBase(m, STVEC, code)), Ok(()))
    else EnterMachine(awake, m.pc, cause, VectoredBase(m, MTVEC, code))
  }

  // ---------------------------------------------------------------------------
  // The status stacks

  /** The fields of mstatus that traps and returns move. */
  datatype StatusBits = StatusBits(sie: bv64, spie: bv64, spp: bv64, mie: bv64, mpie: bv64, mpp: bv64)

  function StatusOf(c: Csrs): StatusBits {
    StatusBits(ReadBit(c, MSTATUS, 1), ReadBit(c, MSTATUS, 5), ReadBit(c, MSTATUS, 8),
      ReadBit(c, MSTATUS, 3), ReadBit(c, MSTATUS, 7), ReadBits(c, MSTATUS, 11, 13))
  }

  const NO_CSRS: set<CsrAddress> := {}

  /** All bits of mstatus but those listed, and all other CSRs but those listed, are as before. */
  ghost predicate OnlyStatus(before: Csrs, after: Csrs, bits: set<bv6>, others: set<CsrAddress>) {
    && (forall k: bv6 | k !in bits :: ReadBit(after, MSTATUS, k) == ReadBit(before, MSTATUS, k))
    && (forall a: CsrAddress | a != MSTATUS && a !in others :: after[a] == before[a])
  }

  lemma OnlyStatusTrans(c: Csrs, c1: Csrs, c2: Csrs, b1: set<bv6>, b2: set<bv6>,
      o1: set<CsrAddress>, o2: set<CsrAddress>)
    requires OnlyStatus(c, c1, b1, o1) && OnlyStatus(c1, c2, b2, o2)
    ensures OnlyStatus(c, c2, b1 + b2, o1 + o2)
  {
    hide ReadBit;
  }

  predicate IsFlag(k: bv6) { k < 11 || k >= 13 }

  lemma MstatusWritable(c: Csrs, k: bv6)
    ensures Covers(WriteMask(c, MSTATUS), Bit(k))
  {
    hide Bit, Covers, And;
    CoversSelf(Bit(k));
  }

  lemma ReadBitIsBit(c: Csrs, a: CsrAddress, k: bv6)
    ensures ReadBit(c, a, k) == 0 || ReadBit(c, a, k) == 1
  {
    hide Csr.Read, And, Bit;
  }

  /** A flag write sets that flag and nothing else. */
  lemma FlagWrite(c: Csrs, k: bv6, v: bv64)
    requires IsFlag(k) && (v == 0 || v == 1)
    ensures ReadBit(WriteBit(c, MSTATUS, k, v), MSTATUS, k) == v
    ensures OnlyStatus(c, WriteBit(c, MSTATUS, k, v), {k}, {})
    ensures ReadBits(WriteBit(c, MSTATUS, k, v), MSTATUS, 11, 13) == ReadBits(c, MSTATUS, 11, 13)
  {
    hide ReadBit, WriteBit, ReadBits, Covers, WriteMask, Bit;
    MstatusWritable(c, k);
    BitIsReadBack(c, MSTATUS, k, v);
    BitWriteMissesField(c, MSTATUS, k, v, 11, 13);
    forall j: bv6 | j != k
      ensures ReadBit(WriteBit(c, MSTATUS, k, v), MSTATUS, j) == ReadBit(c, MSTATUS, j)
    {
      OtherBitIsKept(c, MSTATUS, k, v, j);
    }
    BitWriteKeepsOthers(c, k, v);
  }

  lemma BitWriteKeepsOthers(c: Csrs, k: bv6, v: bv64)
    ensures forall a: CsrAddress | a != MSTATUS :: WriteBit(c, MSTATUS, k, v)[a] == c[a]
  {
    hide Csr.Read, Or, Clear, Bit;
  }

  lemma MppFits(v: bv64)
    requires v == 0 || v == 1 || v == 3
    ensures Fits(v, 11, 13)
  {
  }

  lemma MppField(c: Csrs)
    ensures Covers(WriteMask(c, MSTATUS), Field(11, 13))
  {
    hide Field, Covers, And;
    CoversSelf(Field(11, 13));
  }

  /** A write of MPP sets it and nothing else. */
  lemma MppWrite(c: Csrs, v: bv64)
    requires v == 0 || v == 1 || v == 3
    ensures ReadBits(WriteBits(c, MSTATUS, 11, 13, v), MSTATUS, 11, 13) == v
    ensures OnlyStatus(c, WriteBits(c, MSTATUS, 11, 13, v), {11, 12}, {})
  {
    hide ReadBit, WriteBits, ReadBits, Covers, WriteMask, Field, Fits;
    MppFits(v);
    MppField(c);
    FieldIsReadBack(c, MSTATUS, 11, 13, v);
    forall j: bv6 | j !in {11, 12}
      ensures ReadBit(WriteBits(c, MSTATUS, 11, 13, v), MSTATUS, j) == ReadBit(c, MSTATUS, j)
    {
      Outside11(j);
      FieldWriteMissesBit(c, MSTATUS, 11, 13, v, j);
    }
    FieldWriteKeepsOthers(c, v);
  }

  lemma Outside11(j: bv6)
    requires j != 11 && j != 12
    ensures IsFlag(j)
  {
  }

  lemma FieldWriteKeepsOthers(c: Csrs, v: bv64)
    ensures forall a: CsrAddress | a != MSTATUS :: WriteBits(c, MSTATUS, 11, 13, v)[a] == c[a]
  {
    hide Csr.Read, Insert;
  }

  lemma SstatusFlags()
    ensures Covers(SSTATUS_WRITABLE, Bit(1)) && Covers(SSTATUS_WRITABLE, Bit(5)) && Covers(SSTATUS_WRITABLE, Bit(8))
  {
  }

  /** The supervisor stack, written on mstatus itself. */
  lemma PushSupervisorOnMstatus(c: Csrs, from: Mode)
    ensures var c1 := WriteBit(c, MSTATUS, 5, ReadBit(c, MSTATUS, 1));
            PushSupervisor(c, from)
            == WriteBit(WriteBit(c1, MSTATUS, 1, 0), MSTATUS, 8, if from == User then 0 else 1)
  {
    hide ReadBit, WriteBit, Covers, Bit;
    SstatusFlags();
    SstatusReadsMstatus(c, 1);
    var v, p: bv64 := ReadBit(c, MSTATUS, 1), if from == User then 0 else 1;
    var c1 := WriteBit(c, MSTATUS, 5, v);
    var c2 := WriteBit(c1, MSTATUS, 1, 0);
    SstatusWritesMstatus(c, 5, v);
    SstatusWritesMstatus(c1, 1, 0);
    SstatusWritesMstatus(c2, 8, p);
  }

  /** The supervisor's entry touches SIE, SPIE and SPP and no other bit of mstatus or other CSR. */
  lemma PushSupervisorStatus(c: Csrs, from: Mode)
    ensures StatusOf(PushSupervisor(c, from))
            == StatusOf(c).(sie := 0, spie := ReadBit(c, MSTATUS, 1), spp := if from == User then 0 else 1)
    ensures OnlyStatus(c, PushSupervisor(c, from), {1, 5, 8}, {})
  {
    hide ReadBit, WriteBit, ReadBits, OnlyStatus, PushSupervisor;
    PushSupervisorOnMstatus(c, from);
    ReadBitIsBit(c, MSTATUS, 1);
    var v, p: bv64 := ReadBit(c, MSTATUS, 1), if from == User then 0 else 1;
    var c1 := WriteBit(c, MSTATUS, 5, v);
    var c2 := WriteBit(c1, MSTATUS, 1, 0);
    var c3 := WriteBit(c2, MSTATUS, 8, p);
    FlagWrite(c, 5, v);
    FlagWrite(c1, 1, 0);
    FlagWrite(c2, 8, p);
    OnlyStatusTrans(c, c1, c2, {5}, {1}, {}, {});
    OnlyStatusTrans(c, c2, c3, {5} + {1}, {8}, {} + {}, {});
    assert {5 as bv6} + {1} + {8} == {1, 5, 8} && NO_CSRS + NO_CSRS + NO_CSRS == NO_CSRS;
    FlagsOf(c, c1, 5);
    FlagsOf(c1, c2, 1);
    FlagsOf(c2, c3, 8);
  }

  /** The flags other than `k`, read off `OnlyStatus`. */
  lemma FlagsOf(c: Csrs, c': Csrs, k: bv6)
    requires OnlyStatus(c, c', {k}, {})
    ensures forall j: bv6 | j != k :: ReadBit(c', MSTATUS, j) == ReadBit(c, MSTATUS, j)
  {
    hide ReadBit;
  }

  /** The machine's entry touches MIE and MPIE (and then MPP) and nothing else. */
  lemma PushMachineStatus(c: Csrs)
    ensures StatusOf(PushMachine(c)) == StatusOf(c).(mie := 0, mpie := ReadBit(c, MSTATUS, 3))
    ensures OnlyStatus(c, PushMachine(c), {3, 7}, {})
  {
    hide ReadBit, WriteBit, ReadBits, OnlyStatus;
    ReadBitIsBit(c, MSTATUS, 3);
    var v := ReadBit(c, MSTATUS, 3);
    var c1 := WriteBit(c, MSTATUS, 7, v);
    var c2 := WriteBit(c1, MSTATUS, 3, 0);
    FlagWrite(c, 7, v);
    FlagWrite(c1, 3, 0);
    OnlyStatusTrans(c, c1, c2, {7}, {3}, {}, {});
    assert {7 as bv6} + {3} == {3, 7} && NO_CSRS + NO_CSRS == NO_CSRS;
    FlagsOf(c, c1, 7);
    FlagsOf(c1, c2, 3);
  }

  lemma MppStatus(c: Csrs, v: bv64)
    requires v == 0 || v == 1 || v == 3
    ensures StatusOf(WriteBits(c, MSTATUS, 11, 13, v)) == StatusOf(c).(mpp := v)
  {
    hide ReadBit, WriteBits, ReadBits;
    MppWrite(c, v);
  }
}
