/** What traps and returns do to the privilege mode and the status stacks, and how nested traps unwind. */
module TrapLaws {
  import opened Types
  import opened Words
  import opened Csr
  import opened CsrWindows
  import opened HartState
  import opened Executor
  import opened Traps

  const S_RECORD: set<CsrAddress> := {SEPC, SCAUSE, STVAL}
  const M_RECORD: set<CsrAddress> := {MEPC, MCAUSE, MTVAL}

  lemma StatusReadsMstatus(c: Csrs, c': Csrs, others: set<CsrAddress>)
    requires c'[MSTATUS] == c[MSTATUS]
    requires forall a: CsrAddress | a !in others :: c'[a] == c[a]
    ensures StatusOf(c') == StatusOf(c) && OnlyStatus(c, c', {}, others)
  {
    hide And, Bit, Extract;
  }

  lemma SupervisorRecord(c: Csrs, epc: bv64, cause: bv64)
    ensures var c' := RecordSupervisor(c, epc, cause);
            && StatusOf(c') == StatusOf(c) && OnlyStatus(c, c', {}, S_RECORD)
            && c'[SEPC] == ClearLowBit(epc) && c'[SCAUSE] == cause
  {
    hide ClearLowBit, StatusOf, OnlyStatus, And, Merge;
    StatusReadsMstatus(c, RecordSupervisor(c, epc, cause), S_RECORD);
  }

  lemma MachineRecord(c: Csrs, epc: bv64, cause: bv64)
    ensures var c' := RecordMachine(c, epc, cause);
            && StatusOf(c') == StatusOf(c) && OnlyStatus(c, c', {}, M_RECORD)
            && c'[MEPC] == ClearLowBit(epc) && c'[MCAUSE] == cause
  {
    hide ClearLowBit, StatusOf, OnlyStatus, And, Merge;
    StatusReadsMstatus(c, RecordMachine(c, epc, cause), M_RECORD);
  }

  /** A trap into supervisor mode: SIE moves to SPIE, SPP records the mode, and of mstatus and the
      other CSRs nothing changes but SIE, SPIE, SPP, sepc, scause and stval. */
  lemma SupervisorEntry(m: Hart, epc: bv64, cause: bv64, target: bv64)
    ensures var m' := EnterSupervisor(m, epc, cause, target);
            && m'.mode == Supervisor && m'.prevMode == m.mode && m'.pc == target
            && StatusOf(m'.csr) == StatusOf(m.csr).(sie := 0, spie := StatusOf(m.csr).sie,
                                                    spp := if m.mode == User then 0 else 1)
            && OnlyStatus(m.csr, m'.csr, {1, 5, 8}, S_RECORD)
            && m'.csr[SEPC] == ClearLowBit(epc) && m'.csr[SCAUSE] == cause
            && m' == m.(csr := m'.csr, mode := Supervisor, prevMode := m.mode, pc := target)
  {
    hide ReadBit, ReadBits, PushSupervisor, RecordSupervisor, ClearLowBit;
    var c := RecordSupervisor(m.csr, epc, cause);
    SupervisorRecord(m.csr, epc, cause);
    PushSupervisorStatus(c, m.mode);
    OnlyStatusTrans(m.csr, c, PushSupervisor(c, m.mode), {}, {1, 5, 8}, S_RECORD, {});
    assert {} + {1 as bv6, 5, 8} == {1, 5, 8} && S_RECORD + {} == S_RECORD;
  }

  /** A trap into machine mode: MIE moves to MPIE, MPP records the mode, and of mstatus and the other
      CSRs nothing changes but MIE, MPIE, MPP, mepc, mcause and mtval. */
  lemma MachineEntry(m: Hart, epc: bv64, cause: bv64, target: bv64)
    requires m.mode != Debug
    ensures var (m', r) := EnterMachine(m, epc, cause, target);
            && r == Ok(())
            && m'.mode == Machine && m'.prevMode == m.mode && m'.pc == target
            && StatusOf(m'.csr) == StatusOf(m.csr).(mie := 0, mpie := StatusOf(m.csr).mie, mpp := Mpp(m.mode).value)
            && OnlyStatus(m.csr, m'.csr, {3, 7, 11, 12}, M_RECORD)
            && m'.csr[MEPC] == ClearLowBit(epc) && m'.csr[MCAUSE] == cause
            && m' == m.(csr := m'.csr, mode := Machine, prevMode := m.mode, pc := target)
  {
    hide ReadBit, ReadBits, PushMachine, RecordMachine, ClearLowBit, WriteBits;
    var c := RecordMachine(m.csr, epc, cause);
    var c1, v := PushMachine(c), Mpp(m.mode).value;
    MachineRecord(m.csr, epc, cause);
    PushMachineStatus(c);
    MppStatus(c1, v);
    MppWrite(c1, v);
    OnlyStatusTrans(m.csr, c, c1, {}, {3, 7}, M_RECORD, {});
    OnlyStatusTrans(m.csr, c1, WriteBits(c1, MSTATUS, 11, 13, v), {} + {3, 7}, {11, 12}, M_RECORD + {}, {});
    assert {} + {3 as bv6, 7} + {11, 12} == {3, 7, 11, 12} && M_RECORD + {} + {} == M_RECORD;
  }

  lemma EntryFromDebugPanics(m: Hart, epc: bv64, cause: bv64, target: bv64)
    ensures EnterMachine(m, epc, cause, target).1 == if m.mode == Debug then Panic else Ok(())
  {
    hide PushMachine, RecordMachine, WriteBits;
  }

  // ---------------------------------------------------------------------------
  // Returns

  /** sret: SPIE moves back to SIE, the mode is SPP, and the pc is sepc. */
  lemma SretStatus(m: Hart)
    ensures var m' := Sret(m);
            && m'.pc == m.csr[SEPC] && m'.mode == (if StatusOf(m.csr).spp == 0 then User else Supervisor)
            && StatusOf(m'.csr) == StatusOf(m.csr).(sie := StatusOf(m.csr).spie, spie := 1, spp := 0)
            && OnlyStatus(m.csr, m'.csr, {1, 5, 8}, {})
  {
    hide ReadBit, WriteBit, ReadBits, OnlyStatus, Covers, Bit;
    SstatusFlags();
    SstatusReadsMstatus(m.csr, 8);
    SstatusReadsMstatus(m.csr, 5);
    ReadBitIsBit(m.csr, MSTATUS, 5);
    var v := ReadBit(m.csr, MSTATUS, 5);
    var c1 := WriteBit(m.csr, MSTATUS, 1, v);
    var c2 := WriteBit(c1, MSTATUS, 5, 1);
    var c3 := WriteBit(c2, MSTATUS, 8, 0);
    SstatusWritesMstatus(m.csr, 1, v);
    SstatusWritesMstatus(c1, 5, 1);
    SstatusWritesMstatus(c2, 8, 0);
    FlagWrite(m.csr, 1, v);
    FlagWrite(c1, 5, 1);
    FlagWrite(c2, 8, 0);
    OnlyStatusTrans(m.csr, c1, c2, {1}, {5}, {}, {});
    OnlyStatusTrans(m.csr, c2, c3, {1} + {5}, {8}, {} + {}, {});
    assert {1 as bv6} + {5} + {8} == {1, 5, 8} && NO_CSRS + NO_CSRS + NO_CSRS == NO_CSRS;
    FlagsOf(m.csr, c1, 1);
    FlagsOf(c1, c2, 5);
    FlagsOf(c2, c3, 8);
  }

  /** mret: MPIE moves back to MIE, the mode is MPP, and the pc is mepc. */
  lemma MretStatus(m: Hart)
    ensures var m' := Mret(m);
            && m'.pc == m.csr[MEPC] && m'.mode == ModeOf(StatusOf(m.csr).mpp)
            && StatusOf(m'.csr) == StatusOf(m.csr).(mie := StatusOf(m.csr).mpie, mpie := 1, mpp := 0)
            && OnlyStatus(m.csr, m'.csr, {3, 7, 11, 12}, {})
  {
    hide ReadBit, WriteBit, ReadBits, WriteBits, OnlyStatus;
    ReadBitIsBit(m.csr, MSTATUS, 7);
    var v := ReadBit(m.csr, MSTATUS, 7);
    var c1 := WriteBit(m.csr, MSTATUS, 3, v);
    var c2 := WriteBit(c1, MSTATUS, 7, 1);
    var c3 := WriteBits(c2, MSTATUS, 11, 13, 0);
    FlagWrite(m.csr, 3, v);
    FlagWrite(c1, 7, 1);
    MppWrite(c2, 0);
    MppStatus(c2, 0);
    OnlyStatusTrans(m.csr, c1, c2, {3}, {7}, {}, {});
    OnlyStatusTrans(m.csr, c2, c3, {3} + {7}, {11, 12}, {} + {}, {});
    assert {3 as bv6} + {7} + {11, 12} == {3, 7, 11, 12} && NO_CSRS + NO_CSRS + NO_CSRS == NO_CSRS;
    FlagsOf(m.csr, c1, 3);
    FlagsOf(c1, c2, 7);
  }

  // ---------------------------------------------------------------------------
  // Nested traps unwind

  /** What a machine-mode handler must leave alone between its entry and its mret. */
  predicate MachineHandler(entered: Hart, leaving: Hart) {
    var s, t := StatusOf(entered.csr), StatusOf(leaving.csr);
    leaving.mode == Machine && leaving.csr[MEPC] == entered.csr[MEPC] && leaving.csr[SEPC] == entered.csr[SEPC]
    && t == s.(mie := t.mie)
  }

  /** What a supervisor-mode handler must leave alone: its own stack, and MIE. */
  predicate SupervisorHandler(before: Hart, after: Hart) {
    var s, t := StatusOf(before.csr), StatusOf(after.csr);
    before.mode == Supervisor == after.mode && after.csr[SEPC] == before.csr[SEPC]
    && t == s.(sie := t.sie, mpie := t.mpie, mpp := t.mpp)
  }

  /** An interrupt into machine mode, its handler and mret restore the mode, the even pc, MIE and the
      whole supervisor stack. */
  lemma MachineExcursion(m: Hart, i: Interrupt, leaving: Hart)
    requires m.mode != Debug && !InterruptToSupervisor(m, i)
    requires MachineHandler(TakeInterrupt(m, i).0, leaving)
    ensures TakeInterrupt(m, i).1 == Ok(())
    ensures var m' := Mret(leaving);
            && m'.mode == m.mode && m'.pc == ClearLowBit(m.pc)
            && StatusOf(m'.csr) == StatusOf(m.csr).(mpie := 1, mpp := 0)
            && m'.csr[SEPC] == m.csr[SEPC]
  {
    hide StatusOf, EnterMachine, VectoredBase, InterruptToSupervisor, OnlyStatus, Mret;
    var code := InterruptCode(i);
    MachineEntry(m.(idle := false), m.pc, InterruptCause(code), VectoredBase(m, MTVEC, code));
    MretStatus(leaving);
    KeptBy(m.csr, TakeInterrupt(m, i).0.csr, {3, 7, 11, 12}, M_RECORD, SEPC);
    KeptBy(leaving.csr, Mret(leaving).csr, {3, 7, 11, 12}, {}, SEPC);
  }

  lemma KeptBy(c: Csrs, c': Csrs, bits: set<bv6>, others: set<CsrAddress>, a: CsrAddress)
    requires OnlyStatus(c, c', bits, others) && a != MSTATUS && a !in others
    ensures c'[a] == c[a]
  {
    hide ReadBit;
  }

  /** What happens while a supervisor handler runs: its own work, or an interrupt into machine mode
      that is handled and returned from. */
  datatype Episode = Works(to: Hart) | Interrupted(irq: Interrupt, leaving: Hart)

  function Next(e: Episode): Hart {
    match e
    case Works(to) => to
    case Interrupted(_, leaving) => Mret(leaving)
  }

  predicate Obeys(m: Hart, e: Episode) {
    match e
    case Works(to) => SupervisorHandler(m, to)
    case Interrupted(i, leaving) =>
      m.mode == Supervisor && !InterruptToSupervisor(m, i) && MachineHandler(TakeInterrupt(m, i).0, leaving)
  }

  predicate ObeysAll(m: Hart, es: seq<Episode>)
    decreases |es|
  {
    es == [] || (Obeys(m, es[0]) && ObeysAll(Next(es[0]), es[1..]))
  }

  function After(m: Hart, es: seq<Episode>): Hart
    decreases |es|
  {
    if es == [] then m else After(Next(es[0]), es[1..])
  }

  lemma EpisodeKeepsStack(m: Hart, e: Episode)
    requires m.mode == Supervisor && Obeys(m, e)
    ensures SupervisorHandler(m, Next(e))
  {
    hide StatusOf, TakeInterrupt, InterruptToSupervisor, Mret, MachineHandler;
    if e.Interrupted? {
      MachineExcursion(m, e.irq, e.leaving);
    }
  }

  lemma {:induction false} EpisodesKeepStack(m: Hart, es: seq<Episode>)
    requires m.mode == Supervisor && ObeysAll(m, es)
    ensures SupervisorHandler(m, After(m, es))
    decreases |es|
  {
    hide StatusOf, Obeys, Next;
    if es == [] {
    } else {
      EpisodeKeepsStack(m, es[0]);
      EpisodesKeepStack(Next(es[0]), es[1..]);
    }
  }

  /** An interrupt into supervisor mode, then any number of interrupts into machine mode during its
      handler, each with its mret, and a final sret: mode, even pc, SIE and MIE are restored. */
  lemma NestedTrapsUnwind(m: Hart, i: Interrupt, es: seq<Episode>)
    requires InterruptToSupervisor(m, i)
    requires ObeysAll(TakeInterrupt(m, i).0, es)
    ensures TakeInterrupt(m, i).1 == Ok(())
    ensures var m' := Sret(After(TakeInterrupt(m, i).0, es));
            && m'.mode == m.mode && m'.pc == ClearLowBit(m.pc)
            && StatusOf(m'.csr).sie == StatusOf(m.csr).sie
            && StatusOf(m'.csr).mie == StatusOf(m.csr).mie
  {
    hide StatusOf, EnterSupervisor, VectoredBase, IsDelegated, OnlyStatus, Sret, After, ObeysAll;
    var code := InterruptCode(i);
    SupervisorEntry(m.(idle := false), m.pc, InterruptCause(code), VectoredBase(m, STVEC, code));
    var entered := TakeInterrupt(m, i).0;
    EpisodesKeepStack(entered, es);
    SretStatus(After(entered, es));
  }

  // ---------------------------------------------------------------------------
  // Traps mask interrupts

  /** Interrupts are disabled for the mode the hart is in. */
  predicate Masked(m: Hart) {
    (m.mode == Machine && StatusOf(m.csr).mie == 0) || (m.mode == Supervisor && StatusOf(m.csr).sie == 0)
  }

  /** Every trap from user, supervisor or machine mode ends with interrupts masked and never lowers
      the privilege. */
  lemma TrapsMask(m: Hart, e: Exception, i: Interrupt)
    requires m.mode != Debug
    ensures TakeException(m, e).1.Ok? && TakeInterrupt(m, i).1.Ok?
    ensures Masked(TakeException(m, e).0) && TakeException(m, e).0.mode.Rank() >= m.mode.Rank()
    ensures Masked(TakeInterrupt(m, i).0) && TakeInterrupt(m, i).0.mode.Rank() >= m.mode.Rank()
  {
    hide StatusOf, EnterSupervisor, EnterMachine, VectoredBase, TrapBase, IsDelegated, OnlyStatus, Sub, ClearLowBit;
    var epc, cause := Sub(m.pc, 4), ExceptionCause(e);
    SupervisorEntry(m, epc, cause, TrapBase(m, STVEC));
    MachineEntry(m, epc, cause, TrapBase(m, MTVEC));
    var code := InterruptCode(i);
    var awake := m.(idle := false);
    SupervisorEntry(awake, m.pc, InterruptCause(code), VectoredBase(m, STVEC, code));
    MachineEntry(awake, m.pc, InterruptCause(code), VectoredBase(m, MTVEC, code));
  }

  /** A trap panics exactly in debug mode, which only an mret with the reserved MPP reaches. */
  lemma TrapPanicsIffDebug(m: Hart, e: Exception, i: Interrupt)
    ensures TakeException(m, e).1.Panic? <==> m.mode == Debug
    ensures TakeInterrupt(m, i).1.Panic? <==> m.mode == Debug
  {
    hide EnterMachine, EnterSupervisor, VectoredBase, TrapBase, IsDelegated, Sub;
    var epc, cause := Sub(m.pc, 4), ExceptionCause(e);
    EntryFromDebugPanics(m, epc, cause, TrapBase(m, MTVEC));
    var code := InterruptCode(i);
    EntryFromDebugPanics(m.(idle := false), m.pc, InterruptCause(code), VectoredBase(m, MTVEC, code));
  }
}
