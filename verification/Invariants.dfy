/** What holds in every run of the emulator. */
module Invariants {
  import opened Types
  import opened Words
  import opened Csr
  import opened CsrWindows
  import opened HartState
  import opened Encoding
  import opened Executor
  import opened Instruction
  import opened Traps
  import opened TrapLaws
  import opened Interrupts
  import opened EmulatorStep
  import opened Frames
  import ExceptionPc

  // ---------------------------------------------------------------------------
  // x0 and the paging cache

  /** Register x0 is zero, and the cached translation mode and root agree with SATP. */
  predicate WellFormed(m: Hart) { m.x[0] == 0 && PagingAgrees(m) }

  /** What the paging cache depends on. */
  predicate SamePaging(m: Hart, m': Hart) {
    m'.csr[SATP] == m.csr[SATP] && m'.paging == m.paging && m'.pageTable == m.pageTable
  }

  lemma PagingDependsOnSatp(m: Hart, m': Hart)
    requires SamePaging(m, m') && PagingAgrees(m)
    ensures PagingAgrees(m')
  {
    hide PageTableAt, Extract, Shr;
  }

  lemma UpdateAgrees(m: Hart)
    ensures PagingAgrees(UpdatePaging(m))
  {
    hide PageTableAt, Extract, Shr;
  }

  /** The agreement spelled out: `enablePaging` iff SATP[63:60] is 8, and the root is SATP[43:0] pages. */
  lemma AgreementMeans(m: Hart)
    ensures PagingAgrees(m) <==>
            && (m.paging <==> ReadBitsFrom(m.csr, SATP, 60) == 8)
            && m.pageTable == ReadBits(m.csr, SATP, 0, 44) * PAGE_SIZE
  {
    hide ReadBits, ReadBitsFrom;
  }

  lemma WriteElsewhere(c: Csrs, a: CsrAddress, v: bv64, r: CsrAddress)
    requires r != Home(a)
    ensures Csr.Write(c, a, v)[r] == c[r]
  {
    hide And, Merge;
  }

  /** All six CSR instructions keep the cache in step with SATP. */
  lemma CsrKeeps(m: Hart, f3: bv64, rd: bv5, a: CsrAddress, operand: bv64)
    requires WellFormed(m)
    ensures WellFormed(ExecCsr(m, f3, rd, a, operand).0)
  {
    hide Csr.Read, Csr.Write, CsrValue, PagingAgrees, UpdatePaging, SetX;
    var t := Csr.Read(m.csr, a);
    var c := Csr.Write(m.csr, a, CsrValue(f3, t, operand));
    var m1 := SetX(m.(csr := c), rd, t);
    SetXQuiet(m.(csr := c), rd, t);
    if a == SATP {
      UpdateAgrees(m1);
      UpdateKeepsX(m1);
    } else {
      WriteElsewhere(m.csr, a, CsrValue(f3, t, operand), SATP);
      PagingDependsOnSatp(m, m1);
    }
  }

  lemma UpdateKeepsX(m: Hart)
    ensures UpdatePaging(m).x == m.x
  {
  }

  lemma SretKeeps(m: Hart)
    requires WellFormed(m)
    ensures WellFormed(Sret(m))
  {
    hide StatusOf, OnlyStatus, PagingAgrees, PopSupervisor, ReadBit;
    SretStatus(m);
    KeptBy(m.csr, Sret(m).csr, {1, 5, 8}, {}, SATP);
    PagingDependsOnSatp(m, Sret(m));
  }

  lemma MretKeeps(m: Hart)
    requires WellFormed(m)
    ensures WellFormed(Mret(m))
  {
    hide StatusOf, OnlyStatus, PagingAgrees, PopMachine, ReadBits;
    MretStatus(m);
    KeptBy(m.csr, Mret(m).csr, {3, 7, 11, 12}, {}, SATP);
    PagingDependsOnSatp(m, Mret(m));
  }

  lemma QuietKeeps(m: Hart, m': Hart)
    requires WellFormed(m) && Spared(m, m')
    ensures WellFormed(m')
  {
    hide PagingAgrees;
    PagingDependsOnSatp(m, m');
  }

  lemma StatusOpKeeps(m: Hart, w: bv64, len: bv64)
    requires WellFormed(m) && IsStatusOp(w)
    ensures WellFormed(Execute(m, w, len).0)
  {
    hide Opcode, Funct3, Funct7, Rd, Rs1, Rs2, CsrField, CsrOperand, ExecCsr, Sret, Mret, WellFormed;
    CsrKeeps(m, Funct3(w), Rd(w), CsrField(w), CsrOperand(m, Funct3(w), Rs1(w)));
    SretKeeps(m);
    MretKeeps(m);
  }

  lemma InstructionKeeps(m: Hart)
    requires WellFormed(m)
    ensures WellFormed(StepInstruction(m).0)
  {
    hide Fetch, Compressed.Quadrant, Execute, Compressed.ExecCompressed, IsStatusOp, WellFormed, Advance;
    if RunsStatusOp(m) {
      AdvanceIsQuiet(m, 4);
      QuietKeeps(m, Advance(m, 4));
      StatusOpKeeps(Advance(m, 4), Fetch(m, Word).value, 4);
    } else {
      StepQuiet(m);
      QuietKeeps(m, StepInstruction(m).0);
    }
  }

  /** A change that leaves the registers, SATP and the cache alone. */
  lemma Unrelated(m: Hart, m': Hart)
    requires WellFormed(m) && m'.x == m.x && SamePaging(m, m')
    ensures WellFormed(m')
  {
    hide PagingAgrees;
    PagingDependsOnSatp(m, m');
  }

  lemma TickKeeps(m: Hart)
    requires WellFormed(m)
    ensures WellFormed(Tick(m))
  {
    hide Tick, Clear, HasBit, SoftwarePending, Add, PagingAgrees;
    TickMovesOnlyTime(m);
    Unrelated(m, Tick(m));
  }

  lemma CheckKeeps(m: Hart)
    requires WellFormed(m) && CheckPending(m).Ok?
    ensures WellFormed(CheckPending(m).value.0)
  {
    hide CheckPending, Masked, FirstRaised, Or, Clear, Bit, WellFormed;
    if Masked(m) {
      MaskedTakesNothing(m);
    } else {
      PendingIsConserved(m);
      Unrelated(m, CheckPending(m).value.0);
    }
  }

  lemma EntryKeeps(m: Hart, epc: bv64, cause: bv64, target: bv64)
    requires WellFormed(m)
    ensures WellFormed(EnterSupervisor(m, epc, cause, target))
    ensures m.mode != Debug ==> WellFormed(EnterMachine(m, epc, cause, target).0)
  {
    hide EnterSupervisor, EnterMachine, StatusOf, OnlyStatus, ClearLowBit, WellFormed;
    SupervisorEntry(m, epc, cause, target);
    KeptBy(m.csr, EnterSupervisor(m, epc, cause, target).csr, {1, 5, 8}, S_RECORD, SATP);
    Unrelated(m, EnterSupervisor(m, epc, cause, target));
    if m.mode != Debug {
      MachineEntry(m, epc, cause, target);
      KeptBy(m.csr, EnterMachine(m, epc, cause, target).0.csr, {3, 7, 11, 12}, M_RECORD, SATP);
      Unrelated(m, EnterMachine(m, epc, cause, target).0);
    }
  }

  lemma ExceptionKeeps(m: Hart, e: Exception)
    requires WellFormed(m) && TakeException(m, e).1.Ok?
    ensures WellFormed(TakeException(m, e).0)
  {
    hide EnterSupervisor, EnterMachine, WellFormed, IsDelegated, TrapBase, Sub, ExceptionCause;
    TrapPanicsIffDebug(m, e, MachineTimer);
    EntryKeeps(m, Sub(m.pc, 4), ExceptionCause(e), TrapBase(m, STVEC));
    EntryKeeps(m, Sub(m.pc, 4), ExceptionCause(e), TrapBase(m, MTVEC));
  }

  lemma InterruptKeeps(m: Hart, i: Interrupt)
    requires WellFormed(m) && TakeInterrupt(m, i).1.Ok?
    ensures WellFormed(TakeInterrupt(m, i).0)
  {
    hide EnterSupervisor, EnterMachine, WellFormed, IsDelegated, VectoredBase, InterruptCode, InterruptCause;
    TrapPanicsIffDebug(m, Breakpoint, i);
    var awake, code := m.(idle := false), InterruptCode(i);
    Unrelated(m, awake);
    EntryKeeps(awake, m.pc, InterruptCause(code), VectoredBase(m, STVEC, code));
    EntryKeeps(awake, m.pc, InterruptCause(code), VectoredBase(m, MTVEC, code));
  }

  lemma DispatchKeeps(m: Hart)
    requires WellFormed(m) && Dispatch(m).Ok?
    ensures WellFormed(Dispatch(m).value)
  {
    hide WellFormed, CheckPending, TakeInterrupt;
    CheckKeeps(m);
    var (checked, taken) := CheckPending(m).value;
    if taken.Some? {
      InterruptKeeps(checked, taken.value);
    }
  }

  lemma PerformKeeps(m: Hart)
    requires WellFormed(m) && Perform(m).1 != Panicked
    ensures WellFormed(Perform(m).0)
  {
    hide WellFormed, StepInstruction, TakeException;
    InstructionKeeps(m);
    var (done, r) := StepInstruction(m);
    if r.Err? {
      ExceptionKeeps(done, r.error);
    }
  }

  /** Every iteration that does not panic keeps x0 zero and the cache in step with SATP. */
  lemma StepKeeps(m: Hart, env: Env)
    requires WellFormed(m) && Step(m, env).1 != Panicked
    ensures WellFormed(Step(m, env).0)
  {
    hide WellFormed, Tick, Dispatch, Perform;
    Unrelated(m, Provide(m, env));
    TickKeeps(Provide(m, env));
    DispatchKeeps(Tick(Provide(m, env)));
    PerformKeeps(Dispatch(Tick(Provide(m, env))).value);
  }

  /** In every run: through CSR instructions, traps, returns and device ticks, x0 stays zero and the
      paging cache agrees with SATP. */
  lemma {:induction false} RunKeeps(m: Hart, envs: seq<Env>)
    requires WellFormed(m) && Run(m, envs).1 != Panicked
    ensures WellFormed(Run(m, envs).0)
    decreases |envs|
  {
    hide WellFormed, Step;
    if envs == [] {
    } else {
      StepKeeps(m, envs[0]);
      var (m', s) := Step(m, envs[0]);
      if s == Running {
        RunKeeps(m', envs[1..]);
      }
    }
  }

  /** Any state with the CSRs, the cache and the x0 of a new processor is well formed, whatever program
      counter, memory and disk it was then given. */
  lemma ResetIsWellFormed(m: Hart)
    requires m.csr == Csr.Reset() && !m.paging && m.pageTable == 0 && m.x[0] == 0
    ensures WellFormed(m)
  {
    hide PageTableAt, Extract, Shr;
    NoSatp();
  }

  lemma NoSatp()
    ensures PageTableAt(Extract(0, 0, 44)) == 0 && Shr(0, 60) != 8
  {
  }

  // ---------------------------------------------------------------------------
  // Masked interrupts

  lemma MaskReadsStatus(m: Hart, m': Hart)
    requires m'.mode == m.mode && m'.csr[MSTATUS] == m.csr[MSTATUS]
    ensures Masked(m') == Masked(m)
  {
    hide And, Bit, Extract;
  }

  lemma TickKeepsMask(m: Hart, env: Env)
    ensures Masked(Tick(Provide(m, env))) == Masked(m)
  {
    hide Tick, Clear, HasBit, SoftwarePending, Add, Masked;
    TickMovesOnlyTime(Provide(m, env));
    MaskReadsStatus(m, Tick(Provide(m, env)));
  }

  lemma PerformKeepsMask(m: Hart)
    requires Masked(m) && !RunsStatusOp(m) && Perform(m).1 != Panicked
    ensures Masked(Perform(m).0)
  {
    hide Masked, StepInstruction, TakeException, RunsStatusOp;
    var (done, r) := StepInstruction(m);
    StepQuiet(m);
    MaskReadsStatus(m, done);
    if r.Err? {
      TrapPanicsIffDebug(done, r.error, MachineTimer);
      TrapsMask(done, r.error, MachineTimer);
    }
  }

  /** Once masked, an iteration takes no interrupt and touches no device but the timer, and interrupts
      stay masked unless it runs a CSR instruction, mret or sret. */
  lemma MaskedIteration(m: Hart, env: Env)
    requires Masked(m)
    ensures var ticked := Tick(Provide(m, env));
            && Dispatch(ticked) == Ok(ticked) && Step(m, env) == Perform(ticked)
            && (!RunsStatusOp(ticked) && Step(m, env).1 != Panicked ==> Masked(Step(m, env).0))
  {
    hide Masked, Tick, CheckPending, Perform, RunsStatusOp;
    var ticked := Tick(Provide(m, env));
    TickKeepsMask(m, env);
    MaskedTakesNothing(ticked);
    if !RunsStatusOp(ticked) && Step(m, env).1 != Panicked {
      PerformKeepsMask(ticked);
    }
  }

  /** No iteration of the run executes a CSR instruction, mret or sret. */
  predicate NoStatusOps(m: Hart, envs: seq<Env>)
    decreases |envs|
  {
    envs == [] ||
    (!RunsStatusOp(Tick(Provide(m, envs[0]))) &&
     var (m', s) := Step(m, envs[0]);
     s == Running ==> NoStatusOps(m', envs[1..]))
  }

  /** From a trap on, until software unmasks them, interrupts stay masked over the whole run. */
  lemma {:induction false} MaskedRun(m: Hart, envs: seq<Env>)
    requires Masked(m) && NoStatusOps(m, envs) && Run(m, envs).1 != Panicked
    ensures Masked(Run(m, envs).0)
    decreases |envs|
  {
    hide Masked, Step, RunsStatusOp, Tick, Dispatch, Perform;
    if envs == [] {
    } else {
      MaskedIteration(m, envs[0]);
      var (m', s) := Step(m, envs[0]);
      if s == Running {
        MaskedRun(m', envs[1..]);
      }
    }
  }

  /** In every iteration of every run, MTIP equals the comparison when pending interrupts are checked,
      whatever earlier traps and writes did to it. */
  lemma {:induction false} TimerInSyncAtEveryCheck(m: Hart, envs: seq<Env>, n: nat)
    requires n < |envs|
    ensures var checked := Tick(Provide(Run(m, envs[..n]).0, envs[n]));
            HasBit(checked.csr[MIP], MTIP_BIT) <==> Reached(checked.bus.clint.mtime, checked.bus.clint.mtimecmp)
  {
    hide Run, Tick, HasBit, Reached;
    TickSyncsTimer(Provide(Run(m, envs[..n]).0, envs[n]));
  }

  // ---------------------------------------------------------------------------
  // Pending interrupts survive

  predicate IsPosted(c: Csrs, i: Interrupt) { HasBit(c[MIP], Bit(InterruptCode(i))) }

  lemma JoinKeepsBit(w: bv64, b: bv64, d: bv64)
    requires HasBit(w, d)
    ensures HasBit(Or(w, b), d)
  {
  }

  lemma ClearKeepsBit(w: bv64, b: bv64, d: bv64)
    requires HasBit(w, d) && Apart(b, d)
    ensures HasBit(Clear(w, b), d)
  {
  }

  /** The timer clears no pending bit but its own. */
  lemma TickKeepsPosted(m: Hart, i: Interrupt)
    requires IsPosted(m.csr, i) && i != MachineTimer
    ensures IsPosted(Tick(m).csr, i)
  {
    hide SetPending, SyncTimer, Or, Clear, HasBit, Add, SoftwarePending, Bit, Apart;
    var c, d := m.bus.clint, Bit(InterruptCode(i));
    PendingIsMip(m.csr, MSIP_BIT);
    var csr1 := PostSoftware(m.csr, c.msip);
    JoinKeepsBit(m.csr[MIP], MSIP_BIT, d);
    SyncTimerSyncs(csr1, c.mtimecmp, Add(c.mtime, 1));
    JoinKeepsBit(csr1[MIP], MTIP_BIT, d);
    TimerBit();
    BitsApart(7, InterruptCode(i));
    ClearKeepsBit(csr1[MIP], MTIP_BIT, d);
  }

  lemma CheckKeepsPosted(m: Hart, i: Interrupt)
    requires IsPosted(m.csr, i) && CheckPending(m).Ok? && CheckPending(m).value.1 != Some(i)
    ensures IsPosted(CheckPending(m).value.0.csr, i)
  {
    hide CheckPending, Masked, FirstRaised, Or, Clear, Bit, HasBit, Apart;
    if Masked(m) {
      MaskedTakesNothing(m);
    } else {
      PendingIsConserved(m);
      var d := Bit(InterruptCode(i));
      JoinKeepsBit(m.csr[MIP], SEIP_BIT, d);
      var taken := CheckPending(m).value.1;
      if taken.Some? {
        CodesDiffer(taken.value, i);
        BitsApart(InterruptCode(taken.value), InterruptCode(i));
        ClearKeepsBit(PolledCsrs(m)[MIP], Bit(InterruptCode(taken.value)), d);
      }
    }
  }

  lemma CodesDiffer(i: Interrupt, j: Interrupt)
    requires i != j
    ensures InterruptCode(i) != InterruptCode(j)
  {
  }

  lemma TrapsKeepMip(m: Hart, e: Exception, i: Interrupt)
    requires m.mode != Debug
    ensures TakeException(m, e).0.csr[MIP] == m.csr[MIP] && TakeInterrupt(m, i).0.csr[MIP] == m.csr[MIP]
  {
    hide StatusOf, EnterSupervisor, EnterMachine, VectoredBase, TrapBase, IsDelegated, OnlyStatus, Sub, ExceptionCause;
    hide InterruptCause, InterruptCode, ClearLowBit;
    EntryKeepsMip(m, Sub(m.pc, 4), ExceptionCause(e), TrapBase(m, STVEC));
    EntryKeepsMip(m, Sub(m.pc, 4), ExceptionCause(e), TrapBase(m, MTVEC));
    var awake, code := m.(idle := false), InterruptCode(i);
    EntryKeepsMip(awake, m.pc, InterruptCause(code), VectoredBase(m, STVEC, code));
    EntryKeepsMip(awake, m.pc, InterruptCause(code), VectoredBase(m, MTVEC, code));
  }

  lemma EntryKeepsMip(m: Hart, epc: bv64, cause: bv64, target: bv64)
    requires m.mode != Debug
    ensures EnterSupervisor(m, epc, cause, target).csr[MIP] == m.csr[MIP]
    ensures EnterMachine(m, epc, cause, target).0.csr[MIP] == m.csr[MIP]
  {
    hide EnterSupervisor, EnterMachine, StatusOf, OnlyStatus, ClearLowBit;
    SupervisorEntry(m, epc, cause, target);
    MachineEntry(m, epc, cause, target);
    KeptBy(m.csr, EnterSupervisor(m, epc, cause, target).csr, {1, 5, 8}, S_RECORD, MIP);
    KeptBy(m.csr, EnterMachine(m, epc, cause, target).0.csr, {3, 7, 11, 12}, M_RECORD, MIP);
  }

  /** A pending interrupt other than the timer's is still pending after an iteration that does not
      take it and runs no CSR instruction or return. */
  lemma PendingSurvives(m: Hart, env: Env, i: Interrupt)
    requires IsPosted(m.csr, i) && i != MachineTimer && Step(m, env).1 != Panicked
    ensures var ticked := Tick(Provide(m, env));
            && CheckPending(ticked).Ok? && Dispatch(ticked).Ok?
            && (CheckPending(ticked).value.1 != Some(i) && !RunsStatusOp(Dispatch(ticked).value)
                ==> IsPosted(Step(m, env).0.csr, i))
  {
    hide IsPosted, Tick, CheckPending, TakeInterrupt, TakeException, StepInstruction, RunsStatusOp;
    var ticked := Tick(Provide(m, env));
    TickKeepsPosted(Provide(m, env), i);
    var (checked, taken) := CheckPending(ticked).value;
    var ready := Dispatch(ticked).value;
    if taken != Some(i) && !RunsStatusOp(ready) {
      CheckKeepsPosted(ticked, i);
      if taken.Some? {
        TrapPanicsIffDebug(checked, Breakpoint, taken.value);
        TrapsKeepMip(checked, Breakpoint, taken.value);
      }
      SamePosted(checked.csr, ready.csr, i);
      StepQuiet(ready);
      var (done, r) := StepInstruction(ready);
      SamePosted(ready.csr, done.csr, i);
      if r.Err? {
        TrapPanicsIffDebug(done, r.error, MachineTimer);
        TrapsKeepMip(done, r.error, MachineTimer);
        SamePosted(done.csr, TakeException(done, r.error).0.csr, i);
      }
    }
  }

  lemma SamePosted(c: Csrs, c': Csrs, i: Interrupt)
    requires c'[MIP] == c[MIP]
    ensures IsPosted(c', i) == IsPosted(c, i)
  {
  }

  // ---------------------------------------------------------------------------
  // Debug mode

  /** The instruction about to run is an mret that finds the reserved value 2 in MPP. */
  predicate RunsReservedMret(m: Hart) {
    RunsWord(m) && IsMret(Fetch(m, Word).value) && ReadBits(m.csr, MSTATUS, 11, 13) == 2
  }

  predicate IsMret(w: bv64) { IsReturn(w) && Funct7(w) == 0x18 }

  lemma TwoBits(w: bv64)
    ensures Extract(w, 11, 13) <= 3
  {
  }

  /** Of the values MPP can hold, 2 alone stands for debug mode. */
  lemma DebugIsTwo(c: Csrs)
    ensures ModeOf(ReadBits(c, MSTATUS, 11, 13)) == Debug <==> ReadBits(c, MSTATUS, 11, 13) == 2
  {
    hide Csr.Read, Extract;
    TwoBits(Csr.Read(c, MSTATUS));
    UpToThree(Extract(Csr.Read(c, MSTATUS), 11, 13));
  }

  lemma UpToThree(v: bv64)
    requires v <= 3
    ensures v == 0 || v == 1 || v == 2 || v == 3
  {
  }

  lemma StatusOpMode(m: Hart, w: bv64, len: bv64)
    requires IsStatusOp(w) && m.mode != Debug
    ensures Execute(m, w, len).0.mode == Debug <==> IsMret(w) && ReadBits(m.csr, MSTATUS, 11, 13) == 2
  {
    hide Opcode, Funct3, Funct7, Rd, Rs1, Rs2, CsrField, CsrOperand, ExecCsr, ExecPrivileged, ReadBits;
    CsrKeepsMode(m, Funct3(w), Rd(w), CsrField(w), CsrOperand(m, Funct3(w), Rs1(w)));
    if IsReturn(w) {
      ReturnMode(m, Rs2(w), Funct7(w));
    }
  }

  lemma ReturnMode(m: Hart, rs2: bv5, f7: bv64)
    requires rs2 == 2 && (f7 == 0x8 || f7 == 0x18)
    ensures ExecPrivileged(m, rs2, f7).0.mode == Debug
            <==> f7 == 0x18 && ReadBits(m.csr, MSTATUS, 11, 13) == 2
  {
    hide Csr.Read, ReadBit, ReadBits, ModeOf, PopSupervisor, PopMachine;
    DebugIsTwo(m.csr);
  }

  lemma CsrKeepsMode(m: Hart, f3: bv64, rd: bv5, a: CsrAddress, operand: bv64)
    ensures ExecCsr(m, f3, rd, a, operand).0.mode == m.mode
  {
    hide CsrValue, Csr.Read, Csr.Write, PageTableAt, ReadBits, ReadBitsFrom;
  }

  /** An instruction enters debug mode if and only if it is an mret that finds 2 in MPP. */
  lemma DebugEntry(m: Hart)
    requires m.mode != Debug
    ensures StepInstruction(m).0.mode == Debug <==> RunsReservedMret(m)
  {
    hide Fetch, Compressed.Quadrant, Execute, Compressed.ExecCompressed, IsStatusOp, IsReturn, Funct7, Add, ReadBits;
    if RunsStatusOp(m) {
      StatusOpMode(Advance(m, 4), Fetch(m, Word).value, 4);
    } else {
      StepQuiet(m);
      if RunsWord(m) {
        MretIsStatusOp(Fetch(m, Word).value);
      }
    }
  }

  lemma MretIsStatusOp(w: bv64)
    ensures IsMret(w) ==> IsStatusOp(w)
  {
    hide Opcode, Funct3, Funct7, Rs2;
  }

  /** The iteration runs an mret that finds 2 in MPP. */
  predicate IteratesReservedMret(m: Hart, env: Env) {
    var ready := Dispatch(Tick(Provide(m, env)));
    ready.Ok? && RunsReservedMret(ready.value)
  }

  lemma DispatchMode(m: Hart)
    requires m.mode != Debug
    ensures Dispatch(m).Ok? <==> CheckPending(m).Ok?
    ensures Dispatch(m).Ok? ==> Dispatch(m).value.mode != Debug
  {
    hide CheckPending, TakeInterrupt, StatusOf;
    if CheckPending(m).Ok? {
      CheckKeepsMode(m);
      var (checked, taken) := CheckPending(m).value;
      if taken.Some? {
        TrapsMask(checked, Breakpoint, taken.value);
      }
    }
  }

  lemma CheckKeepsMode(m: Hart)
    requires CheckPending(m).Ok?
    ensures CheckPending(m).value.0.mode == m.mode
  {
    hide CheckPending, Masked, FirstRaised, PolledCsrs;
    if Masked(m) {
      MaskedTakesNothing(m);
    } else {
      PendingIsConserved(m);
    }
  }

  /** Outside debug mode an iteration enters it only by such an mret, and it panics only if the disk access or
      the instruction does: no trap panics. */
  lemma DebugIteration(m: Hart, env: Env)
    requires m.mode != Debug
    ensures Step(m, env).0.mode == Debug ==> IteratesReservedMret(m, env)
    ensures var ticked := Tick(Provide(m, env));
            Step(m, env).1 == Panicked
            <==> CheckPending(ticked).IsFailure()
                 || (Dispatch(ticked).Ok? && StepInstruction(Dispatch(ticked).value).1.Panic?)
  {
    hide Tick, CheckPending, Dispatch, StepInstruction, TakeException, RunsReservedMret, StatusOf;
    var ticked := Tick(Provide(m, env));
    TickMovesOnlyTimeMode(m, env);
    DispatchMode(ticked);
    if Dispatch(ticked).Ok? {
      var ready := Dispatch(ticked).value;
      var (done, r) := StepInstruction(ready);
      DebugEntry(ready);
      if r.Err? {
        ErrorKeepsMode(ready);
        TrapsMask(done, r.error, MachineTimer);
      }
    }
  }

  lemma TickMovesOnlyTimeMode(m: Hart, env: Env)
    ensures Tick(Provide(m, env)).mode == m.mode
  {
    hide ClintTick, Add;
  }

  lemma ErrorKeepsMode(m: Hart)
    requires StepInstruction(m).1.Err?
    ensures StepInstruction(m).0.mode == m.mode
  {
    hide StepInstruction, ExceptionPc.IsFetchedWord, Add;
    ExceptionPc.PcAtException(m);
  }

  /** No iteration of the run executes an mret that finds 2 in MPP. */
  predicate NoReservedMret(m: Hart, envs: seq<Env>)
    decreases |envs|
  {
    envs == [] ||
    (!IteratesReservedMret(m, envs[0]) &&
     var (m', s) := Step(m, envs[0]);
     s == Running ==> NoReservedMret(m', envs[1..]))
  }

  /** A run that starts outside debug mode and in which no mret finds 2 in MPP never enters it. */
  lemma {:induction false} RunWithoutDebug(m: Hart, envs: seq<Env>)
    requires m.mode != Debug && NoReservedMret(m, envs)
    ensures Run(m, envs).0.mode != Debug
    decreases |envs|
  {
    hide Step, IteratesReservedMret, Tick, Dispatch, CheckPending, StepInstruction;
    if envs == [] {
    } else {
      DebugIteration(m, envs[0]);
      var (m', s) := Step(m, envs[0]);
      if s == Running {
        RunWithoutDebug(m', envs[1..]);
      }
    }
  }
}
