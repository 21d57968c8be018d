/** Taking a trap, in the order in which the source updates the processor. */
module TrapHandling {
  import opened Types
  import opened Words
  import opened Csr
  import opened CsrState
  import opened Executor
  import opened Traps
  import opened Cpu

  /** The exception pc, the cause and the trap value, and then the status stack. */
  method RecordSupervisorTrap(state: State, epc: bv64, cause: bv64)
    requires state.Valid()
    modifies state.csrs
    ensures state.Value() == RecordSupervisor(old(state.Value()), epc, cause)
  {
    hide Csr.Write, ClearLowBit;
    state.Write(SEPC, ClearLowBit(epc));
    state.Write(SCAUSE, cause);
    state.Write(STVAL, 0);
  }

  method PushSupervisorStack(state: State, from: Mode)
    requires state.Valid()
    modifies state.csrs
    ensures state.Value() == PushSupervisor(old(state.Value()), from)
  {
    hide Csr.ReadBit, Csr.WriteBit;
    var sie := state.ReadBit(SSTATUS, 1);
    state.WriteBit(SSTATUS, 5, sie);
    state.WriteBit(SSTATUS, 1, 0);
    if from == User {
      state.WriteBit(SSTATUS, 8, 0);
    } else {
      state.WriteBit(SSTATUS, 8, 1);
    }
  }

  /** Handle the trap in supervisor mode. */
  method EnterSupervisorMode(cpu: Cpu, epc: bv64, cause: bv64, target: bv64)
    requires cpu.Valid()
    modifies cpu`mode, cpu`prevMode, cpu`pc, cpu.state.csrs
    ensures cpu.View() == EnterSupervisor(old(cpu.View()), epc, cause, target)
  {
    hide RecordSupervisor, PushSupervisor;
    cpu.prevMode := cpu.mode;
    cpu.mode := Supervisor;
    cpu.pc := target;
    RecordSupervisorTrap(cpu.state, epc, cause);
    PushSupervisorStack(cpu.state, cpu.prevMode);
  }

  method RecordMachineTrap(state: State, epc: bv64, cause: bv64)
    requires state.Valid()
    modifies state.csrs
    ensures state.Value() == RecordMachine(old(state.Value()), epc, cause)
  {
    hide Csr.Write, ClearLowBit;
    state.Write(MEPC, ClearLowBit(epc));
    state.Write(MCAUSE, cause);
    state.Write(MTVAL, 0);
  }

  method PushMachineStack(state: State)
    requires state.Valid()
    modifies state.csrs
    ensures state.Value() == PushMachine(old(state.Value()))
  {
    hide Csr.ReadBit, Csr.WriteBit;
    var mie := state.ReadBit(MSTATUS, 3);
    state.WriteBit(MSTATUS, 7, mie);
    state.WriteBit(MSTATUS, 3, 0);
  }

  /** Handle the trap in machine mode. An invalid previous mode panics. */
  method EnterMachineMode(cpu: Cpu, epc: bv64, cause: bv64, target: bv64) returns (r: Outcome<()>)
    requires cpu.Valid()
    modifies cpu`mode, cpu`prevMode, cpu`pc, cpu.state.csrs
    ensures (cpu.View(), r) == EnterMachine(old(cpu.View()), epc, cause, target)
  {
    hide RecordMode, RecordMachine, PushMachine;
    cpu.prevMode := cpu.mode;
    cpu.mode := Machine;
    cpu.pc := target;
    RecordMachineTrap(cpu.state, epc, cause);
    PushMachineStack(cpu.state);
    r := RecordPreviousMode(cpu.state, cpu.prevMode);
  }

  method RecordPreviousMode(state: State, from: Mode) returns (r: Outcome<()>)
    requires state.Valid()
    modifies state.csrs
    ensures (state.Value(), r) == RecordMode(old(state.Value()), from)
  {
    hide Csr.WriteBits;
    match from {
      case User => state.WriteBits(MSTATUS, 11, 13, 0);
      case Supervisor => state.WriteBits(MSTATUS, 11, 13, 1);
      case Machine => state.WriteBits(MSTATUS, 11, 13, 3);
      case Debug => return Panic;
    }
    r := Ok(());
  }

  method Base(cpu: Cpu, tvec: CsrAddress) returns (target: bv64)
    requires cpu.Valid()
    ensures target == TrapBase(cpu.View(), tvec)
  {
    hide Csr.Read, ClearLowBit;
    var base := cpu.state.Read(tvec);
    target := ClearLowBit(base);
  }

  method IsExceptionDelegated(cpu: Cpu, e: Exception) returns (b: bool)
    requires cpu.Valid()
    ensures b == ExceptionToSupervisor(cpu.View(), e)
  {
    hide Csr.Read, IsDelegated, ExceptionCode;
    var medeleg := cpu.state.Read(MEDELEG);
    b := cpu.mode.Rank() <= Supervisor.Rank() && IsDelegated(medeleg, ExceptionCode(e));
  }

  method IsInterruptDelegated(cpu: Cpu, i: Interrupt) returns (b: bool)
    requires cpu.Valid()
    ensures b == InterruptToSupervisor(cpu.View(), i)
  {
    hide Csr.Read, IsDelegated, InterruptCode;
    var mideleg := cpu.state.Read(MIDELEG);
    b := cpu.mode.Rank() <= Supervisor.Rank() && IsDelegated(mideleg, InterruptCode(i))
         && InterruptCode(i) != InterruptCode(MachineTimer);
  }

  /** Update the CSRs and the program counter depending on an exception. */
  method TakeExceptionTrap(cpu: Cpu, e: Exception) returns (r: Outcome<Trap>)
    requires cpu.Valid()
    modifies cpu`mode, cpu`prevMode, cpu`pc, cpu.state.csrs
    ensures (cpu.View(), r) == TakeException(old(cpu.View()), e)
  {
    hide ExceptionToSupervisor, TrapBase, Sub, EnterSupervisor, EnterMachine, ExceptionCause, TrapKind;
    var exceptionPc := Sub(cpu.pc, 4);
    var cause := ExceptionCause(e);
    var delegated := IsExceptionDelegated(cpu, e);
    if delegated {
      var stvec := Base(cpu, STVEC);
      EnterSupervisorMode(cpu, exceptionPc, cause, stvec);
    } else {
      var mtvec := Base(cpu, MTVEC);
      var done := EnterMachineMode(cpu, exceptionPc, cause, mtvec);
      if !done.Ok? {
        return Panic;
      }
    }
    r := Ok(TrapKind(e));
  }

  /** The trap vector: the base, or in vectored mode the base and four bytes for each cause. */
  method Vector(cpu: Cpu, tvec: CsrAddress, cause: bv6) returns (target: bv64)
    requires cpu.Valid()
    ensures target == VectoredBase(cpu.View(), tvec, cause)
  {
    hide Csr.ReadBit, TrapBase, VectorOffset, Add;
    var vectored := cpu.state.ReadBit(tvec, 0);
    var base := Base(cpu, tvec);
    target := Add(base, VectorOffset(vectored, cause));
  }

  /** Update the CSRs and the program counter depending on an interrupt. */
  method TakeInterruptTrap(cpu: Cpu, i: Interrupt) returns (r: Outcome<()>)
    requires cpu.Valid()
    modifies cpu`idle, cpu`mode, cpu`prevMode, cpu`pc, cpu.state.csrs
    ensures (cpu.View(), r) == TakeInterrupt(old(cpu.View()), i)
  {
    hide InterruptToSupervisor, VectoredBase, EnterSupervisor, EnterMachine, InterruptCode, InterruptCause;
    var code := InterruptCode(i);
    var cause := InterruptCause(code);
    var delegated := IsInterruptDelegated(cpu, i);
    if delegated {
      var stvec := Vector(cpu, STVEC, code);
      cpu.idle := false;
      EnterSupervisorMode(cpu, cpu.pc, cause, stvec);
      r := Ok(());
    } else {
      var mtvec := Vector(cpu, MTVEC, code);
      cpu.idle := false;
      r := EnterMachineMode(cpu, cpu.pc, cause, mtvec);
    }
  }
}
