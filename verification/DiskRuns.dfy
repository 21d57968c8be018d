/** Disk requests over whole runs of the emulator. */
module DiskRuns {
  import opened Types
  import opened Words
  import opened Csr
  import opened Devices
  import opened HartState
  import opened Encoding
  import opened Executor
  import opened Compressed
  import opened Instruction
  import opened Disk
  import opened DiskLaws
  import opened Traps
  import opened TrapLaws
  import opened Interrupts
  import opened EmulatorStep
  import opened Frames

  /** The check of pending interrupts serves a disk request: interrupts are enabled, the UART is silent
      and the driver has notified the device. */
  predicate ServesDisk(m: Hart) {
    !Masked(m) && !m.bus.env.uart && m.bus.virtio.queueNotify != NO_NOTIFY
  }

  function Served(id: Addr, serves: bool): Addr { if serves then At(id, 1) else id }

  lemma PollCounts(m: Hart)
    requires PollDevices(m).Ok?
    ensures PollDevices(m).value.bus.virtio.id
            == Served(m.bus.virtio.id, !m.bus.env.uart && m.bus.virtio.queueNotify != NO_NOTIFY)
  {
    hide DiskAccess, SetPending, UsedIndex, UsedAddr, DescAddr, InMemory, RingIndex, At;
    var b := m.bus.(virtio := m.bus.virtio.(queueNotify := NO_NOTIFY));
    if DiskAccess(b).Ok? {
      AccessCounts(b);
    }
  }

  lemma ChooseKeepsBus(m: Hart)
    ensures Choose(m).0.bus == m.bus
  {
    hide Csr.Read, ClearPending, And, HasBit;
  }

  lemma CheckCounts(m: Hart)
    requires CheckPending(m).Ok?
    ensures CheckPending(m).value.0.bus.virtio.id == Served(m.bus.virtio.id, ServesDisk(m))
  {
    hide Gated, Masked, PollDevices, Choose, Served;
    GatedIffMasked(m);
    if Masked(m) {
      NothingServed(m.bus.virtio.id);
    } else {
      PollCounts(m);
      ChooseKeepsBus(PollDevices(m).value);
    }
  }

  lemma NothingServed(id: Addr)
    ensures Served(id, false) == id
  {
  }

  lemma EntriesKeepBus(m: Hart, epc: bv64, cause: bv64, target: bv64)
    ensures EnterSupervisor(m, epc, cause, target).bus == m.bus == EnterMachine(m, epc, cause, target).0.bus
  {
    hide PushSupervisor, PushMachine, RecordMode, RecordSupervisor, RecordMachine;
  }

  lemma TrapsKeepBus(m: Hart, e: Exception, i: Interrupt)
    ensures TakeException(m, e).0.bus == m.bus == TakeInterrupt(m, i).0.bus
  {
    hide EnterSupervisor, EnterMachine, IsDelegated, TrapBase, VectoredBase, Sub, ExceptionCause, InterruptCause;
    hide InterruptCode, ExceptionCode;
    EntriesKeepBus(m, Sub(m.pc, 4), ExceptionCause(e), TrapBase(m, STVEC));
    EntriesKeepBus(m, Sub(m.pc, 4), ExceptionCause(e), TrapBase(m, MTVEC));
    var awake, code := m.(idle := false), InterruptCode(i);
    EntriesKeepBus(awake, m.pc, InterruptCause(code), VectoredBase(m, STVEC, code));
    EntriesKeepBus(awake, m.pc, InterruptCause(code), VectoredBase(m, MTVEC, code));
  }

  lemma StatusOpKeepsBus(m: Hart, w: bv64, len: bv64)
    requires IsStatusOp(w)
    ensures Execute(m, w, len).0.bus == m.bus
  {
    hide Opcode, Funct3, Funct7, Rd, Rs1, Rs2, CsrField, CsrOperand, ExecCsr, Csr.Read, ReadBit;
    hide PopSupervisor, PopMachine, ReadBits, ModeOf;
    CsrKeepsBus(m, Funct3(w), Rd(w), CsrField(w), CsrOperand(m, Funct3(w), Rs1(w)));
  }

  lemma CsrKeepsBus(m: Hart, f3: bv64, rd: bv5, a: CsrAddress, operand: bv64)
    ensures ExecCsr(m, f3, rd, a, operand).0.bus == m.bus
  {
    hide CsrValue, Csr.Read, Csr.Write, PageTableAt, ReadBits, ReadBitsFrom;
  }

  /** No instruction changes the count of requests. */
  lemma InstructionKeepsCount(m: Hart)
    ensures StepInstruction(m).0.bus.virtio.id == m.bus.virtio.id
  {
    hide Fetch, Quadrant, Execute, ExecCompressed, IsStatusOp, Add;
    if RunsStatusOp(m) {
      StatusOpKeepsBus(Advance(m, 4), Fetch(m, Word).value, 4);
    } else {
      StepQuiet(m);
    }
  }

  lemma DispatchCounts(m: Hart)
    requires Dispatch(m).Ok?
    ensures Dispatch(m).value.bus.virtio.id == Served(m.bus.virtio.id, ServesDisk(m))
  {
    hide CheckPending, TakeInterrupt, ServesDisk, Served;
    CheckCounts(m);
    var (checked, taken) := CheckPending(m).value;
    if taken.Some? {
      TrapsKeepBus(checked, Breakpoint, taken.value);
    }
  }

  lemma PerformKeepsCount(m: Hart)
    ensures Perform(m).0.bus.virtio.id == m.bus.virtio.id
  {
    hide StepInstruction, TakeException;
    InstructionKeepsCount(m);
    var (done, r) := StepInstruction(m);
    if r.Err? {
      TrapsKeepBus(done, r.error, MachineTimer);
    }
  }

  lemma TickKeepsVirtio(m: Hart, env: Env)
    ensures Tick(Provide(m, env)).bus.virtio == m.bus.virtio
  {
    hide ClintTick, Add;
  }

  /** An iteration moves the id by one if it serves a request, and not at all otherwise. */
  lemma IterationCounts(m: Hart, env: Env)
    requires Step(m, env).1 != Panicked
    ensures Step(m, env).0.bus.virtio.id == Served(m.bus.virtio.id, ServesDisk(Tick(Provide(m, env))))
  {
    hide Tick, Dispatch, Perform, ServesDisk, Served;
    var ticked := Tick(Provide(m, env));
    TickKeepsVirtio(m, env);
    DispatchCounts(ticked);
    PerformKeepsCount(Dispatch(ticked).value);
  }

  /** The number of disk requests served in a run. */
  function Requests(m: Hart, envs: seq<Env>): nat
    decreases |envs|
  {
    if envs == [] then 0
    else
      var (m', s) := Step(m, envs[0]);
      (if ServesDisk(Tick(Provide(m, envs[0]))) then 1 else 0) + if s == Running then Requests(m', envs[1..]) else 0
  }

  lemma CountOn(id: Addr, serves: bool, rest: nat)
    ensures (Served(id, serves) + rest) % TWO64 == (id + (if serves then 1 else 0) + rest) % TWO64
  {
  }

  /** In every run the id has advanced by the number of requests served, wrapped at 64 bits. */
  lemma {:induction false} RunCountsRequests(m: Hart, envs: seq<Env>)
    requires Run(m, envs).1 != Panicked
    ensures Run(m, envs).0.bus.virtio.id == (m.bus.virtio.id + Requests(m, envs)) % TWO64
    decreases |envs|
  {
    hide Step, Tick, ServesDisk, Served;
    if envs == [] {
    } else {
      var serves := ServesDisk(Tick(Provide(m, envs[0])));
      var (m', s) := Step(m, envs[0]);
      IterationCounts(m, envs[0]);
      if s == Running {
        RunCountsRequests(m', envs[1..]);
        CountOn(m.bus.virtio.id, serves, Requests(m', envs[1..]));
      } else {
        CountOn(m.bus.virtio.id, serves, 0);
      }
    }
  }
}
