/** Which instruction the exception program counter names. */
module ExceptionPc {
  import opened Types
  import opened Words
  import opened HartState
  import opened Csr
  import opened Executor
  import opened Compressed
  import opened Instruction
  import opened Traps
  import opened TrapLaws
  import opened PreciseExceptions

  /** A 32-bit instruction was fetched, so the pc was moved over it before it executed. */
  predicate IsFetchedWord(m: Hart) {
    Fetch(m, HalfWord).Ok? && Quadrant(Fetch(m, HalfWord).value) == 3 && Fetch(m, Word).Ok?
  }

  lemma BackPastTwo(pc: bv64)
    ensures ClearLowBit(Sub(Add(pc, 2), 4)) != ClearLowBit(pc)
  {
  }

  lemma BackPastNone(pc: bv64)
    ensures ClearLowBit(Sub(pc, 4)) != ClearLowBit(pc)
  {
  }

  lemma RaisedAfter(m: Hart, done: Hart)
    requires Untouched(m, done)
    ensures done.pc == m.pc && done.mode == m.mode
  {
    hide Without;
  }

  /** Where the pc stands when an instruction raises an exception. */
  lemma PcAtException(m: Hart)
    requires StepInstruction(m).1.Err?
    ensures var pc := StepInstruction(m).0.pc;
            if IsFetchedWord(m) then pc == Add(m.pc, 4) else pc == m.pc || pc == Add(m.pc, 2)
    ensures StepInstruction(m).0.mode == m.mode
  {
    hide Fetch, Execute, ExecCompressed, Quadrant, Add, Untouched;
    var c := Fetch(m, HalfWord);
    if c.Ok? {
      if Quadrant(c.value) != 3 {
        if c.value != 0 {
          CompressedPrecise(Advance(m, 2), c.value);
          RaisedAfter(Advance(m, 2), StepInstruction(m).0);
        }
      } else if Fetch(m, Word).Ok? {
        ExecutePrecise(Advance(m, 4), Fetch(m, Word).value, 4);
        RaisedAfter(Advance(m, 4), StepInstruction(m).0);
      }
    }
  }

  /** The exception program counter that a trap records: sepc or mepc, by the mode it enters. */
  function RecordedPc(trapped: Hart): bv64 {
    if trapped.mode == Supervisor then trapped.csr[SEPC] else trapped.csr[MEPC]
  }

  lemma RecordedPcIs(m: Hart, e: Exception)
    requires m.mode != Debug
    ensures RecordedPc(TakeException(m, e).0) == ClearLowBit(Sub(m.pc, 4))
  {
    hide Sub, ClearLowBit, TrapBase, IsDelegated, EnterSupervisor, EnterMachine, StatusOf, OnlyStatus, ExceptionCause;
    var epc, cause := Sub(m.pc, 4), ExceptionCause(e);
    SupervisorEntry(m, epc, cause, TrapBase(m, STVEC));
    MachineEntry(m, epc, cause, TrapBase(m, MTVEC));
  }

  /** The recorded pc is the faulting instruction exactly when a 32-bit instruction had been fetched:
      for compressed instructions and failed fetches it names an earlier address. */
  lemma ExceptionPcNamesInstruction(m: Hart)
    requires StepInstruction(m).1.Err? && m.mode != Debug
    ensures var (done, r) := StepInstruction(m);
            RecordedPc(TakeException(done, r.error).0) == ClearLowBit(m.pc) <==> IsFetchedWord(m)
  {
    hide StepInstruction, IsFetchedWord, Add, Sub, ClearLowBit, TakeException, RecordedPc;
    var (done, r) := StepInstruction(m);
    PcAtException(m);
    BackFour(m.pc);
    BackPastTwo(m.pc);
    BackPastNone(m.pc);
    RecordedPcIs(done, r.error);
  }
}
