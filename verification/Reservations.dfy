/** Load-reserved and store-conditional over whole runs. */
module Reservations {
  import opened Types
  import opened Words
  import opened Csr
  import opened Devices
  import opened HartState
  import opened Encoding
  import opened Executor
  import opened Compressed
  import opened Instruction
  import opened Traps
  import opened TrapLaws
  import opened Interrupts
  import opened EmulatorStep
  import opened Frames

  /** What concerns a reservation: a successful lr, a store of the processor, or an aligned sc. */
  datatype Event = Reserves(a: bv64) | Writes(a: bv64) | Conditional(a: bv64)

  /** The latest event at the address is a load-reserved. */
  predicate IsReserved(h: seq<Event>, a: bv64)
    decreases |h|
  {
    h != [] && var last := h[|h| - 1]; if last.a == a then last.Reserves? else IsReserved(h[..|h| - 1], a)
  }

  /** The reservation set is what the history says. */
  ghost predicate Records(h: seq<Event>, reserved: seq<bv64>) {
    forall a: bv64 :: a in reserved <==> IsReserved(h, a)
  }

  function Happens(reserved: seq<bv64>, e: Option<Event>): seq<bv64> {
    match e
    case None => reserved
    case Some(Reserves(a)) => reserved + [a]
    case Some(Writes(a)) => Without(reserved, a)
    case Some(Conditional(a)) => Without(reserved, a)
  }

  function Noted(h: seq<Event>, e: Option<Event>): seq<Event> {
    match e case None => h case Some(x) => h + [x]
  }

  lemma EventIsRecorded(h: seq<Event>, reserved: seq<bv64>, e: Option<Event>)
    requires Records(h, reserved)
    ensures Records(Noted(h, e), Happens(reserved, e))
  {
    hide Without;
    if e.Some? {
      var h' := h + [e.value];
      assert h'[..|h' | - 1] == h;
      forall a: bv64
        ensures a in Happens(reserved, e) <==> IsReserved(h', a)
      {
        InWithout(reserved, e.value.a, a);
      }
    }
  }

  // ---------------------------------------------------------------------------
  // The event of an instruction

  function AmoEvent(m: Hart, f3: bv64, f5: bv64, addr: bv64, b: bv64): Option<Event> {
    var size := AmoSize(f3);
    if !IsAmo(f3, f5) || !IsNaturallyAligned(addr, size) then None
    else if f5 == 0x02 then if ReadMem(m, addr, size).Ok? then Some(Reserves(addr)) else None
    else if f5 == 0x03 then Some(Conditional(addr))
    else if RmwWords(m, size, f5, addr, b).Ok? then Some(Writes(addr)) else None
  }

  function EventOf(m: Hart, w: bv64): Option<Event> {
    var op, f3, a, b := Opcode(w), Funct3(w), GetX(m, Rs1(w)), GetX(m, Rs2(w));
    if op == 0x23 then if f3 < 4 then Some(Writes(Add(a, ImmS(w)))) else None
    else if op == 0x27 then if f3 == 2 || f3 == 3 then Some(Writes(Add(a, ImmFpStore(w)))) else None
    else if op == 0x2f then AmoEvent(m, f3, Funct5(w), a, b)
    else None
  }

  lemma WriteDrops(m: Hart, va: bv64, v: bv64, size: Size)
    ensures WriteMem(m, va, v, size).0.reserved == Without(m.reserved, va)
  {
    hide BusWrite, Translate, Phys, Without;
  }

  lemma StoreDrops(m: Hart, f3: bv64, addr: bv64, v: bv64)
    ensures ExecStore(m, f3, addr, v).0.reserved == if f3 < 4 then Without(m.reserved, addr) else m.reserved
  {
    hide WriteMem, Without;
    WriteDrops(m, addr, v, Byte);
    WriteDrops(m, addr, v, HalfWord);
    WriteDrops(m, addr, v, Word);
    WriteDrops(m, addr, v, DoubleWord);
    Small3(f3);
  }

  lemma Small3(f3: bv64)
    ensures f3 < 4 <==> f3 == 0 || f3 == 1 || f3 == 2 || f3 == 3
  {
  }

  lemma FpStoreDrops(m: Hart, f3: bv64, addr: bv64, rs2: bv5)
    ensures ExecFpStore(m, f3, addr, rs2).0.reserved
            == if f3 == 2 || f3 == 3 then Without(m.reserved, addr) else m.reserved
  {
    hide WriteMem, Without, GetF;
    WriteDrops(m, addr, m.bus.env.narrowed, Word);
    WriteDrops(m, addr, GetF(m, rs2), DoubleWord);
  }

  lemma SetXKeepsReserved(m: Hart, r: bv5, v: bv64)
    ensures SetX(m, r, v).reserved == m.reserved
  {
  }

  lemma ScDrops(m: Hart, size: Size, rd: bv5, addr: bv64, v: bv64)
    ensures ExecSc(m, size, rd, addr, v).0.reserved
            == if IsNaturallyAligned(addr, size) then Without(m.reserved, addr) else m.reserved
  {
    hide WriteMem, Without, IsNaturallyAligned, SetX;
    var m1 := m.(reserved := Without(m.reserved, addr));
    WriteDrops(m1, addr, v, size);
    WithoutTwice(m.reserved, addr);
    SetXKeepsReserved(WriteMem(m1, addr, v, size).0, rd, 0);
    SetXKeepsReserved(m1, rd, 1);
  }

  lemma RmwDrops(m: Hart, size: Size, f5: bv64, rd: bv5, addr: bv64, b: bv64)
    ensures ExecRmw(m, size, f5, rd, addr, b).0.reserved
            == if IsNaturallyAligned(addr, size) && RmwWords(m, size, f5, addr, b).Ok?
               then Without(m.reserved, addr) else m.reserved
  {
    hide WriteMem, Without, IsNaturallyAligned, SetX, RmwWords, AmoExtend;
    var words := RmwWords(m, size, f5, addr, b);
    if words.Ok? {
      var (t, v) := words.value;
      WriteDrops(m, addr, v, size);
      SetXKeepsReserved(WriteMem(m, addr, v, size).0, rd, AmoExtend(size, t));
    }
  }

  lemma LrReserves(m: Hart, size: Size, rd: bv5, addr: bv64)
    ensures ExecLr(m, size, rd, addr).0.reserved
            == if IsNaturallyAligned(addr, size) && ReadMem(m, addr, size).Ok?
               then m.reserved + [addr] else m.reserved
  {
    hide ReadMem, IsNaturallyAligned, AmoExtend;
  }

  lemma AmoEventHappens(m: Hart, f3: bv64, f5: bv64, rd: bv5, rs1: bv5, rs2: bv5)
    ensures ExecAmo(m, f3, f5, rd, rs1, rs2).0.reserved
            == Happens(m.reserved, AmoEvent(m, f3, f5, GetX(m, rs1), GetX(m, rs2)))
  {
    hide GetX, ExecLr, ExecSc, ExecRmw, IsAmo, AmoSize, IsNaturallyAligned, ReadMem, RmwWords, Without;
    var addr, b, size := GetX(m, rs1), GetX(m, rs2), AmoSize(f3);
    LrReserves(m, size, rd, addr);
    ScDrops(m, size, rd, addr, b);
    RmwDrops(m, size, f5, rd, addr, b);
  }

  lemma MemoryEvent(m: Hart, w: bv64)
    requires IsMemoryOp(Opcode(w))
    ensures ExecuteMemory(m, w).0.reserved == Happens(m.reserved, EventOf(m, w))
  {
    hide Funct3, Funct5, Opcode, Rd, Rs1, Rs2, ImmI, ImmS, ImmFpStore, Add, GetX, ExecLoad, ExecFpLoad, ExecStore;
    hide ExecFpStore, ExecAmo, AmoEvent, Happens, ExecuteMemory, EventOf;
    var op := Opcode(w);
    if op == 0x2f {
      AmoOpcodeEvent(m, w);
    } else if op == 0x23 {
      StoreOpcodeEvent(m, w);
    } else if op == 0x27 {
      FpStoreOpcodeEvent(m, w);
    } else {
      LoadOpcodeEvent(m, w);
    }
  }

  lemma AmoOpcodeEvent(m: Hart, w: bv64)
    requires Opcode(w) == 0x2f
    ensures ExecuteMemory(m, w).0.reserved == Happens(m.reserved, EventOf(m, w))
  {
    hide Funct3, Funct5, Opcode, Rd, Rs1, Rs2, ImmI, ImmS, ImmFpStore, Add, GetX, ExecAmo, AmoEvent, Happens;
    AmoEventHappens(m, Funct3(w), Funct5(w), Rd(w), Rs1(w), Rs2(w));
  }

  lemma StoreOpcodeEvent(m: Hart, w: bv64)
    requires Opcode(w) == 0x23
    ensures ExecuteMemory(m, w).0.reserved == Happens(m.reserved, EventOf(m, w))
  {
    hide ExecuteMemory, EventOf, Funct3, Opcode, Rs1, Rs2, ImmS, Add, GetX, ExecStore, Without;
    StoreForm(m, w);
    StoreDrops(m, Funct3(w), Add(GetX(m, Rs1(w)), ImmS(w)), GetX(m, Rs2(w)));
  }

  lemma StoreForm(m: Hart, w: bv64)
    requires Opcode(w) == 0x23
    ensures var f3, addr := Funct3(w), Add(GetX(m, Rs1(w)), ImmS(w));
            && ExecuteMemory(m, w) == ExecStore(m, f3, addr, GetX(m, Rs2(w)))
            && EventOf(m, w) == if f3 < 4 then Some(Writes(addr)) else None
  {
    hide Funct3, Opcode, Rd, Rs1, Rs2, ImmI, ImmS, ImmFpStore, Add, GetX, ExecStore;
  }

  lemma FpStoreOpcodeEvent(m: Hart, w: bv64)
    requires Opcode(w) == 0x27
    ensures ExecuteMemory(m, w).0.reserved == Happens(m.reserved, EventOf(m, w))
  {
    hide Funct3, Funct5, Opcode, Rd, Rs1, Rs2, ImmI, ImmS, ImmFpStore, Add, GetX, ExecFpStore, AmoEvent, Without;
    FpStoreDrops(m, Funct3(w), Add(GetX(m, Rs1(w)), ImmFpStore(w)), Rs2(w));
  }

  lemma LoadOpcodeEvent(m: Hart, w: bv64)
    requires Opcode(w) == 0x03 || Opcode(w) == 0x07
    ensures ExecuteMemory(m, w).0.reserved == Happens(m.reserved, EventOf(m, w))
  {
    hide Funct3, Opcode, Rd, Rs1, Rs2, ImmI, ImmS, ImmFpStore, Add, GetX, ExecLoad, ExecFpLoad, AmoEvent, Without;
    LoadsKeepReserved(m, Funct3(w), Rd(w), Add(GetX(m, Rs1(w)), ImmI(w)));
  }

  lemma LoadsKeepReserved(m: Hart, f3: bv64, rd: bv5, addr: bv64)
    ensures ExecLoad(m, f3, rd, addr).0.reserved == m.reserved == ExecFpLoad(m, f3, rd, addr).0.reserved
  {
    hide LoadValue, ReadMem;
  }

  lemma ArithmeticKeepsReserved(m: Hart, w: bv64, len: bv64)
    requires IsArithmeticOp(Opcode(w))
    ensures ExecuteArithmetic(m, w, len).0.reserved == m.reserved
  {
    hide Opcode, Funct3, Funct6, Funct7, Rd, Rs1, Rs2, ImmI, ImmU, Shamt5, Shamt6, Moved, GetX, IsFpArithmetic;
    hide Alu.OpImm, Alu.OpImm32, Alu.Op, Alu.Op32, Alu.Divides, Zext32, WriteBit;
  }

  lemma ControlKeepsReserved(m: Hart, w: bv64, len: bv64)
    ensures ExecuteControl(m, w, len).0.reserved == m.reserved
  {
    hide Opcode, Funct3, Rd, Rs1, Rs2, ImmI, ImmB, ImmJ, Moved, Add, GetX, SetX, Alu.Taken, ClearLowBit, ExecSystem;
    SetXKeepsReserved(m.(pc := ClearLowBit(Add(GetX(m, Rs1(w)), ImmI(w)))), Rd(w), m.pc);
    SetXKeepsReserved(m, Rd(w), m.pc);
    SystemKeepsReserved(m, w);
  }

  lemma SystemKeepsReserved(m: Hart, w: bv64)
    ensures ExecSystem(m, w).0.reserved == m.reserved
  {
    hide Opcode, Funct3, Funct7, Rd, Rs1, Rs2, EnvironmentCall, CsrField, CsrOperand, Csr.Read, ReadBit;
    hide PopSupervisor, PopMachine, ReadBits, ModeOf, ExecCsr;
    CsrKeepsReserved(m, Funct3(w), Rd(w), CsrField(w), CsrOperand(m, Funct3(w), Rs1(w)));
  }

  lemma CsrKeepsReserved(m: Hart, f3: bv64, rd: bv5, a: CsrAddress, operand: bv64)
    ensures ExecCsr(m, f3, rd, a, operand).0.reserved == m.reserved
  {
    hide CsrValue, Csr.Read, Csr.Write, PageTableAt, ReadBits, ReadBitsFrom;
  }

  /** Every instruction changes the reservation set by its event alone. */
  lemma ExecuteEvent(m: Hart, w: bv64, len: bv64)
    ensures Execute(m, w, len).0.reserved == Happens(m.reserved, EventOf(m, w))
  {
    hide Opcode, ExecuteMemory, ExecuteArithmetic, ExecuteControl, AmoEvent, Without, IsFpArithmetic;
    hide Funct3, Funct5, Rs1, Rs2, GetX, Add, ImmS, ImmFpStore;
    if IsMemoryOp(Opcode(w)) {
      MemoryEvent(m, w);
    } else if IsArithmeticOp(Opcode(w)) {
      ArithmeticKeepsReserved(m, w, len);
    } else {
      ControlKeepsReserved(m, w, len);
    }
  }

  function StepEvent(m: Hart): Option<Event> {
    var c := Fetch(m, HalfWord);
    if m.idle || !c.Ok? then None
    else if Quadrant(c.value) == 3 then
      var w := Fetch(m, Word);
      if w.Ok? then EventOf(Advance(m, 4), w.value) else None
    else if c.value == 0 || Expand(c.value).None? then None
    else EventOf(Advance(m, 2), Expand(c.value).value)
  }

  lemma StepEventHappens(m: Hart)
    ensures StepInstruction(m).0.reserved == Happens(m.reserved, StepEvent(m))
  {
    hide Fetch, Quadrant, Execute, Expand, EventOf, Happens, Add, IsRegisterJump, CRd, GetX, CFunct3;
    var c := Fetch(m, HalfWord);
    NothingHappens(m.reserved);
    if !m.idle && c.Ok? {
      if Quadrant(c.value) == 3 {
        var w := Fetch(m, Word);
        if w.Ok? {
          ExecuteEvent(Advance(m, 4), w.value, 4);
        }
      } else if c.value != 0 && Expand(c.value).Some? {
        ExecuteEvent(Advance(m, 2), Expand(c.value).value, 2);
      }
    }
  }

  lemma NothingHappens(s: seq<bv64>)
    ensures Happens(s, None) == s
  {
  }

  // ---------------------------------------------------------------------------
  // Runs

  lemma TrapsKeepReserved(m: Hart, e: Exception, i: Interrupt)
    ensures TakeException(m, e).0.reserved == m.reserved == TakeInterrupt(m, i).0.reserved
  {
    hide PushSupervisor, PushMachine, RecordMode, RecordSupervisor, RecordMachine, IsDelegated, Csr.Read, ReadBit;
    hide ClearLowBit, Add, Sub, VectorOffset, ExceptionCause, InterruptCause, InterruptCode, ExceptionCode;
  }

  lemma DispatchKeepsReserved(m: Hart)
    requires Dispatch(m).Ok?
    ensures Dispatch(m).value.reserved == m.reserved
  {
    hide CheckPending, TakeInterrupt, Masked, FirstRaised, PolledCsrs;
    if Masked(m) {
      MaskedTakesNothing(m);
    } else {
      PendingIsConserved(m);
    }
    var (checked, taken) := CheckPending(m).value;
    if taken.Some? {
      TrapsKeepReserved(checked, Breakpoint, taken.value);
    }
  }

  lemma TickKeepsReserved(m: Hart, env: Env)
    ensures Tick(Provide(m, env)).reserved == m.reserved
  {
    hide ClintTick, Add;
  }

  function IterationEvent(m: Hart, env: Env): Option<Event> {
    match Dispatch(Tick(Provide(m, env)))
    case Ok(ready) => StepEvent(ready)
    case _ => None
  }

  lemma IterationEventHappens(m: Hart, env: Env)
    ensures Step(m, env).0.reserved == Happens(m.reserved, IterationEvent(m, env))
  {
    hide Tick, Dispatch, StepInstruction, TakeException, StepEvent, Happens;
    var ticked := Tick(Provide(m, env));
    TickKeepsReserved(m, env);
    NothingHappens(m.reserved);
    if Dispatch(ticked).Ok? {
      var ready := Dispatch(ticked).value;
      DispatchKeepsReserved(ticked);
      StepEventHappens(ready);
      var (done, r) := StepInstruction(ready);
      if r.Err? {
        TrapsKeepReserved(done, r.error, MachineTimer);
      }
    }
  }

  /** The events of a run, after those of a history. */
  function History(h: seq<Event>, m: Hart, envs: seq<Env>): seq<Event>
    decreases |envs|
  {
    if envs == [] then h
    else
      var h' := Noted(h, IterationEvent(m, envs[0]));
      var (m', s) := Step(m, envs[0]);
      if s == Running then History(h', m', envs[1..]) else h'
  }

  /** In every run, an address is reserved exactly when its latest event was a load-reserved. */
  lemma {:induction false} ReservedIffLatestIsLr(h: seq<Event>, m: Hart, envs: seq<Env>)
    requires Records(h, m.reserved)
    ensures Records(History(h, m, envs), Run(m, envs).0.reserved)
    decreases |envs|
  {
    hide Step, IterationEvent, Records, Happens, Noted;
    if envs == [] {
    } else {
      var (m', s) := Step(m, envs[0]);
      IterationEventHappens(m, envs[0]);
      EventIsRecorded(h, m.reserved, IterationEvent(m, envs[0]));
      if s == Running {
        ReservedIffLatestIsLr(Noted(h, IterationEvent(m, envs[0])), m', envs[1..]);
      }
    }
  }

  // ---------------------------------------------------------------------------
  // Store-conditional

  /** An aligned sc whose address was last touched by an lr stores as a plain store does, and returns 0
      once that succeeded; any other aligned sc returns 1 and changes nothing else. */
  lemma ScSucceedsIffReserved(m: Hart, h: seq<Event>, size: Size, rd: bv5, addr: bv64, v: bv64)
    requires Records(h, m.reserved) && IsNaturallyAligned(addr, size)
    ensures !IsReserved(h, addr) ==> ExecSc(m, size, rd, addr, v) == Done(SetX(m, rd, 1))
    ensures IsReserved(h, addr) ==> ExecSc(m, size, rd, addr, v) == ThenPutX(WriteMem(m, addr, v, size), rd, 0)
  {
    hide WriteMem, Without, IsNaturallyAligned, SetX, IsReserved, ThenPutX;
    if IsReserved(h, addr) {
      DropFirst(m, addr, v, size);
    } else {
      WithoutAbsent(m.reserved, addr);
    }
  }

  lemma DropFirst(m: Hart, addr: bv64, v: bv64, size: Size)
    ensures WriteMem(m.(reserved := Without(m.reserved, addr)), addr, v, size) == WriteMem(m, addr, v, size)
  {
    hide BusWrite, Translate, Phys, Without;
    WithoutTwice(m.reserved, addr);
    TranslateIgnoresReservations(m, Without(m.reserved, addr), addr, AccessType.Load);
  }

  /** However many load-reserveds came before, after a store or an sc at the address no sc there
      succeeds until the next lr. */
  lemma {:induction false} OneGrantOnly(h: seq<Event>, e: Event, rest: seq<Event>)
    requires !e.Reserves? && forall i | 0 <= i < |rest| :: rest[i] != Reserves(e.a)
    ensures !IsReserved(h + [e] + rest, e.a)
    decreases |rest|
  {
    var all := h + [e] + rest;
    if rest == [] {
      assert all == h + [e];
    } else {
      var init := rest[..|rest| - 1];
      var last := all[|all| - 1];
      assert all[..|all| - 1] == h + [e] + init && last == rest[|rest| - 1];
      assert last.a == e.a ==> !last.Reserves? || last == Reserves(e.a);
      OneGrantOnly(h, e, init);
    }
  }

  // ---------------------------------------------------------------------------
  // Store-conditionals in runs

  /** The instruction word is an aligned sc at the address. */
  predicate IsScAt(m: Hart, w: bv64, a: bv64) {
    Opcode(w) == 0x2f && Funct5(w) == 0x03 && IsAmo(Funct3(w), Funct5(w)) && GetX(m, Rs1(w)) == a
    && IsNaturallyAligned(a, AmoSize(Funct3(w)))
  }

  lemma ConditionalIsSc(m: Hart, w: bv64, a: bv64)
    requires EventOf(m, w) == Some(Conditional(a))
    ensures IsScAt(m, w, a)
  {
    hide Opcode, Funct3, Funct5, Rs1, Rs2, GetX, Add, ImmS, ImmFpStore, IsAmo, AmoSize, IsNaturallyAligned, ReadMem;
    hide RmwWords;
  }

  /** An sc has no compressed form. */
  lemma StepConditionalIsSc(m: Hart, a: bv64)
    requires StepEvent(m) == Some(Conditional(a))
    ensures RunsWord(m) && IsScAt(Advance(m, 4), Fetch(m, Word).value, a)
  {
    hide Fetch, Quadrant, Expand, EventOf, IsScAt, Add;
    var c := Fetch(m, HalfWord).value;
    if Quadrant(c) == 3 {
      ConditionalIsSc(Advance(m, 4), Fetch(m, Word).value, a);
    } else {
      var w := Expand(c).value;
      ConditionalIsSc(Advance(m, 2), w, a);
      ExpandPlain(c);
      PlainIsNoSc(Advance(m, 2), w, a);
    }
  }

  lemma PlainIsNoSc(m: Hart, w: bv64, a: bv64)
    requires IsPlain(w)
    ensures !IsScAt(m, w, a)
  {
    hide Opcode, IsStatusOp, IsDivision, Funct3, Funct5, IsAmo, IsNaturallyAligned, GetX, Rs1;
  }

  /** An sc stores as a plain store does and returns 0, or returns 1. */
  function ScResult(m: Hart, w: bv64, a: bv64, granted: bool): Result {
    if granted then ThenPutX(WriteMem(m, a, GetX(m, Rs2(w)), AmoSize(Funct3(w))), Rd(w), 0)
    else Done(SetX(m, Rd(w), 1))
  }

  lemma ExecutesSc(m: Hart, h: seq<Event>, w: bv64, a: bv64, len: bv64)
    requires Records(h, m.reserved) && IsScAt(m, w, a)
    ensures Execute(m, w, len) == ScResult(m, w, a, IsReserved(h, a))
  {
    hide Opcode, Funct3, Funct5, Rd, Rs1, Rs2, GetX, SetX, IsAmo, AmoSize, IsNaturallyAligned, ExecSc, WriteMem;
    hide ThenPutX, IsReserved, Records;
    ScSucceedsIffReserved(m, h, AmoSize(Funct3(w)), Rd(w), a, GetX(m, Rs2(w)));
  }

  /** The instruction step of an sc, after any history. */
  lemma StepOfSc(m: Hart, h: seq<Event>, a: bv64)
    requires Records(h, m.reserved) && StepEvent(m) == Some(Conditional(a))
    ensures RunsWord(m)
    ensures var w := Fetch(m, Word).value;
            StepInstruction(m) == Report(ScResult(Advance(m, 4), w, a, IsReserved(h, a)), w)
  {
    hide Fetch, Quadrant, Execute, StepEvent, IsScAt, ScResult, IsReserved, Records, Add;
    StepConditionalIsSc(m, a);
    ExecutesSc(Advance(m, 4), h, Fetch(m, Word).value, a, 4);
  }

  /** In every run, an iteration that executes an aligned sc stores and returns 0 if the latest event of the
      run at its address was an lr, and otherwise returns 1 and changes nothing else. */
  lemma ScInRun(h: seq<Event>, m: Hart, envs: seq<Env>, env: Env, a: bv64)
    requires Records(h, m.reserved) && Run(m, envs).1 == Running
    requires IterationEvent(Run(m, envs).0, env) == Some(Conditional(a))
    ensures var ready := Dispatch(Tick(Provide(Run(m, envs).0, env)));
            && ready.Ok? && RunsWord(ready.value)
            && var w := Fetch(ready.value, Word).value;
            StepInstruction(ready.value)
            == Report(ScResult(Advance(ready.value, 4), w, a, IsReserved(History(h, m, envs), a)), w)
  {
    hide Run, History, Tick, Dispatch, StepEvent, StepInstruction, RunsWord, ScResult, IsReserved, Records, Fetch, Add;
    ReservedIffLatestIsLr(h, m, envs);
    var last := Run(m, envs).0;
    var ticked := Tick(Provide(last, env));
    TickKeepsReserved(last, env);
    DispatchKeepsReserved(ticked);
    StepOfSc(Dispatch(ticked).value, History(h, m, envs), a);
  }

  /** The iteration executes an aligned sc at an address that is reserved, which is granted. */
  predicate Grants(m: Hart, env: Env, a: bv64) {
    IterationEvent(m, env) == Some(Conditional(a)) && a in m.reserved
  }

  lemma StaysDropped(reserved: seq<bv64>, e: Option<Event>, a: bv64)
    requires e != Some(Reserves(a)) && (a !in reserved || e == Some(Conditional(a)))
    ensures a !in Happens(reserved, e)
  {
    hide Without;
    if e.Some? {
      InWithout(reserved, e.value.a, a);
    }
  }

  /** The state before iteration `k` of a run. */
  function Before(m: Hart, envs: seq<Env>, k: nat): Hart
    requires k <= |envs|
  {
    Run(m, envs[..k]).0
  }

  lemma BeforeNext(m: Hart, envs: seq<Env>, k: nat)
    requires k < |envs| && Run(m, envs[..k]).1 == Running
    ensures Before(m, envs, k + 1).reserved
            == Happens(Before(m, envs, k).reserved, IterationEvent(Before(m, envs, k), envs[k]))
  {
    hide Run, Step, IterationEvent, Happens;
    RunNext(m, envs, k);
    IterationEventHappens(Before(m, envs, k), envs[k]);
  }

  lemma {:induction false} NotReservedWithoutLr(m: Hart, envs: seq<Env>, i: nat, j: nat, a: bv64)
    requires i < j <= |envs| && Run(m, envs[..j]).1 == Running
    requires a !in Before(m, envs, i + 1).reserved
    requires forall k | i < k < j :: IterationEvent(Before(m, envs, k), envs[k]) != Some(Reserves(a))
    ensures a !in Before(m, envs, j).reserved
    decreases j
  {
    hide Before, Run, IterationEvent, Happens;
    if j > i + 1 {
      RunningBefore(m, envs, j - 1, j);
      NotReservedWithoutLr(m, envs, i, j - 1, a);
      BeforeNext(m, envs, j - 1);
      StaysDropped(Before(m, envs, j - 1).reserved, IterationEvent(Before(m, envs, j - 1), envs[j - 1]), a);
    }
  }

  /** Two store-conditionals that are granted at one address in a run have a load-reserved of that address
      between them. */
  lemma GrantsAreSeparated(m: Hart, envs: seq<Env>, i: nat, j: nat, a: bv64)
    requires i < j < |envs| && Run(m, envs[..j]).1 == Running
    requires Grants(Before(m, envs, i), envs[i], a) && Grants(Before(m, envs, j), envs[j], a)
    ensures exists k :: i < k < j && IterationEvent(Before(m, envs, k), envs[k]) == Some(Reserves(a))
  {
    hide Before, Run, IterationEvent, Happens;
    RunningBefore(m, envs, i, j);
    BeforeNext(m, envs, i);
    StaysDropped(Before(m, envs, i).reserved, IterationEvent(Before(m, envs, i), envs[i]), a);
    if forall k | i < k < j :: IterationEvent(Before(m, envs, k), envs[k]) != Some(Reserves(a)) {
      NotReservedWithoutLr(m, envs, i, j, a);
      assert false;
    }
  }
}
