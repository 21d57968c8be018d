/** What an instruction cannot change. */
module Frames {
  import opened Types
  import opened Words
  import opened Csr
  import opened Devices
  import opened HartState
  import opened Encoding
  import opened Alu
  import opened Executor
  import opened Compressed
  import opened Instruction

  /** The bus keeps the size of the memory, the disk, the count of disk requests and the environment. */
  predicate SameShape(b: Bus, b': Bus) {
    |b'.dram| == |b.dram| && b'.env == b.env && b'.virtio.disk == b.virtio.disk && b'.virtio.id == b.virtio.id
  }

  /** Register x0 and the shape of the bus are kept. */
  predicate Sound(m: Hart, m': Hart) { m'.x[0] == m.x[0] && SameShape(m.bus, m'.bus) }

  /** Mode, paging and all CSRs are kept. */
  predicate Quiet(m: Hart, m': Hart) {
    Sound(m, m') && m'.csr == m.csr
    && m'.mode == m.mode && m'.prevMode == m.prevMode && m'.paging == m.paging && m'.pageTable == m.pageTable
  }

  /** Mode, paging and all CSRs but FCSR are kept. */
  ghost predicate Spared(m: Hart, m': Hart) {
    && Sound(m, m')
    && m'.mode == m.mode && m'.prevMode == m.prevMode && m'.paging == m.paging && m'.pageTable == m.pageTable
    && forall a: CsrAddress | a != FCSR :: m'.csr[a] == m.csr[a]
  }

  /** The state with the flag of a division by zero set, if the instruction is one. */
  function Flagged(m: Hart, byZero: bool): Hart { FlagDivision(m, byZero, true) }

  /** The cached translation mode and root are what SATP says. */
  predicate PagingAgrees(m: Hart) { UpdatePaging(m) == m }

  lemma QuietSelf(m: Hart)
    ensures Quiet(m, m)
  {
  }

  lemma SetXQuiet(m: Hart, r: bv5, v: bv64)
    ensures Quiet(m, SetX(m, r, v))
  {
  }

  lemma WriteMemQuiet(m: Hart, va: bv64, v: bv64, size: Size)
    ensures Quiet(m, WriteMem(m, va, v, size).0)
  {
    hide BusWrite, Paging.Walk, Phys, Without;
    var pa := Translate(m, va, AccessType.Load);
    if pa.Ok? {
      WriteKeepsShape(m.bus, Phys(pa.value), v, size);
    }
  }

  lemma QuietTrans(m: Hart, m1: Hart, m2: Hart)
    requires Quiet(m, m1) && Quiet(m1, m2)
    ensures Quiet(m, m2)
  {
  }

  lemma DropQuiet(m: Hart, a: bv64)
    ensures Quiet(m, m.(reserved := Without(m.reserved, a)))
  {
    hide Without;
  }

  lemma ScQuiet(m: Hart, size: Size, rd: bv5, addr: bv64, v: bv64)
    ensures Quiet(m, ExecSc(m, size, rd, addr, v).0)
  {
    hide WriteMem, SetX, Without, IsNaturallyAligned, Quiet;
    QuietSelf(m);
    var m1 := m.(reserved := Without(m.reserved, addr));
    DropQuiet(m, addr);
    var w := WriteMem(m1, addr, v, size).0;
    WriteMemQuiet(m1, addr, v, size);
    QuietTrans(m, m1, w);
    SetXQuiet(w, rd, 0);
    QuietTrans(m, w, SetX(w, rd, 0));
    SetXQuiet(m1, rd, 1);
    QuietTrans(m, m1, SetX(m1, rd, 1));
  }

  lemma RmwQuiet(m: Hart, size: Size, f5: bv64, rd: bv5, addr: bv64, b: bv64)
    ensures Quiet(m, ExecRmw(m, size, f5, rd, addr, b).0)
  {
    hide WriteMem, SetX, IsNaturallyAligned, RmwWords, AmoExtend, Quiet;
    QuietSelf(m);
    var words := RmwWords(m, size, f5, addr, b);
    if words.Ok? {
      var (t, v) := words.value;
      var w := WriteMem(m, addr, v, size).0;
      WriteMemQuiet(m, addr, v, size);
      SetXQuiet(w, rd, AmoExtend(size, t));
      QuietTrans(m, w, SetX(w, rd, AmoExtend(size, t)));
    }
  }

  lemma LrQuiet(m: Hart, size: Size, rd: bv5, addr: bv64)
    ensures Quiet(m, ExecLr(m, size, rd, addr).0)
  {
    hide ReadMem, IsNaturallyAligned, AmoExtend;
  }

  lemma MemoryQuiet(m: Hart, w: bv64)
    requires IsMemoryOp(Opcode(w))
    ensures Quiet(m, ExecuteMemory(m, w).0)
  {
    hide Opcode, Funct3, Funct5, Rd, Rs1, Rs2, ImmI, ImmS, ImmFpStore, Add, GetX, GetF, ReadMem, LoadValue, WriteMem;
    hide ExecLr, ExecSc, ExecRmw, Quiet, SetX, IsAmo, AmoSize;
    QuietSelf(m);
    var f3, rd, a, b := Funct3(w), Rd(w), GetX(m, Rs1(w)), GetX(m, Rs2(w));
    LoadQuiet(m, f3, rd, Add(a, ImmI(w)));
    FpLoadQuiet(m, f3, rd, Add(a, ImmI(w)));
    StoreQuiet(m, f3, Add(a, ImmS(w)), b);
    FpStoreQuiet(m, f3, Add(a, ImmFpStore(w)), Rs2(w));
    LrQuiet(m, AmoSize(f3), rd, a);
    ScQuiet(m, AmoSize(f3), rd, a, b);
    RmwQuiet(m, AmoSize(f3), Funct5(w), rd, a, b);
  }

  lemma LoadQuiet(m: Hart, f3: bv64, rd: bv5, addr: bv64)
    ensures Quiet(m, ExecLoad(m, f3, rd, addr).0)
  {
    hide LoadValue;
  }

  lemma FpLoadQuiet(m: Hart, f3: bv64, rd: bv5, addr: bv64)
    ensures Quiet(m, ExecFpLoad(m, f3, rd, addr).0)
  {
    hide ReadMem;
  }

  lemma StoreQuiet(m: Hart, f3: bv64, addr: bv64, v: bv64)
    ensures Quiet(m, ExecStore(m, f3, addr, v).0)
  {
    hide WriteMem, Quiet;
    QuietSelf(m);
    WriteMemQuiet(m, addr, v, Byte);
    WriteMemQuiet(m, addr, v, HalfWord);
    WriteMemQuiet(m, addr, v, Word);
    WriteMemQuiet(m, addr, v, DoubleWord);
  }

  lemma FpStoreQuiet(m: Hart, f3: bv64, addr: bv64, rs2: bv5)
    ensures Quiet(m, ExecFpStore(m, f3, addr, rs2).0)
  {
    hide WriteMem, Quiet, GetF;
    QuietSelf(m);
    WriteMemQuiet(m, addr, m.bus.env.narrowed, Word);
    WriteMemQuiet(m, addr, GetF(m, rs2), DoubleWord);
  }

  /** Setting the flag leaves every other CSR alone. */
  lemma FlaggedSpares(m: Hart, byZero: bool)
    ensures Spared(m, Flagged(m, byZero))
  {
    hide Csr.Read, Or, Clear, Bit;
  }

  lemma SetAlready(w: bv64, b: bv64)
    requires b == Bit(3) && And(w, b) != 0
    ensures Or(w, b) == w
  {
  }

  lemma SetNow(w: bv64, b: bv64)
    requires b == Bit(3) && And(w, b) == 0
    ensures Or(w, b) != w
  {
  }

  /** Setting the flag changes the CSRs exactly when it was clear. */
  lemma FlaggingChanges(c: Csrs)
    ensures WriteBit(c, FCSR, 3, 1) == c <==> ReadBit(c, FCSR, 3) == 1
  {
    hide Or, And, Clear, Bit, Merge;
    if And(c[FCSR], Bit(3)) != 0 {
      SetAlready(c[FCSR], Bit(3));
    } else {
      SetNow(c[FCSR], Bit(3));
    }
  }

  lemma PutXQuiet(m: Hart, rd: bv5, r: Outcome<bv64>)
    ensures Quiet(m, PutX(m, rd, r).0)
  {
  }

  lemma ArithmeticQuiet(m: Hart, w: bv64, len: bv64)
    requires IsArithmeticOp(Opcode(w))
    ensures Quiet(Flagged(m, DividesByZero(m, w)), ExecuteArithmetic(m, w, len).0)
  {
    hide Opcode, Funct3, Funct6, Funct7, Rd, Rs1, Rs2, ImmI, ImmU, Shamt5, Shamt6, Moved, OpImm, OpImm32, GetX, SetX;
    hide IsFpArithmetic, ExecOp, ExecOp32, PutX, ExecFp, Quiet, Divides, WriteBit, Zext32;
    var op, f3, rd, a, b := Opcode(w), Funct3(w), Rd(w), GetX(m, Rs1(w)), GetX(m, Rs2(w));
    if op == 0x33 || op == 0x3b {
      OpQuiet(m, f3, Funct7(w), rd, a, b);
    } else {
      PutXQuiet(m, rd, OpImm(f3, Funct6(w), a, ImmI(w), Shamt6(w)));
      PutXQuiet(m, rd, OpImm32(f3, Funct7(w), a, ImmI(w), Shamt5(w)));
      SetXQuiet(m, rd, Moved(m.pc, ImmU(w), len));
      SetXQuiet(m, rd, ImmU(w));
      FpQuiet(m, rd);
    }
  }

  lemma FpQuiet(m: Hart, rd: bv5)
    ensures Quiet(m, ExecFp(m, rd).0)
  {
    hide Quiet, SetX, SetF;
    match m.bus.env.fp
    case IntoF(v) => SetFQuiet(m, rd, v);
    case IntoX(v) => SetXQuiet(m, rd, v);
    case FpIllegal => QuietSelf(m);
  }

  lemma SetFQuiet(m: Hart, r: bv5, v: bv64)
    ensures Quiet(m, SetF(m, r, v))
  {
  }

  lemma OpQuiet(m: Hart, f3: bv64, f7: bv64, rd: bv5, a: bv64, b: bv64)
    ensures Quiet(Flagged(m, Divides(f3, f7) && b == 0), ExecOp(m, f3, f7, rd, a, b).0)
    ensures Quiet(Flagged(m, Divides(f3, f7) && Zext32(b) == 0), ExecOp32(m, f3, f7, rd, a, b).0)
  {
    hide Op, Op32, Divides, Zext32, WriteBit, PutX, Quiet;
    PutXQuiet(Flagged(m, Divides(f3, f7) && b == 0), rd, Op(f3, f7, a, b));
    PutXQuiet(Flagged(m, Divides(f3, f7) && Zext32(b) == 0), rd, Op32(f3, f7, a, b));
  }

  /** A register operation keeps every CSR if and only if it is not a division by zero that finds the flag
      of FCSR clear. */
  lemma OperationKeepsCsrs(m: Hart, f3: bv64, f7: bv64, rd: bv5, a: bv64, b: bv64)
    ensures ExecOp(m, f3, f7, rd, a, b).0.csr == m.csr
            <==> !(Divides(f3, f7) && b == 0 && ReadBit(m.csr, FCSR, 3) == 0)
    ensures ExecOp32(m, f3, f7, rd, a, b).0.csr == m.csr
            <==> !(Divides(f3, f7) && Zext32(b) == 0 && ReadBit(m.csr, FCSR, 3) == 0)
  {
    hide ExecOp, ExecOp32, Divides, Zext32, Sound;
    OpQuiet(m, f3, f7, rd, a, b);
    FlaggedKeepsCsrs(m, Divides(f3, f7) && b == 0);
    FlaggedKeepsCsrs(m, Divides(f3, f7) && Zext32(b) == 0);
  }

  lemma FlaggedKeepsCsrs(m: Hart, byZero: bool)
    ensures Flagged(m, byZero).csr == m.csr <==> !(byZero && ReadBit(m.csr, FCSR, 3) == 0)
  {
    hide WriteBit, Csr.Read, And, Bit;
    FlaggingChanges(m.csr);
  }

  lemma ControlQuiet(m: Hart, w: bv64, len: bv64)
    requires !IsStatusOp(w)
    ensures Quiet(m, ExecuteControl(m, w, len).0)
  {
    hide Opcode, Funct3, Funct7, Rd, Rs1, Rs2, ImmI, ImmB, ImmJ, Moved, Add, GetX, SetX, Taken, ClearLowBit, Sret, Mret;
    hide EnvironmentCall, CsrField, ExecCsr, CsrOperand, Quiet;
    QuietSelf(m);
    var rd := Rd(w);
    JumpQuiet(m, ImmB(w), len);
    JalrQuiet(m, rd, Add(GetX(m, Rs1(w)), ImmI(w)));
    JalQuiet(m, rd, ImmJ(w), len);
    IdleQuiet(m);
  }

  lemma JumpQuiet(m: Hart, offset: bv64, len: bv64)
    ensures Quiet(m, JumpTo(m, offset, len))
  {
    hide Moved;
  }

  lemma JalrQuiet(m: Hart, rd: bv5, target: bv64)
    ensures Quiet(m, ExecJalr(m, rd, target).0)
  {
    hide ClearLowBit;
  }

  lemma JalQuiet(m: Hart, rd: bv5, offset: bv64, len: bv64)
    ensures Quiet(m, ExecJal(m, rd, offset, len).0)
  {
    hide Moved;
  }

  lemma IdleQuiet(m: Hart)
    ensures Quiet(m, m.(idle := true))
  {
  }

  lemma OnlyArithmeticDivides(m: Hart, w: bv64)
    requires !IsArithmeticOp(Opcode(w))
    ensures Flagged(m, DividesByZero(m, w)) == m
  {
    hide Opcode, Funct3, Funct7, Rs2, GetX, Zext32, Divides, WriteBit, IsFpArithmetic;
  }

  /** Every instruction but a CSR instruction, mret and sret is quiet, but for the flag of a division by zero. */
  lemma ExecuteQuiet(m: Hart, w: bv64, len: bv64)
    requires !IsStatusOp(w)
    ensures Quiet(Flagged(m, DividesByZero(m, w)), Execute(m, w, len).0)
  {
    hide Opcode, IsMemoryOp, IsArithmeticOp, ExecuteMemory, ExecuteArithmetic, ExecuteControl, IsStatusOp, Quiet;
    hide Flagged, DividesByZero;
    if IsMemoryOp(Opcode(w)) {
      MemoryIsNotArithmetic(w);
      OnlyArithmeticDivides(m, w);
      MemoryQuiet(m, w);
    } else if IsArithmeticOp(Opcode(w)) {
      ArithmeticQuiet(m, w, len);
    } else {
      OnlyArithmeticDivides(m, w);
      ControlQuiet(m, w, len);
    }
  }

  lemma MemoryIsNotArithmetic(w: bv64)
    requires IsMemoryOp(Opcode(w))
    ensures !IsArithmeticOp(Opcode(w))
  {
    hide Opcode;
  }

  // ---------------------------------------------------------------------------
  // Compressed instructions are quiet

  /** Neither a CSR instruction nor a return, a division or an atomic operation. */
  predicate IsPlain(w: bv64) { !IsStatusOp(w) && !IsDivision(w) && Opcode(w) != 0x2f }

  ghost predicate PlainWord(r: Option<bv64>) { r.Some? ==> IsPlain(r.value) }

  /** Opcodes that are plain whatever the other fields. */
  predicate PlainOpcode(op: bv64) { op != 0x73 && op != 0x33 && op != 0x3b && op != 0x2f }

  lemma PlainByOpcode(w: bv64)
    requires PlainOpcode(Opcode(w))
    ensures IsPlain(w)
  {
    hide Opcode, Funct3, Rs2, Funct7;
  }

  lemma PlainI(op: bv64, f3: bv64, rd: bv5, rs1: bv5, imm: bv64)
    requires Op7(op) && Op3(f3) && PlainOpcode(op)
    ensures IsPlain(EncI(op, f3, rd, rs1, imm))
  {
    hide Opcode, EncI, IsPlain;
    IOpcode(op, f3, rd, rs1, imm);
    PlainByOpcode(EncI(op, f3, rd, rs1, imm));
  }

  lemma PlainS(op: bv64, f3: bv64, rs1: bv5, rs2: bv5, imm: bv64)
    requires Op7(op) && Op3(f3) && PlainOpcode(op)
    ensures IsPlain(EncS(op, f3, rs1, rs2, imm))
  {
    hide Opcode, EncS, IsPlain;
    SOpcode(op, f3, rs1, rs2, imm);
    PlainByOpcode(EncS(op, f3, rs1, rs2, imm));
  }

  lemma PlainR(op: bv64, f3: bv64, f7: bv64, rd: bv5, rs1: bv5, rs2: bv5)
    requires Op7(op) && Op3(f3) && Op7(f7) && (op == 0x33 || op == 0x3b) && f7 != 0x01
    ensures IsPlain(EncR(op, f3, f7, rd, rs1, rs2))
  {
    hide Opcode, EncR, Funct3, Rs2, Funct7;
    ROpcode(op, f3, f7, rd, rs1, rs2);
    RFunct7(op, f3, f7, rd, rs1, rs2);
  }

  lemma PlainU(op: bv64, rd: bv5, imm: bv64)
    requires Op7(op) && PlainOpcode(op)
    ensures IsPlain(EncU(op, rd, imm))
  {
    hide Opcode, EncU, IsPlain;
    UOpcode(op, rd, imm);
    PlainByOpcode(EncU(op, rd, imm));
  }

  lemma PlainJ(rd: bv5, imm: bv64)
    ensures IsPlain(EncJ(rd, imm))
  {
    hide Opcode, EncJ, IsPlain;
    JOpcode(rd, imm);
    PlainByOpcode(EncJ(rd, imm));
  }

  lemma PlainB(f3: bv64, rs1: bv5, rs2: bv5, imm: bv64)
    requires Op3(f3)
    ensures IsPlain(EncB(f3, rs1, rs2, imm))
  {
    hide Opcode, EncB, IsPlain;
    BOpcode(f3, rs1, rs2, imm);
    PlainByOpcode(EncB(f3, rs1, rs2, imm));
  }

  lemma PlainEbreak()
    ensures IsPlain(EBREAK)
  {
  }

  lemma Expand0Plain(c: bv64)
    ensures PlainWord(Expand0(c))
  {
    hide CFunct3, CRs2Short, CRdShort, ImmAddi4spn, ImmLd, ImmLw, EncI, EncS, IsPlain;
    var rd, rs1 := CRs2Short(c), CRdShort(c);
    PlainI(0x13, 0, rd, SP, ImmAddi4spn(c));
    PlainI(0x07, 3, rd, rs1, ImmLd(c));
    PlainI(0x03, 2, rd, rs1, ImmLw(c));
    PlainI(0x03, 3, rd, rs1, ImmLd(c));
    PlainS(0x27, 3, rs1, rd, ImmLd(c));
    PlainS(0x23, 2, rs1, rd, ImmLw(c));
    PlainS(0x23, 3, rs1, rd, ImmLd(c));
  }

  lemma ExpandAluPlain(c: bv64)
    ensures PlainWord(ExpandAlu(c))
  {
    hide AluKind, AluSub, Bit12, CRs2Short, CRdShort, ImmShamt, SraiImm, Imm6, EncI, EncR, IsPlain;
    var rd, rs2 := CRdShort(c), CRs2Short(c);
    PlainI(0x13, 5, rd, rd, ImmShamt(c));
    PlainI(0x13, 5, rd, rd, SraiImm(c));
    PlainI(0x13, 7, rd, rd, Imm6(c));
    PlainR(0x33, 0, 0x20, rd, rd, rs2);
    PlainR(0x33, 4, 0, rd, rd, rs2);
    PlainR(0x33, 6, 0, rd, rd, rs2);
    PlainR(0x33, 7, 0, rd, rd, rs2);
    PlainR(0x3b, 0, 0x20, rd, rd, rs2);
    PlainR(0x3b, 0, 0, rd, rd, rs2);
  }

  lemma Expand1Plain(c: bv64)
    ensures PlainWord(Expand1(c))
  {
    hide CFunct3, CRd, CRdShort, Imm6, ImmAddi16sp, ImmLui, ImmCj, ImmCb, ExpandAlu, EncI, EncU, EncJ, EncB, IsPlain;
    var rd := CRd(c);
    PlainI(0x13, 0, rd, rd, Imm6(c));
    PlainI(0x1b, 0, rd, rd, Imm6(c));
    PlainI(0x13, 0, rd, 0, Imm6(c));
    PlainI(0x13, 0, SP, SP, ImmAddi16sp(c));
    PlainU(0x37, rd, ImmLui(c));
    ExpandAluPlain(c);
    PlainJ(0, ImmCj(c));
    PlainB(0, CRdShort(c), 0, ImmCb(c));
    PlainB(1, CRdShort(c), 0, ImmCb(c));
  }

  lemma ExpandCrPlain(c: bv64)
    ensures PlainWord(ExpandCr(c))
  {
    hide Bit12, CRd, CRs2, EncI, EncR, IsPlain;
    var rd, rs2 := CRd(c), CRs2(c);
    PlainI(0x67, 0, 0, rd, 0);
    PlainR(0x33, 0, 0, rd, 0, rs2);
    PlainEbreak();
    PlainI(0x67, 0, RA, rd, 0);
    PlainR(0x33, 0, 0, rd, rd, rs2);
  }

  lemma Expand2Plain(c: bv64)
    ensures PlainWord(Expand2(c))
  {
    hide CFunct3, CRd, CRs2, ImmShamt, ImmLdsp, ImmLwsp, ImmSdsp, ImmSwsp, ExpandCr, EncI, EncS, IsPlain;
    var rd, rs2 := CRd(c), CRs2(c);
    PlainI(0x13, 1, rd, rd, ImmShamt(c));
    PlainI(0x07, 3, rd, SP, ImmLdsp(c));
    PlainI(0x03, 2, rd, SP, ImmLwsp(c));
    PlainI(0x03, 3, rd, SP, ImmLdsp(c));
    ExpandCrPlain(c);
    PlainS(0x27, 3, SP, rs2, ImmSdsp(c));
    PlainS(0x23, 2, SP, rs2, ImmSwsp(c));
    PlainS(0x23, 3, SP, rs2, ImmSdsp(c));
  }

  lemma ExpandPlain(c: bv64)
    ensures PlainWord(Expand(c))
  {
    hide Expand0, Expand1, Expand2, Quadrant, IsPlain;
    Expand0Plain(c);
    Expand1Plain(c);
    Expand2Plain(c);
  }

  /** No compressed instruction is a CSR instruction, a return or a division, and each is quiet. */
  lemma CompressedQuiet(m: Hart, c: bv64)
    ensures Quiet(m, ExecCompressed(m, c).0)
  {
    hide Expand, Quadrant, CFunct3, IsRegisterJump, CRd, GetX, Execute, IsStatusOp, IsDivision, Quiet;
    ExpandPlain(c);
    QuietSelf(m);
    if Expand(c).Some? {
      var w := Expand(c).value;
      var r := Execute(m, w, 2).0;
      ExecuteQuiet(m, w, 2);
      MovedIsQuiet(m, r, GetX(m, CRd(c)));
    }
  }

  lemma MovedIsQuiet(m: Hart, r: Hart, pc: bv64)
    requires Quiet(m, r)
    ensures Quiet(m, r.(pc := pc))
  {
  }

  /** A 32-bit instruction is about to run. */
  predicate RunsWord(m: Hart) {
    !m.idle && Fetch(m, HalfWord).Ok? && Quadrant(Fetch(m, HalfWord).value) == 3 && Fetch(m, Word).Ok?
  }

  /** The instruction about to run is a CSR instruction, an mret or an sret. */
  predicate RunsStatusOp(m: Hart) { RunsWord(m) && IsStatusOp(Fetch(m, Word).value) }

  /** The instruction about to run is a division by zero. */
  predicate RunsDivisionByZero(m: Hart) { RunsWord(m) && DividesByZero(m, Fetch(m, Word).value) }

  lemma AdvanceIsQuiet(m: Hart, len: bv64)
    ensures Quiet(m, Advance(m, len))
  {
    hide Add;
  }

  lemma AdvanceThenFlag(m: Hart, w: bv64)
    ensures DividesByZero(Advance(m, 4), w) == DividesByZero(m, w)
    ensures forall z :: Quiet(Flagged(m, z), Flagged(Advance(m, 4), z))
  {
    hide Add, WriteBit, IsDivision, Rs2, Zext32;
  }

  /** An instruction step that is not a CSR instruction, mret or sret, but for the flag of a division. */
  lemma StepFlags(m: Hart)
    requires !RunsStatusOp(m)
    ensures Quiet(Flagged(m, RunsDivisionByZero(m)), StepInstruction(m).0)
  {
    hide Fetch, Quadrant, Execute, ExecCompressed, IsStatusOp, DividesByZero, Quiet, Add, Flagged, Advance;
    QuietSelf(m);
    NoFlag(m);
    var c := Fetch(m, HalfWord);
    if !m.idle && c.Ok? {
      if Quadrant(c.value) == 3 {
        var w := Fetch(m, Word);
        if w.Ok? {
          var z, m1 := DividesByZero(m, w.value), Advance(m, 4);
          AdvanceThenFlag(m, w.value);
          ExecuteQuiet(m1, w.value, 4);
          QuietTrans(Flagged(m, z), Flagged(m1, z), Execute(m1, w.value, 4).0);
        }
      } else {
        AdvanceIsQuiet(m, 2);
        CompressedQuiet(Advance(m, 2), c.value);
        QuietTrans(m, Advance(m, 2), ExecCompressed(Advance(m, 2), c.value).0);
      }
    }
  }

  lemma NoFlag(m: Hart)
    ensures Flagged(m, false) == m
  {
    hide WriteBit;
  }

  lemma QuietIsSpared(m: Hart, m1: Hart, m2: Hart)
    requires Spared(m, m1) && Quiet(m1, m2)
    ensures Spared(m, m2) && m2.csr == m1.csr
  {
  }

  /** An instruction step that is not a CSR instruction, mret or sret keeps mode, paging and every CSR but
      FCSR, and it keeps FCSR too if and only if it is not a division by zero that finds its flag clear. */
  lemma StepQuiet(m: Hart)
    requires !RunsStatusOp(m)
    ensures Spared(m, StepInstruction(m).0)
    ensures StepInstruction(m).0.csr == m.csr <==> !(RunsDivisionByZero(m) && ReadBit(m.csr, FCSR, 3) == 0)
  {
    hide StepInstruction, RunsStatusOp, RunsDivisionByZero, Flagged, Quiet, Spared, Csr.Read, And, Bit;
    var z := RunsDivisionByZero(m);
    StepFlags(m);
    FlaggedSpares(m, z);
    FlaggedKeepsCsrs(m, z);
    QuietIsSpared(m, Flagged(m, z), StepInstruction(m).0);
  }
}
