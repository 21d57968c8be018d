/** Running a 16-bit instruction and running its 32-bit expansion differ in the length of the
    instruction and in nothing else. */
module LengthLemmas {
  import opened Types
  import opened Words
  import opened Csr
  import opened Devices
  import opened HartState
  import opened Encoding
  import opened Alu
  import opened Executor
  import opened Compressed
  import opened Instruction

  function WithPc(r: Result, pc: bv64): Result { (r.0.(pc := pc), r.1) }

  // ---------------------------------------------------------------------------
  // What does not look at the pc

  lemma ReadIgnoresPc(m: Hart, pc: bv64, va: bv64, size: Size)
    ensures ReadMem(m.(pc := pc), va, size) == ReadMem(m, va, size)
  {
    hide BusRead, Paging.Walk, Phys;
  }

  lemma WriteIgnoresPc(m: Hart, pc: bv64, va: bv64, v: bv64, size: Size)
    ensures WriteMem(m.(pc := pc), va, v, size) == WithPc(WriteMem(m, va, v, size), pc)
  {
    hide BusWrite, Paging.Walk, Phys, Without;
  }

  lemma PutIgnoresPc(m: Hart, pc: bv64, rd: bv5, v: Outcome<bv64>)
    ensures PutX(m.(pc := pc), rd, v) == WithPc(PutX(m, rd, v), pc)
  {
  }

  lemma SetIgnoresPc(m: Hart, pc: bv64, rd: bv5, v: bv64)
    ensures SetX(m.(pc := pc), rd, v) == SetX(m, rd, v).(pc := pc)
    ensures SetF(m.(pc := pc), rd, v) == SetF(m, rd, v).(pc := pc)
  {
  }

  lemma ThenPutIgnoresPc(w: Result, pc: bv64, rd: bv5, v: bv64)
    ensures ThenPutX(WithPc(w, pc), rd, v) == WithPc(ThenPutX(w, rd, v), pc)
  {
  }

  lemma GetIgnoresPc(m: Hart, pc: bv64, r: bv5)
    ensures GetX(m.(pc := pc), r) == GetX(m, r) && GetF(m.(pc := pc), r) == GetF(m, r)
  {
  }

  lemma LoadIgnoresPc(m: Hart, pc: bv64, f3: bv64, rd: bv5, addr: bv64)
    ensures ExecLoad(m.(pc := pc), f3, rd, addr) == WithPc(ExecLoad(m, f3, rd, addr), pc)
  {
    hide ReadMem, PutX, LoadSize, ExtendLoad;
    PutIgnoresPc(m, pc, rd, LoadValue(m, f3, addr));
    var size := LoadSize(f3);
    if size.Ok? {
      ReadIgnoresPc(m, pc, addr, size.value);
    }
  }

  lemma FpLoadIgnoresPc(m: Hart, pc: bv64, f3: bv64, rd: bv5, addr: bv64)
    ensures ExecFpLoad(m.(pc := pc), f3, rd, addr) == WithPc(ExecFpLoad(m, f3, rd, addr), pc)
  {
    hide ReadMem;
    ReadIgnoresPc(m, pc, addr, Word);
    ReadIgnoresPc(m, pc, addr, DoubleWord);
  }

  lemma StoreIgnoresPc(m: Hart, pc: bv64, f3: bv64, addr: bv64, v: bv64)
    ensures ExecStore(m.(pc := pc), f3, addr, v) == WithPc(ExecStore(m, f3, addr, v), pc)
  {
    hide WriteMem;
    WriteIgnoresPc(m, pc, addr, v, Byte);
    WriteIgnoresPc(m, pc, addr, v, HalfWord);
    WriteIgnoresPc(m, pc, addr, v, Word);
    WriteIgnoresPc(m, pc, addr, v, DoubleWord);
  }

  lemma FpStoreIgnoresPc(m: Hart, pc: bv64, f3: bv64, addr: bv64, rs2: bv5)
    ensures ExecFpStore(m.(pc := pc), f3, addr, rs2) == WithPc(ExecFpStore(m, f3, addr, rs2), pc)
  {
    hide WriteMem;
    WriteIgnoresPc(m, pc, addr, m.bus.env.narrowed, Word);
    WriteIgnoresPc(m, pc, addr, GetF(m, rs2), DoubleWord);
  }

  lemma LrIgnoresPc(m: Hart, pc: bv64, size: Size, rd: bv5, addr: bv64)
    ensures ExecLr(m.(pc := pc), size, rd, addr) == WithPc(ExecLr(m, size, rd, addr), pc)
  {
    hide ReadMem, AmoExtend, IsNaturallyAligned;
    ReadIgnoresPc(m, pc, addr, size);
  }

  lemma ScIgnoresPc(m: Hart, pc: bv64, size: Size, rd: bv5, addr: bv64, v: bv64)
    ensures ExecSc(m.(pc := pc), size, rd, addr, v) == WithPc(ExecSc(m, size, rd, addr, v), pc)
  {
    hide WriteMem, IsNaturallyAligned, Without, SetX, SetF, ThenPutX;
    var m1 := m.(reserved := Without(m.reserved, addr));
    WriteIgnoresPc(m1, pc, addr, v, size);
    SetIgnoresPc(m1, pc, rd, 1);
    ThenPutIgnoresPc(WriteMem(m1, addr, v, size), pc, rd, 0);
  }

  lemma RmwWordsIgnorePc(m: Hart, pc: bv64, size: Size, f5: bv64, addr: bv64, b: bv64)
    ensures RmwWords(m.(pc := pc), size, f5, addr, b) == RmwWords(m, size, f5, addr, b)
  {
    hide ReadMem, AmoResult;
    ReadIgnoresPc(m, pc, addr, size);
  }

  lemma RmwIgnoresPc(m: Hart, pc: bv64, size: Size, f5: bv64, rd: bv5, addr: bv64, b: bv64)
    ensures ExecRmw(m.(pc := pc), size, f5, rd, addr, b) == WithPc(ExecRmw(m, size, f5, rd, addr, b), pc)
  {
    hide RmwWords, WriteMem, AmoExtend, IsNaturallyAligned, ThenPutX;
    RmwWordsIgnorePc(m, pc, size, f5, addr, b);
    var w := RmwWords(m, size, f5, addr, b);
    if w.Ok? {
      WriteIgnoresPc(m, pc, addr, w.value.1, size);
      ThenPutIgnoresPc(WriteMem(m, addr, w.value.1, size), pc, rd, AmoExtend(size, w.value.0));
    }
  }

  lemma AmoIgnoresPc(m: Hart, pc: bv64, f3: bv64, f5: bv64, rd: bv5, rs1: bv5, rs2: bv5)
    ensures ExecAmo(m.(pc := pc), f3, f5, rd, rs1, rs2) == WithPc(ExecAmo(m, f3, f5, rd, rs1, rs2), pc)
  {
    hide ExecLr, ExecSc, ExecRmw, GetX, AmoSize, IsAmo;
    GetIgnoresPc(m, pc, rs1);
    GetIgnoresPc(m, pc, rs2);
    LrIgnoresPc(m, pc, AmoSize(f3), rd, GetX(m, rs1));
    ScIgnoresPc(m, pc, AmoSize(f3), rd, GetX(m, rs1), GetX(m, rs2));
    RmwIgnoresPc(m, pc, AmoSize(f3), f5, rd, GetX(m, rs1), GetX(m, rs2));
  }

  lemma MemoryIgnoresPc(m: Hart, pc: bv64, w: bv64)
    requires IsMemoryOp(Opcode(w))
    ensures ExecuteMemory(m.(pc := pc), w) == WithPc(ExecuteMemory(m, w), pc)
  {
    hide Opcode, Funct3, Funct5, Rd, Rs1, Rs2, ImmI, ImmS, ImmFpStore, Add, GetX, ExecLoad, ExecFpLoad, ExecStore;
    hide ExecFpStore, ExecAmo;
    GetIgnoresPc(m, pc, Rs1(w));
    GetIgnoresPc(m, pc, Rs2(w));
    var f3, rd, a := Funct3(w), Rd(w), GetX(m, Rs1(w));
    LoadIgnoresPc(m, pc, f3, rd, Add(a, ImmI(w)));
    FpLoadIgnoresPc(m, pc, f3, rd, Add(a, ImmI(w)));
    StoreIgnoresPc(m, pc, f3, Add(a, ImmS(w)), GetX(m, Rs2(w)));
    FpStoreIgnoresPc(m, pc, f3, Add(a, ImmFpStore(w)), Rs2(w));
    AmoIgnoresPc(m, pc, f3, Funct5(w), rd, Rs1(w), Rs2(w));
  }

  // ---------------------------------------------------------------------------
  // The length enters through the pc alone

  lemma MovedSame(pc: bv64, offset: bv64)
    ensures Moved(Add(pc, 2), offset, 2) == Moved(Add(pc, 4), offset, 4)
  {
    hide Add, Sub;
    BackTwo(pc);
    BackFour(pc);
  }

  lemma OpIgnoresPc(m: Hart, pc: bv64, f3: bv64, f7: bv64, rd: bv5, a: bv64, b: bv64)
    ensures ExecOp(m.(pc := pc), f3, f7, rd, a, b) == WithPc(ExecOp(m, f3, f7, rd, a, b), pc)
    ensures ExecOp32(m.(pc := pc), f3, f7, rd, a, b) == WithPc(ExecOp32(m, f3, f7, rd, a, b), pc)
  {
    hide Op, Op32, Divides, Zext32, WriteBit, PutX;
    PutIgnoresPc(FlagDivision(m, Divides(f3, f7), b == 0), pc, rd, Op(f3, f7, a, b));
    PutIgnoresPc(FlagDivision(m, Divides(f3, f7), Zext32(b) == 0), pc, rd, Op32(f3, f7, a, b));
  }

  lemma FpIgnoresPc(m: Hart, pc: bv64, rd: bv5)
    ensures ExecFp(m.(pc := pc), rd) == WithPc(ExecFp(m, rd), pc)
  {
  }

  lemma ArithmeticIgnoresLength(m: Hart, w: bv64)
    requires IsArithmeticOp(Opcode(w))
    ensures ExecuteArithmetic(Advance(m, 2), w, 2) == WithPc(ExecuteArithmetic(Advance(m, 4), w, 4), Add(m.pc, 2))
  {
    hide Opcode, Funct3, Funct6, Funct7, Rd, Rs1, Rs2, ImmI, ImmU, Shamt5, Shamt6, Moved, Add, OpImm, OpImm32;
    hide GetX, SetX, SetF, IsFpArithmetic, PutX, ExecOp, ExecOp32, ExecFp;
    var p, n, f3, rd, a, b := Add(m.pc, 2), Advance(m, 4), Funct3(w), Rd(w), GetX(m, Rs1(w)), GetX(m, Rs2(w));
    assert Advance(m, 2) == n.(pc := p);
    GetIgnoresPc(m, p, Rs1(w));
    GetIgnoresPc(m, p, Rs2(w));
    GetIgnoresPc(m, Add(m.pc, 4), Rs1(w));
    GetIgnoresPc(m, Add(m.pc, 4), Rs2(w));
    MovedSame(m.pc, ImmU(w));
    PutIgnoresPc(n, p, rd, OpImm(f3, Funct6(w), a, ImmI(w), Shamt6(w)));
    PutIgnoresPc(n, p, rd, OpImm32(f3, Funct7(w), a, ImmI(w), Shamt5(w)));
    SetIgnoresPc(n, p, rd, Moved(Add(m.pc, 4), ImmU(w), 4));
    SetIgnoresPc(n, p, rd, ImmU(w));
    OpIgnoresPc(n, p, f3, Funct7(w), rd, a, b);
    FpIgnoresPc(n, p, rd);
  }

  // ---------------------------------------------------------------------------
  // The effect at length 2, given the effect at length 4

  /** The instruction goes somewhere else than to the next one: a jump, a branch that is taken, or a return. */
  predicate Transfers(m: Hart, w: bv64) {
    var op := Opcode(w);
    op == 0x67 || op == 0x6f
    || (op == 0x63 && Taken(Funct3(w), GetX(m, Rs1(w)), GetX(m, Rs2(w))) == Ok(true))
    || IsReturn(w)
  }

  /** The instruction writes the address of the next one into a register. */
  predicate Links(w: bv64) { (Opcode(w) == 0x67 || Opcode(w) == 0x6f) && Rd(w) != 0 }

  /** The effect of an instruction of length 2, from its effect at length 4: the next instruction is two
      bytes on, and so is the address in the link register. Nothing else differs. */
  function AtLengthTwo(m: Hart, w: bv64, four: Result): Result {
    var next := Add(m.pc, 2);
    (four.0.(pc := if Transfers(m, w) then four.0.pc else next,
             x := if Links(w) then four.0.x[Rd(w) as int := next] else four.0.x),
     four.1)
  }

  lemma GetAdvanced(m: Hart, w: bv64)
    ensures GetX(Advance(m, 2), Rs1(w)) == GetX(m, Rs1(w)) == GetX(Advance(m, 4), Rs1(w))
    ensures GetX(Advance(m, 2), Rs2(w)) == GetX(m, Rs2(w)) == GetX(Advance(m, 4), Rs2(w))
  {
    hide Add, GetX, Rs1, Rs2;
    GetIgnoresPc(m, Add(m.pc, 2), Rs1(w));
    GetIgnoresPc(m, Add(m.pc, 2), Rs2(w));
    GetIgnoresPc(m, Add(m.pc, 4), Rs1(w));
    GetIgnoresPc(m, Add(m.pc, 4), Rs2(w));
  }

  lemma SetTwice(x: Regs, i: nat, a: bv64, b: bv64)
    requires i < 32
    ensures x[i := a][i := b] == x[i := b]
  {
  }

  lemma JalrLength(m: Hart, w: bv64, target: bv64)
    requires Opcode(w) == 0x67
    ensures ExecJalr(Advance(m, 2), Rd(w), target) == AtLengthTwo(m, w, ExecJalr(Advance(m, 4), Rd(w), target))
  {
    hide Add, ClearLowBit, Opcode, Rd, Rs1, Rs2, Funct3, Taken, IsReturn;
    SetTwice(m.x, Rd(w) as int, Add(m.pc, 4), Add(m.pc, 2));
  }

  lemma JalLength(m: Hart, w: bv64, offset: bv64)
    requires Opcode(w) == 0x6f
    ensures ExecJal(Advance(m, 2), Rd(w), offset, 2) == AtLengthTwo(m, w, ExecJal(Advance(m, 4), Rd(w), offset, 4))
  {
    hide Add, Moved, Opcode, Rd, Rs1, Rs2, Funct3, Taken, IsReturn;
    SetTwice(m.x, Rd(w) as int, Add(m.pc, 4), Add(m.pc, 2));
    MovedSame(m.pc, offset);
  }

  lemma BranchLength(m: Hart, w: bv64, offset: bv64)
    requires Opcode(w) == 0x63
    ensures var f3, a, b := Funct3(w), GetX(m, Rs1(w)), GetX(m, Rs2(w));
            ExecBranch(Advance(m, 2), f3, a, b, offset, 2)
            == AtLengthTwo(m, w, ExecBranch(Advance(m, 4), f3, a, b, offset, 4))
  {
    hide Add, Moved, Taken, Opcode, Rd, Rs1, Rs2, Funct3, GetX, IsReturn;
    ReturnOpcode(w);
    MovedSame(m.pc, offset);
  }

  lemma ReturnOpcode(w: bv64)
    ensures IsReturn(w) ==> Opcode(w) == 0x73 && Funct3(w) == 0
  {
  }

  /** What only steps on differs in the pc alone. */
  lemma StepsOn(m: Hart, w: bv64, two: Result, four: Result)
    requires two == WithPc(four, Add(m.pc, 2)) && !Transfers(m, w) && !Links(w)
    ensures two == AtLengthTwo(m, w, four)
  {
    hide Add, Transfers, Links;
  }

  lemma CsrIgnoresPc(m: Hart, pc: bv64, f3: bv64, rd: bv5, a: CsrAddress, operand: bv64)
    ensures ExecCsr(m.(pc := pc), f3, rd, a, operand) == WithPc(ExecCsr(m, f3, rd, a, operand), pc)
  {
    hide CsrValue, Csr.Read, Csr.Write, UpdatePaging, SetX, SetF;
    var t := Csr.Read(m.csr, a);
    var c := m.(csr := Csr.Write(m.csr, a, CsrValue(f3, t, operand)));
    SetIgnoresPc(c, pc, rd, t);
    UpdateIgnoresPc(SetX(c, rd, t), pc);
  }

  lemma UpdateIgnoresPc(m: Hart, pc: bv64)
    ensures UpdatePaging(m.(pc := pc)) == UpdatePaging(m).(pc := pc)
  {
    hide ReadBits, ReadBitsFrom, PageTableAt;
  }

  lemma PrivilegedLength(m: Hart, rs2: bv5, f7: bv64)
    ensures var two, four := ExecPrivileged(Advance(m, 2), rs2, f7), ExecPrivileged(Advance(m, 4), rs2, f7);
            two == if rs2 == 2 && (f7 == 0x8 || f7 == 0x18) then four else WithPc(four, Add(m.pc, 2))
  {
    hide Add, EnvironmentCall, ReadBit, PopSupervisor, PopMachine, ReadBits, ModeOf, Csr.Read;
  }

  lemma SystemLength(m: Hart, w: bv64)
    requires Opcode(w) == 0x73
    ensures ExecSystem(Advance(m, 2), w) == AtLengthTwo(m, w, ExecSystem(Advance(m, 4), w))
  {
    hide Opcode, Funct3, Funct7, Rs1, Rs2, Rd, CsrField, Add, ExecPrivileged, ExecCsr, GetX, Taken;
    var f3 := Funct3(w);
    GetAdvanced(m, w);
    PrivilegedLength(m, Rs2(w), Funct7(w));
    CsrIgnoresPc(Advance(m, 4), Add(m.pc, 2), f3, Rd(w), CsrField(w), CsrOperand(m, f3, Rs1(w)));
  }

  lemma ControlLength(m: Hart, w: bv64)
    ensures !IsMemoryOp(Opcode(w)) && !IsArithmeticOp(Opcode(w)) ==>
              ExecuteControl(Advance(m, 2), w, 2) == AtLengthTwo(m, w, ExecuteControl(Advance(m, 4), w, 4))
  {
    hide Opcode, Funct3, Rd, Rs1, Rs2, ImmI, ImmB, ImmJ, Add, GetX, ExecBranch, ExecJalr, ExecJal, ExecSystem;
    hide AtLengthTwo, Transfers, Links;
    GetAdvanced(m, w);
    var op := Opcode(w);
    if op == 0x63 {
      BranchLength(m, w, ImmB(w));
    } else if op == 0x67 {
      JalrLength(m, w, Add(GetX(m, Rs1(w)), ImmI(w)));
    } else if op == 0x6f {
      JalLength(m, w, ImmJ(w));
    } else if op == 0x73 {
      SystemLength(m, w);
    } else {
      NoTransfer(m, w);
      StepsOn(m, w, ExecuteControl(Advance(m, 2), w, 2), ExecuteControl(Advance(m, 4), w, 4));
    }
  }

  lemma NoTransfer(m: Hart, w: bv64)
    requires Opcode(w) != 0x63 && Opcode(w) != 0x67 && Opcode(w) != 0x6f && Opcode(w) != 0x73
    ensures !Transfers(m, w) && !Links(w)
  {
    hide Opcode, Rd, Rs1, Rs2, Funct3, Funct7, Taken, GetX;
  }

  /** The general executor on any word, at length 2 and at length 4: exactly the transfers of control go to
      the same place, the others go to the next instruction, exactly jal and jalr differ in a register,
      their link, and everything else is the same. */
  lemma ExecuteAtLengthTwo(m: Hart, w: bv64)
    ensures Execute(Advance(m, 2), w, 2) == AtLengthTwo(m, w, Execute(Advance(m, 4), w, 4))
  {
    hide Opcode, ExecuteMemory, ExecuteArithmetic, ExecuteControl, Add, IsFpArithmetic, AtLengthTwo, Transfers, Links;
    if IsMemoryOp(Opcode(w)) {
      MemoryIgnoresPc(m, Add(m.pc, 2), w);
      MemoryIgnoresPc(m, Add(m.pc, 4), w);
      NoTransfer(m, w);
      StepsOn(m, w, ExecuteMemory(Advance(m, 2), w), ExecuteMemory(Advance(m, 4), w));
    } else if IsArithmeticOp(Opcode(w)) {
      ArithmeticIgnoresLength(m, w);
      ArithmeticNoTransfer(m, w);
      StepsOn(m, w, ExecuteArithmetic(Advance(m, 2), w, 2), ExecuteArithmetic(Advance(m, 4), w, 4));
    } else {
      ControlLength(m, w);
    }
  }

  lemma ArithmeticNoTransfer(m: Hart, w: bv64)
    requires IsArithmeticOp(Opcode(w))
    ensures !Transfers(m, w) && !Links(w)
  {
    hide Opcode, Transfers, Links;
    NoTransfer(m, w);
  }

  // ---------------------------------------------------------------------------
  // Compressed execution preserves meaning

  lemma LowBitClear(v: bv64)
    ensures ClearLowBit(v) == v <==> v & 1 == 0
  {
  }

  /** A register jump is its expansion exactly when its target is even. */
  lemma RegisterJumpIffEven(m: Hart, c: bv64)
    requires IsRegisterJump(c)
    ensures ExecCompressed(m, c) == Execute(m, Expand(c).value, 2) <==> GetX(m, CRd(c)) & 1 == 0
  {
    hide Quadrant, CFunct3, Bit12, CRd, CRs2, EncI, Execute, GetX, Add, ClearLowBit;
    var v := GetX(m, CRd(c));
    Bit12IsBit(c);
    LowBitClear(v);
    AddZero(v);
    EncodedJalr(m, 0, CRd(c), 2);
    EncodedJalr(m, RA, CRd(c), 2);
  }

  lemma Bit12IsBit(c: bv64)
    ensures Bit12(c) <= 1
  {
  }

  /** Every 16-bit word with an expansion, on every state: the compressed executor has exactly the effect of
      the general executor on the expanded word, at length 2 instead of 4, if and only if the word is not a
      jump through a register that holds an odd address. */
  lemma CompressedMatchesGeneral(m: Hart, c: bv64)
    requires Expand(c).Some?
    ensures var w := Expand(c).value;
            ExecCompressed(Advance(m, 2), c) == AtLengthTwo(m, w, Execute(Advance(m, 4), w, 4))
            <==> (IsRegisterJump(c) ==> GetX(m, CRd(c)) & 1 == 0)
  {
    hide Expand, Execute, IsRegisterJump, CRd, GetX, Add, AtLengthTwo;
    ExecuteAtLengthTwo(m, Expand(c).value);
    if IsRegisterJump(c) {
      GetIgnoresPc(m, Add(m.pc, 2), CRd(c));
      RegisterJumpIffEven(Advance(m, 2), c);
    }
  }
}
