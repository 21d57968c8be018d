/** Which faults the translation, an access and an instruction can raise. */
module Faults {
  import opened Types
  import opened Words
  import opened Csr
  import opened Devices
  import opened Paging
  import opened HartState
  import opened Encoding
  import opened Alu
  import opened Executor
  import opened Compressed
  import opened Instruction

  /** A fault of a translation for this kind of access: of the bus in the walk, or of the page. */
  predicate IsTranslationFault(e: Exception, acc: AccessType) { e == LoadAccessFault || e == PageFault(acc) }

  lemma {:induction false} FindLeafFaults(b: Bus, va: bv64, acc: AccessType, table: bv64, level: Level)
    ensures var r := FindLeaf(b, va, acc, table, level); r.Err? ==> IsTranslationFault(r.error, acc)
    decreases level
  {
    hide BusRead, PteAddress, IsUsable, IsLeaf, PageBase;
    var p := PteAddress(table, va, level);
    BusReadError(b, p, DoubleWord);
    var pte := BusRead(b, p, DoubleWord);
    if pte.Ok? && level > 0 {
      FindLeafFaults(b, va, acc, PageBase(pte.value), level - 1);
    }
  }

  /** A translation fails with a load access fault or with the page fault of its access type. */
  lemma TranslationFaults(m: Hart, va: bv64, acc: AccessType)
    ensures var r := Translate(m, va, acc); r.Err? ==> IsTranslationFault(r.error, acc)
  {
    hide FindLeaf, IsAligned, PageAddress;
    FindLeafFaults(m.bus, va, acc, m.pageTable, 2);
  }

  lemma ReadFaults(m: Hart, va: bv64, size: Size)
    ensures var r := ReadMem(m, va, size); r.Err? ==> r.error == LoadAccessFault || r.error == LoadPageFault
  {
    hide Translate, BusRead, Phys;
    TranslationFaults(m, va, AccessType.Load);
    var pa := Translate(m, va, AccessType.Load);
    if pa.Ok? {
      BusReadError(m.bus, Phys(pa.value), size);
    }
  }

  /** A store fails as a load does, or with a store access fault of the bus: never with a store page fault. */
  lemma WriteFaults(m: Hart, va: bv64, v: bv64, size: Size)
    ensures var r := WriteMem(m, va, v, size).1;
            r.Err? ==> r.error == LoadAccessFault || r.error == LoadPageFault || r.error == StoreAMOAccessFault
  {
    hide Translate, BusWrite, Phys, Without;
    TranslationFaults(m, va, AccessType.Load);
    var pa := Translate(m, va, AccessType.Load);
    if pa.Ok? {
      BusWriteError(m.bus, Phys(pa.value), v, size);
    }
  }

  lemma FetchFaults(m: Hart, size: Size)
    ensures var r := Fetch(m, size);
            r.Err? ==> r.error == LoadAccessFault || r.error == InstructionPageFault
                       || r.error == InstructionAccessFault
  {
    hide Translate, BusRead, Phys;
    TranslationFaults(m, m.pc, AccessType.Instruction);
  }

  // ---------------------------------------------------------------------------
  // No instruction raises a store page fault

  predicate NoStorePageFault<T(==)>(r: Outcome<T>) { r.Err? ==> r.error != StoreAMOPageFault }

  lemma StoreFaults(m: Hart, f3: bv64, addr: bv64, v: bv64)
    ensures NoStorePageFault(ExecStore(m, f3, addr, v).1)
  {
    hide WriteMem;
    WriteFaults(m, addr, v, Byte);
    WriteFaults(m, addr, v, HalfWord);
    WriteFaults(m, addr, v, Word);
    WriteFaults(m, addr, v, DoubleWord);
  }

  lemma FpStoreFaults(m: Hart, f3: bv64, addr: bv64, rs2: bv5)
    ensures NoStorePageFault(ExecFpStore(m, f3, addr, rs2).1)
  {
    hide WriteMem, GetF;
    WriteFaults(m, addr, m.bus.env.narrowed, Word);
    WriteFaults(m, addr, GetF(m, rs2), DoubleWord);
  }

  lemma LoadFaults(m: Hart, f3: bv64, rd: bv5, addr: bv64)
    ensures NoStorePageFault(ExecLoad(m, f3, rd, addr).1)
  {
    hide ReadMem, ExtendLoad, SetX;
    var size := LoadSize(f3);
    if size.Ok? {
      ReadFaults(m, addr, size.value);
    }
  }

  lemma FpLoadFaults(m: Hart, f3: bv64, rd: bv5, addr: bv64)
    ensures NoStorePageFault(ExecFpLoad(m, f3, rd, addr).1)
  {
    hide ReadMem, SetF;
    ReadFaults(m, addr, Word);
    ReadFaults(m, addr, DoubleWord);
  }

  lemma LrFaults(m: Hart, size: Size, rd: bv5, addr: bv64)
    ensures NoStorePageFault(ExecLr(m, size, rd, addr).1)
  {
    hide ReadMem, SetX, IsNaturallyAligned, AmoExtend;
    ReadFaults(m, addr, size);
  }

  lemma ScFaults(m: Hart, size: Size, rd: bv5, addr: bv64, v: bv64)
    ensures NoStorePageFault(ExecSc(m, size, rd, addr, v).1)
  {
    hide WriteMem, SetX, IsNaturallyAligned, Without;
    WriteFaults(m.(reserved := Without(m.reserved, addr)), addr, v, size);
  }

  lemma RmwFaults(m: Hart, size: Size, f5: bv64, rd: bv5, addr: bv64, b: bv64)
    ensures NoStorePageFault(ExecRmw(m, size, f5, rd, addr, b).1)
  {
    hide ReadMem, WriteMem, SetX, IsNaturallyAligned, AmoExtend, AmoResult;
    ReadFaults(m, addr, size);
    var t := ReadMem(m, addr, size);
    if t.Ok? {
      AmoNeverFaults(size, f5, t.value, b);
      var v := AmoResult(size, f5, t.value, b);
      if v.Ok? {
        WriteFaults(m, addr, v.value, size);
      }
    }
  }

  lemma AmoNeverFaults(size: Size, f5: bv64, t: bv64, b: bv64)
    ensures NoStorePageFault(AmoResult(size, f5, t, b))
  {
    hide Sext32, Zext32, SignedLess, Below;
  }

  lemma AmoFaults(m: Hart, f3: bv64, f5: bv64, rd: bv5, rs1: bv5, rs2: bv5)
    ensures NoStorePageFault(ExecAmo(m, f3, f5, rd, rs1, rs2).1)
  {
    hide ExecLr, ExecSc, ExecRmw, GetX, IsAmo, AmoSize;
    LrFaults(m, AmoSize(f3), rd, GetX(m, rs1));
    ScFaults(m, AmoSize(f3), rd, GetX(m, rs1), GetX(m, rs2));
    RmwFaults(m, AmoSize(f3), f5, rd, GetX(m, rs1), GetX(m, rs2));
  }

  lemma MemoryFaults(m: Hart, w: bv64)
    requires IsMemoryOp(Opcode(w))
    ensures NoStorePageFault(ExecuteMemory(m, w).1)
  {
    hide Opcode, Funct3, Funct5, Rd, Rs1, Rs2, ImmI, ImmS, ImmFpStore, Add, GetX, ExecLoad, ExecFpLoad, ExecStore;
    hide ExecFpStore, ExecAmo, NoStorePageFault;
    var f3, rd, a := Funct3(w), Rd(w), GetX(m, Rs1(w));
    LoadFaults(m, f3, rd, Add(a, ImmI(w)));
    FpLoadFaults(m, f3, rd, Add(a, ImmI(w)));
    StoreFaults(m, f3, Add(a, ImmS(w)), GetX(m, Rs2(w)));
    FpStoreFaults(m, f3, Add(a, ImmFpStore(w)), Rs2(w));
    AmoFaults(m, f3, Funct5(w), rd, Rs1(w), Rs2(w));
  }

  lemma OpFaults(f3: bv64, f7: bv64, a: bv64, b: bv64)
    ensures NoStorePageFault(Op(f3, f7, a, b))
  {
    hide Add, Sub, And, Or, Xor, Shl, Shr, Asr, Sext32, Zext32, Low5, Low6, SignedLess, Below, Flag;
    hide Mul, Mulh, Mulhsu, Mulhu, Div, Divu, Remainder, Remu, Divw, Divuw, Remw, Remuw, Wrap32, S32;
  }

  lemma Op32Faults(f3: bv64, f7: bv64, a: bv64, b: bv64)
    ensures NoStorePageFault(Op32(f3, f7, a, b))
  {
    hide Add, Sub, And, Or, Xor, Shl, Shr, Asr, Sext32, Zext32, Low5, Low6, SignedLess, Below, Flag;
    hide Mul, Mulh, Mulhsu, Mulhu, Div, Divu, Remainder, Remu, Divw, Divuw, Remw, Remuw, Wrap32, S32;
  }

  lemma ImmediateFaults(f3: bv64, f6: bv64, f7: bv64, a: bv64, b: bv64, shamt: bv6)
    ensures NoStorePageFault(OpImm(f3, f6, a, b, shamt)) && NoStorePageFault(OpImm32(f3, f7, a, b, shamt))
  {
    hide Add, Sub, And, Or, Xor, Shl, Shr, Asr, Sext32, Zext32, Low5, Low6, SignedLess, Below, Flag;
  }

  lemma ArithmeticFaults(m: Hart, w: bv64, len: bv64)
    requires IsArithmeticOp(Opcode(w))
    ensures NoStorePageFault(ExecuteArithmetic(m, w, len).1)
  {
    hide Opcode, Funct3, Funct6, Funct7, Rd, Rs1, Rs2, ImmI, ImmU, Shamt5, Shamt6, Moved, GetX, SetX, SetF;
    hide Op, Op32, OpImm, OpImm32, Divides, Zext32, WriteBit, IsFpArithmetic;
    var f3, f6, f7, a, b := Funct3(w), Funct6(w), Funct7(w), GetX(m, Rs1(w)), GetX(m, Rs2(w));
    OpFaults(f3, f7, a, b);
    Op32Faults(f3, f7, a, b);
    ImmediateFaults(f3, f6, f7, a, ImmI(w), Shamt6(w));
    ImmediateFaults(f3, f6, f7, a, ImmI(w), Shamt5(w));
  }

  lemma ControlFaults(m: Hart, w: bv64, len: bv64)
    ensures NoStorePageFault(ExecuteControl(m, w, len).1)
  {
    hide Opcode, Funct3, Funct7, Rd, Rs1, Rs2, ImmI, ImmB, ImmJ, Moved, Add, GetX, SetX, Below, SignedLess, ClearLowBit;
    hide CsrField, CsrOperand, CsrValue, Csr.Read, Csr.Write, UpdatePaging, Sret, Mret;
  }

  lemma ExecuteFaults(m: Hart, w: bv64, len: bv64)
    ensures NoStorePageFault(Execute(m, w, len).1)
  {
    hide Opcode, IsMemoryOp, IsArithmeticOp, ExecuteMemory, ExecuteArithmetic, ExecuteControl, NoStorePageFault;
    if IsMemoryOp(Opcode(w)) {
      MemoryFaults(m, w);
    } else if IsArithmeticOp(Opcode(w)) {
      ArithmeticFaults(m, w, len);
    } else {
      ControlFaults(m, w, len);
    }
  }

  /** No instruction, compressed or not, on any state, raises a store page fault: stores are translated
      as loads are. */
  lemma NoStorePageFaults(m: Hart)
    ensures NoStorePageFault(StepInstruction(m).1)
  {
    hide Fetch, Execute, Expand, Quadrant, IsRegisterJump, CRd, GetX, CFunct3, Add;
    FetchFaults(m, HalfWord);
    FetchFaults(m, Word);
    var c, w := Fetch(m, HalfWord), Fetch(m, Word);
    if w.Ok? {
      ExecuteFaults(Advance(m, 4), w.value, 4);
    }
    if c.Ok? && Expand(c.value).Some? {
      ExecuteFaults(Advance(m, 2), Expand(c.value).value, 2);
    }
  }
}
