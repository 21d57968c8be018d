/** An instruction that raises an exception leaves no trace but its step over the pc and the
    reservation that a store drops. */
module PreciseExceptions {
  import opened Types
  import opened Words
  import opened Csr
  import opened Devices
  import opened HartState
  import opened Encoding
  import opened Alu
  import opened Executor
  import opened Compressed
  import opened Instruction

  /** `after` is `before` with at most one address no longer reserved. */
  ghost predicate Untouched(before: Hart, after: Hart) {
    after == before || exists a :: after == before.(reserved := Without(before.reserved, a))
  }

  ghost predicate Precise(m: Hart, r: Result) {
    r.1.Err? ==> Untouched(m, r.0)
  }

  lemma WritePrecise(m: Hart, va: bv64, v: bv64, size: Size)
    ensures Precise(m, WriteMem(m, va, v, size))
    ensures !WriteMem(m, va, v, size).1.Ok? ==>
              WriteMem(m, va, v, size).0 == m.(reserved := Without(m.reserved, va))
  {
    hide BusWrite, Paging.Walk, Phys, Without;
    var pa := HartState.Translate(m, va, AccessType.Load);
    if pa.Ok? {
      WriteKeepsShape(m.bus, Phys(pa.value), v, size);
    }
  }

  lemma StorePrecise(m: Hart, f3: bv64, addr: bv64, v: bv64)
    ensures Precise(m, ExecStore(m, f3, addr, v))
  {
    hide WriteMem, Precise, Without;
    WritePrecise(m, addr, v, Byte);
    WritePrecise(m, addr, v, HalfWord);
    WritePrecise(m, addr, v, Word);
    WritePrecise(m, addr, v, DoubleWord);
    RaisePrecise(m, IllegalInstruction);
  }

  lemma RaisePrecise(m: Hart, e: Exception)
    ensures Precise(m, Raise(m, e))
  {
  }

  lemma FpStorePrecise(m: Hart, f3: bv64, addr: bv64, rs2: bv5)
    ensures Precise(m, ExecFpStore(m, f3, addr, rs2))
  {
    hide WriteMem, Precise, GetF;
    WritePrecise(m, addr, m.bus.env.narrowed, Word);
    WritePrecise(m, addr, GetF(m, rs2), DoubleWord);
    RaisePrecise(m, IllegalInstruction);
  }

  lemma ScPrecise(m: Hart, size: Size, rd: bv5, addr: bv64, v: bv64)
    ensures Precise(m, ExecSc(m, size, rd, addr, v))
  {
    hide WriteMem, IsNaturallyAligned, Without, SetX;
    WritePrecise(m.(reserved := Without(m.reserved, addr)), addr, v, size);
    WithoutTwice(m.reserved, addr);
  }

  lemma RmwPrecise(m: Hart, size: Size, f5: bv64, rd: bv5, addr: bv64, b: bv64)
    ensures Precise(m, ExecRmw(m, size, f5, rd, addr, b))
  {
    hide WriteMem, IsNaturallyAligned, RmwWords, SetX, AmoExtend;
    var w := RmwWords(m, size, f5, addr, b);
    if w.Ok? {
      WritePrecise(m, addr, w.value.1, size);
    }
  }

  lemma AmoPrecise(m: Hart, f3: bv64, f5: bv64, rd: bv5, rs1: bv5, rs2: bv5)
    ensures Precise(m, ExecAmo(m, f3, f5, rd, rs1, rs2))
  {
    hide ExecSc, ExecRmw, GetX, SetX, AmoSize, IsAmo, ReadMem, AmoExtend, IsNaturallyAligned;
    ScPrecise(m, AmoSize(f3), rd, GetX(m, rs1), GetX(m, rs2));
    RmwPrecise(m, AmoSize(f3), f5, rd, GetX(m, rs1), GetX(m, rs2));
  }

  lemma MemoryPrecise(m: Hart, w: bv64)
    requires IsMemoryOp(Opcode(w))
    ensures Precise(m, ExecuteMemory(m, w))
  {
    hide Opcode, Funct3, Funct5, Rd, Rs1, Rs2, ImmI, ImmS, ImmFpStore, Add, GetX, SetX, SetF, ExecStore;
    hide ExecFpStore, ExecAmo, ReadMem, LoadValue;
    var f3, a := Funct3(w), GetX(m, Rs1(w));
    StorePrecise(m, f3, Add(a, ImmS(w)), GetX(m, Rs2(w)));
    FpStorePrecise(m, f3, Add(a, ImmFpStore(w)), Rs2(w));
    AmoPrecise(m, f3, Funct5(w), Rd(w), Rs1(w), Rs2(w));
  }

  lemma ArithmeticPrecise(m: Hart, w: bv64, len: bv64)
    requires IsArithmeticOp(Opcode(w))
    ensures Precise(m, ExecuteArithmetic(m, w, len))
  {
    hide Opcode, Funct3, Funct6, Funct7, Rd, Rs1, Rs2, ImmI;
    hide ImmU, Shamt5, Shamt6, Moved, OpImm, OpImm32, GetX, SetX, SetF;
    hide IsFpArithmetic, ExecOp, ExecOp32;
    OpPrecise(m, Funct3(w), Funct7(w), Rd(w), GetX(m, Rs1(w)), GetX(m, Rs2(w)));
  }

  lemma OpPrecise(m: Hart, f3: bv64, f7: bv64, rd: bv5, a: bv64, b: bv64)
    ensures Precise(m, ExecOp(m, f3, f7, rd, a, b)) && Precise(m, ExecOp32(m, f3, f7, rd, a, b))
  {
    hide Op, Op32, SetX, Zext32, WriteBit;
    DividesIsDefined(f3, f7, a, b);
  }

  /** A division is never refused, so a refused operation has set no flag. */
  lemma DividesIsDefined(f3: bv64, f7: bv64, a: bv64, b: bv64)
    ensures Divides(f3, f7) ==> Op(f3, f7, a, b).Ok? && Op32(f3, f7, a, b).Ok?
    ensures !Op(f3, f7, a, b).Panic? && !Op32(f3, f7, a, b).Panic?
  {
    hide Div, Divu, Divw, Divuw, Mul, Mulh, Mulhsu, Mulhu, Remainder;
    hide Remu, Remw, Remuw, Add, Sub, And, Or, Xor, Shl, Shr;
    hide Asr, Sext32, Zext32, Low5, Low6, SignedLess, Wrap32, S32;
  }

  lemma ControlPrecise(m: Hart, w: bv64, len: bv64)
    ensures Precise(m, ExecuteControl(m, w, len))
  {
    hide Opcode, Funct3, Funct7, Rd, Rs1, Rs2, ImmI, ImmB, ImmJ, Moved, GetX, SetX, Taken, ClearLowBit, Sret, Mret;
    hide EnvironmentCall, CsrField, ExecCsr;
    CsrNeverFails(m, Funct3(w), Rd(w), CsrField(w), CsrOperand(m, Funct3(w), Rs1(w)));
  }

  lemma CsrNeverFails(m: Hart, f3: bv64, rd: bv5, a: CsrAddress, operand: bv64)
    ensures ExecCsr(m, f3, rd, a, operand).1 == Ok(())
  {
    hide Csr.Read, Csr.Write, CsrValue, SetX, UpdatePaging;
  }

  lemma ExecutePrecise(m: Hart, w: bv64, len: bv64)
    ensures Precise(m, Execute(m, w, len))
  {
    hide Opcode, IsMemoryOp, IsArithmeticOp, ExecuteMemory, ExecuteArithmetic, ExecuteControl, Precise;
    if IsMemoryOp(Opcode(w)) {
      MemoryPrecise(m, w);
    } else if IsArithmeticOp(Opcode(w)) {
      ArithmeticPrecise(m, w, len);
    } else {
      ControlPrecise(m, w, len);
    }
  }

  lemma CompressedPrecise(m: Hart, c: bv64)
    ensures Precise(m, ExecCompressed(m, c))
  {
    hide Expand, Execute, CRd, GetX, Quadrant, CFunct3;
    if Expand(c).Some? {
      var w := Expand(c).value;
      ExecutePrecise(m, w, 2);
      if IsRegisterJump(c) {
        RegisterJumpSucceeds(m, c);
      }
    }
  }

  lemma RegisterJumpSucceeds(m: Hart, c: bv64)
    requires IsRegisterJump(c)
    ensures Expand(c).Some? && Execute(m, Expand(c).value, 2).1 == Ok(())
  {
    hide Quadrant, CFunct3, Bit12, CRd, CRs2, EncI, Execute, GetX, SetX, Add, ClearLowBit;
    EncodedJalr(m, 0, CRd(c), 2);
    EncodedJalr(m, RA, CRd(c), 2);
  }

  /** Every instruction, on every state: an exception leaves registers, CSRs, mode, memory and devices
      as they were, steps the pc over 0, 2 or 4 bytes, and drops at most one reservation. */
  lemma ExceptionsArePrecise(m: Hart)
    requires StepInstruction(m).1.Err?
    ensures exists pc :: (pc == m.pc || pc == Add(m.pc, 2) || pc == Add(m.pc, 4))
                         && Untouched(m.(pc := pc), StepInstruction(m).0)
  {
    hide Fetch, Execute, ExecCompressed, Quadrant, Add, Untouched;
    var f := Fetch(m, HalfWord);
    if !f.Ok? || (Quadrant(f.value) != 3 && f.value == 0) {
      SamePc(m);
    } else if Quadrant(f.value) != 3 {
      CompressedPrecise(Advance(m, 2), f.value);
      assert Untouched(m.(pc := Add(m.pc, 2)), StepInstruction(m).0);
    } else if Fetch(m, Word).Ok? {
      ExecutePrecise(Advance(m, 4), Fetch(m, Word).value, 4);
      assert Untouched(m.(pc := Add(m.pc, 4)), StepInstruction(m).0);
    } else {
      SamePc(m);
    }
  }

  lemma SamePc(m: Hart)
    ensures Untouched(m.(pc := m.pc), m)
  {
  }
}
