/** What one 32-bit instruction does, as a function of the state.

    Every function here starts from a state whose pc has already been moved past the instruction;
    `len` is the length of the instruction, 4 for the general executor. */
module Executor {
  import opened Types
  import opened Words
  import opened Csr
  import opened HartState
  import opened Encoding
  import opened Alu

  type Result = (Hart, Outcome<()>)

  function Done(m: Hart): Result { (m, Ok(())) }

  function Raise(m: Hart, e: Exception): Result { (m, Err(e)) }

  /** Write the value into a register, or fail with the state as it is. */
  function PutX(m: Hart, rd: bv5, r: Outcome<bv64>): Result {
    match r
    case Ok(v) => (SetX(m, rd, v), Ok(()))
    case Err(e) => (m, Err(e))
    case Panic => (m, Panic)
  }

  /** After a store that succeeded, write a register. */
  function ThenPutX(w: Result, rd: bv5, v: bv64): Result {
    if w.1.Ok? then Done(SetX(w.0, rd, v)) else w
  }

  // ---------------------------------------------------------------------------
  // Loads and stores

  function LoadSize(f3: bv64): Outcome<Size> {
    if f3 == 0 || f3 == 4 then Ok(Byte)
    else if f3 == 1 || f3 == 5 then Ok(HalfWord)
    else if f3 == 2 || f3 == 6 then Ok(Word)
    else if f3 == 3 then Ok(DoubleWord)
    else Err(IllegalInstruction)
  }

  function ExtendLoad(f3: bv64, v: bv64): bv64 {
    if f3 == 0 then Sext8(v) else if f3 == 1 then Sext16(v) else if f3 == 2 then Sext32(v) else v
  }

  function LoadValue(m: Hart, f3: bv64, addr: bv64): Outcome<bv64> {
    var size :- LoadSize(f3);
    var v :- ReadMem(m, addr, size);
    Ok(ExtendLoad(f3, v))
  }

  function ExecLoad(m: Hart, f3: bv64, rd: bv5, addr: bv64): Result {
    PutX(m, rd, LoadValue(m, f3, addr))
  }

  function ExecStore(m: Hart, f3: bv64, addr: bv64, v: bv64): Result {
    if f3 == 0 then WriteMem(m, addr, v, Byte)
    else if f3 == 1 then WriteMem(m, addr, v, HalfWord)
    else if f3 == 2 then WriteMem(m, addr, v, Word)
    else if f3 == 3 then WriteMem(m, addr, v, DoubleWord)
    else Raise(m, IllegalInstruction)
  }

  /** flw and fld; the conversion of flw is the environment's. */
  function ExecFpLoad(m: Hart, f3: bv64, rd: bv5, addr: bv64): Result {
    if f3 == 2 then
      match ReadMem(m, addr, Word)
      case Ok(_) => Done(SetF(m, rd, m.bus.env.widened))
      case Err(e) => Raise(m, e)
      case Panic => (m, Panic)
    else if f3 == 3 then
      match ReadMem(m, addr, DoubleWord)
      case Ok(v) => Done(SetF(m, rd, v))
      case Err(e) => Raise(m, e)
      case Panic => (m, Panic)
    else Raise(m, IllegalInstruction)
  }

  function ExecFpStore(m: Hart, f3: bv64, addr: bv64, rs2: bv5): Result {
    if f3 == 2 then WriteMem(m, addr, m.bus.env.narrowed, Word)
    else if f3 == 3 then WriteMem(m, addr, GetF(m, rs2), DoubleWord)
    else Raise(m, IllegalInstruction)
  }

  function ExecFp(m: Hart, rd: bv5): Result {
    match m.bus.env.fp
    case IntoF(v) => Done(SetF(m, rd, v))
    case IntoX(v) => Done(SetX(m, rd, v))
    case FpIllegal => Raise(m, IllegalInstruction)
  }

  // ---------------------------------------------------------------------------
  // Atomics

  predicate IsAmo(f3: bv64, f5: bv64) {
    (f3 == 2 || f3 == 3) &&
    (f5 == 0x00 || f5 == 0x01 || f5 == 0x02 || f5 == 0x03 || f5 == 0x04 || f5 == 0x08 || f5 == 0x0c
     || f5 == 0x10 || f5 == 0x14 || f5 == 0x18 || f5 == 0x1c)
  }

  function AmoSize(f3: bv64): Size { if f3 == 2 then Word else DoubleWord }

  predicate IsNaturallyAligned(addr: bv64, size: Size) {
    addr % (if size == Word then 4 else 8) == 0
  }

  function AmoExtend(size: Size, v: bv64): bv64 { if size == Word then Sext32(v) else v }

  function AmoResult(size: Size, f5: bv64, t: bv64, b: bv64): Outcome<bv64> {
    if size == Word then AmoWord(f5, t, b) else AmoDouble(f5, t, b)
  }

  function ExecLr(m: Hart, size: Size, rd: bv5, addr: bv64): Result {
    if !IsNaturallyAligned(addr, size) then Raise(m, LoadAddressMisaligned)
    else
      match ReadMem(m, addr, size)
      case Ok(v) =>
        var m1 := SetX(m, rd, AmoExtend(size, v));
        Done(m1.(reserved := m1.reserved + [addr]))
      case Err(e) => Raise(m, e)
      case Panic => (m, Panic)
  }

  function ExecSc(m: Hart, size: Size, rd: bv5, addr: bv64, v: bv64): Result {
    if !IsNaturallyAligned(addr, size) then Raise(m, StoreAMOAddressMisaligned)
    else
      var m1 := m.(reserved := Without(m.reserved, addr));
      if addr in m.reserved then
        ThenPutX(WriteMem(m1, addr, v, size), rd, 0)
      else Done(SetX(m1, rd, 1))
  }

  /** The old word of an atomic operation and the word it stores. */
  function RmwWords(m: Hart, size: Size, f5: bv64, addr: bv64, b: bv64): Outcome<(bv64, bv64)> {
    var t :- ReadMem(m, addr, size);
    var v :- AmoResult(size, f5, t, b);
    Ok((t, v))
  }

  function ExecRmw(m: Hart, size: Size, f5: bv64, rd: bv5, addr: bv64, b: bv64): Result {
    if !IsNaturallyAligned(addr, size) then Raise(m, LoadAddressMisaligned)
    else
      match RmwWords(m, size, f5, addr, b)
      case Ok((t, v)) => ThenPutX(WriteMem(m, addr, v, size), rd, AmoExtend(size, t))
      case Err(e) => Raise(m, e)
      case Panic => (m, Panic)
  }

  function ExecAmo(m: Hart, f3: bv64, f5: bv64, rd: bv5, rs1: bv5, rs2: bv5): Result {
    if !IsAmo(f3, f5) then Raise(m, IllegalInstruction)
    else
      var addr, b, size := GetX(m, rs1), GetX(m, rs2), AmoSize(f3);
      if f5 == 0x02 then ExecLr(m, size, rd, addr)
      else if f5 == 0x03 then ExecSc(m, size, rd, addr, b)
      else ExecRmw(m, size, f5, rd, addr, b)
  }

  // ---------------------------------------------------------------------------
  // Control flow

  /** The pc of an instruction of length `len` that was already stepped over, moved by an offset. The
      source adds first and subtracts then, which is the same modulo 2^64. */
  function Moved(pc: bv64, offset: bv64, len: bv64): bv64 { Add(Sub(pc, len), offset) }

  function JumpTo(m: Hart, offset: bv64, len: bv64): Hart { m.(pc := Moved(m.pc, offset, len)) }

  function ExecBranch(m: Hart, f3: bv64, a: bv64, b: bv64, offset: bv64, len: bv64): Result {
    match Taken(f3, a, b)
    case Ok(taken) => Done(if taken then JumpTo(m, offset, len) else m)
    case Err(e) => Raise(m, e)
    case Panic => (m, Panic)
  }

  function ClearLowBit(v: bv64): bv64 { v & !1 }

  function ExecJalr(m: Hart, rd: bv5, target: bv64): Result {
    Done(SetX(m.(pc := ClearLowBit(target)), rd, m.pc))
  }

  function ExecJal(m: Hart, rd: bv5, offset: bv64, len: bv64): Result {
    Done(JumpTo(SetX(m, rd, m.pc), offset, len))
  }

  // ---------------------------------------------------------------------------
  // System

  function EnvironmentCall(mode: Mode): Exception {
    match mode
    case User => EnvironmentCallFromUMode
    case Supervisor => EnvironmentCallFromSMode
    case Machine => EnvironmentCallFromMMode
    case Debug => IllegalInstruction
  }

  /** SIE takes SPIE, SPIE is set, and SPP is cleared. */
  function PopSupervisor(c: Csrs): Csrs {
    var c1 := WriteBit(c, SSTATUS, 1, ReadBit(c, SSTATUS, 5));
    var c2 := WriteBit(c1, SSTATUS, 5, 1);
    WriteBit(c2, SSTATUS, 8, 0)
  }

  function Sret(m: Hart): Hart {
    var mode := if ReadBit(m.csr, SSTATUS, 8) == 0 then User else Supervisor;
    m.(pc := Csr.Read(m.csr, SEPC), mode := mode, csr := PopSupervisor(m.csr))
  }

  function ModeOf(mpp: bv64): Mode {
    if mpp == 0 then User else if mpp == 1 then Supervisor else if mpp == 3 then Machine else Debug
  }

  /** MIE takes MPIE, MPIE is set, and MPP is cleared. */
  function PopMachine(c: Csrs): Csrs {
    var c1 := WriteBit(c, MSTATUS, 3, ReadBit(c, MSTATUS, 7));
    var c2 := WriteBit(c1, MSTATUS, 7, 1);
    WriteBits(c2, MSTATUS, 11, 13, 0)
  }

  function Mret(m: Hart): Hart {
    m.(pc := Csr.Read(m.csr, MEPC), mode := ModeOf(ReadBits(m.csr, MSTATUS, 11, 13)), csr := PopMachine(m.csr))
  }

  function ExecPrivileged(m: Hart, rs2: bv5, f7: bv64): Result {
    if rs2 == 0 && f7 == 0 then Raise(m, EnvironmentCall(m.mode))
    else if rs2 == 1 && f7 == 0 then Raise(m, Breakpoint)
    else if rs2 == 2 && f7 == 0 then (m, Panic)
    else if rs2 == 2 && f7 == 0x8 then Done(Sret(m))
    else if rs2 == 2 && f7 == 0x18 then Done(Mret(m))
    else if rs2 == 5 && f7 == 0x8 then Done(m.(idle := true))
    else if f7 == 0x9 || f7 == 0x11 || f7 == 0x51 then Done(m)
    else Raise(m, IllegalInstruction)
  }

  function PageTableAt(ppn: bv64): bv64 { ppn * PAGE_SIZE }

  /** The cached translation mode and root, read from SATP. */
  function UpdatePaging(m: Hart): Hart {
    m.(pageTable := PageTableAt(ReadBits(m.csr, SATP, 0, 44)), paging := ReadBitsFrom(m.csr, SATP, 60) == 8)
  }

  /** The new value of a CSR: csrrw, csrrs and csrrc and their immediate forms. */
  function CsrValue(f3: bv64, old_: bv64, operand: bv64): bv64 {
    if f3 == 1 || f3 == 5 then operand else if f3 == 2 || f3 == 6 then old_ | operand else old_ & !operand
  }

  function ExecCsr(m: Hart, f3: bv64, rd: bv5, a: CsrAddress, operand: bv64): Result {
    var t := Csr.Read(m.csr, a);
    var m1 := SetX(m.(csr := Csr.Write(m.csr, a, CsrValue(f3, t, operand))), rd, t);
    Done(if a == SATP then UpdatePaging(m1) else m1)
  }

  function CsrOperand(m: Hart, f3: bv64, rs1: bv5): bv64 { if f3 < 4 then GetX(m, rs1) else rs1 as bv64 }

  function CsrField(w: bv64): CsrAddress { ((w >> 20) & 0xfff) as bv12 as int }

  function ExecSystem(m: Hart, w: bv64): Result {
    var f3 := Funct3(w);
    if f3 == 0 then ExecPrivileged(m, Rs2(w), Funct7(w))
    else if f3 == 4 then Raise(m, IllegalInstruction)
    else ExecCsr(m, f3, Rd(w), CsrField(w), CsrOperand(m, f3, Rs1(w)))
  }

  // ---------------------------------------------------------------------------
  // Dispatch

  /** A division by zero sets the DZ flag of FCSR. */
  function FlagDivision(m: Hart, divides: bool, zero: bool): Hart {
    if divides && zero then m.(csr := WriteBit(m.csr, FCSR, 3, 1)) else m
  }

  function ExecOp(m: Hart, f3: bv64, f7: bv64, rd: bv5, a: bv64, b: bv64): Result {
    PutX(FlagDivision(m, Divides(f3, f7), b == 0), rd, Op(f3, f7, a, b))
  }

  function ExecOp32(m: Hart, f3: bv64, f7: bv64, rd: bv5, a: bv64, b: bv64): Result {
    PutX(FlagDivision(m, Divides(f3, f7), Zext32(b) == 0), rd, Op32(f3, f7, a, b))
  }

  predicate IsFpArithmetic(op: bv64) {
    op == 0x43 || op == 0x47 || op == 0x4b || op == 0x4f || op == 0x53
  }

  predicate IsMemoryOp(op: bv64) {
    op == 0x03 || op == 0x07 || op == 0x23 || op == 0x27 || op == 0x2f
  }

  predicate IsArithmeticOp(op: bv64) {
    op == 0x13 || op == 0x17 || op == 0x1b || op == 0x33 || op == 0x37 || op == 0x3b || IsFpArithmetic(op)
  }

  function ExecuteMemory(m: Hart, w: bv64): Result
    requires IsMemoryOp(Opcode(w))
  {
    var op, f3, rd, a, b := Opcode(w), Funct3(w), Rd(w), GetX(m, Rs1(w)), GetX(m, Rs2(w));
    if op == 0x03 then ExecLoad(m, f3, rd, Add(a, ImmI(w)))
    else if op == 0x07 then ExecFpLoad(m, f3, rd, Add(a, ImmI(w)))
    else if op == 0x23 then ExecStore(m, f3, Add(a, ImmS(w)), b)
    else if op == 0x27 then ExecFpStore(m, f3, Add(a, ImmFpStore(w)), Rs2(w))
    else ExecAmo(m, f3, Funct5(w), rd, Rs1(w), Rs2(w))
  }

  function ExecuteArithmetic(m: Hart, w: bv64, len: bv64): Result
    requires IsArithmeticOp(Opcode(w))
  {
    var op, f3, rd, a, b := Opcode(w), Funct3(w), Rd(w), GetX(m, Rs1(w)), GetX(m, Rs2(w));
    if op == 0x13 then PutX(m, rd, OpImm(f3, Funct6(w), a, ImmI(w), Shamt6(w)))
    else if op == 0x17 then Done(SetX(m, rd, Moved(m.pc, ImmU(w), len)))
    else if op == 0x1b then PutX(m, rd, OpImm32(f3, Funct7(w), a, ImmI(w), Shamt5(w)))
    else if op == 0x33 then ExecOp(m, f3, Funct7(w), rd, a, b)
    else if op == 0x37 then Done(SetX(m, rd, ImmU(w)))
    else if op == 0x3b then ExecOp32(m, f3, Funct7(w), rd, a, b)
    else ExecFp(m, rd)
  }

  function ExecuteControl(m: Hart, w: bv64, len: bv64): Result {
    var op, f3, rd, a, b := Opcode(w), Funct3(w), Rd(w), GetX(m, Rs1(w)), GetX(m, Rs2(w));
    if op == 0x0f then if f3 == 0 || f3 == 1 then Done(m) else Raise(m, IllegalInstruction)
    else if op == 0x63 then ExecBranch(m, f3, a, b, ImmB(w), len)
    else if op == 0x67 then ExecJalr(m, rd, Add(a, ImmI(w)))
    else if op == 0x6f then ExecJal(m, rd, ImmJ(w), len)
    else if op == 0x73 then ExecSystem(m, w)
    else Raise(m, IllegalInstruction)
  }

  function Execute(m: Hart, w: bv64, len: bv64): Result {
    if IsMemoryOp(Opcode(w)) then ExecuteMemory(m, w)
    else if IsArithmeticOp(Opcode(w)) then ExecuteArithmetic(m, w, len)
    else ExecuteControl(m, w, len)
  }

  // ---------------------------------------------------------------------------
  // The instructions that write CSRs

  /** A CSR instruction. */
  predicate IsCsrOp(w: bv64) { Opcode(w) == 0x73 && Funct3(w) != 0 && Funct3(w) != 4 }

  /** mret or sret. */
  predicate IsReturn(w: bv64) {
    Opcode(w) == 0x73 && Funct3(w) == 0 && Rs2(w) == 2 && (Funct7(w) == 0x8 || Funct7(w) == 0x18)
  }

  predicate IsStatusOp(w: bv64) { IsCsrOp(w) || IsReturn(w) }

  /** A division, of 64 or of 32 bits. */
  predicate IsDivision(w: bv64) { (Opcode(w) == 0x33 || Opcode(w) == 0x3b) && Divides(Funct3(w), Funct7(w)) }

  /** A division whose divisor is zero. */
  predicate DividesByZero(m: Hart, w: bv64) {
    IsDivision(w) && (if Opcode(w) == 0x33 then GetX(m, Rs2(w)) else Zext32(GetX(m, Rs2(w)))) == 0
  }
}
