/** The C extension: each 16-bit word as the 32-bit word it stands for (chapter 16 of the RISC-V
    Unprivileged ISA). */
module Compressed {
  import opened Types
  import opened Words
  import opened HartState
  import opened Encoding
  import opened Alu
  import opened Executor

  // ---------------------------------------------------------------------------
  // Fields of a 16-bit word

  function Quadrant(c: bv64): bv64 { c & 3 }
  function CFunct3(c: bv64): bv64 { (c >> 13) & 7 }
  function Bit12(c: bv64): bv64 { (c >> 12) & 1 }
  function AluKind(c: bv64): bv64 { (c >> 10) & 3 }
  function AluSub(c: bv64): bv64 { (c >> 5) & 3 }
  function CRd(c: bv64): bv5 { ((c >> 7) & 0x1f) as bv5 }
  function CRs2(c: bv64): bv5 { ((c >> 2) & 0x1f) as bv5 }
  // The popular registers x8 to x15.
  function CRdShort(c: bv64): bv5 { (((c >> 7) & 7) | 8) as bv5 }
  function CRs2Short(c: bv64): bv5 { (((c >> 2) & 7) | 8) as bv5 }

  // Immediates, bit group by bit group from the instruction formats.
  function Imm6(c: bv64): bv64 {
    (if c & 0x1000 != 0 then 0xffff_ffff_ffff_ffe0 else 0) | ((c >> 2) & 0x1f)
  }

  function ImmShamt(c: bv64): bv64 { (((c >> 12) & 1) << 5) | ((c >> 2) & 0x1f) }

  // srai carries a one above its shift count.
  function SraiImm(c: bv64): bv64 { 0x400 | ImmShamt(c) }

  function ImmAddi4spn(c: bv64): bv64 {
    (((c >> 11) & 3) << 4) | (((c >> 7) & 0xf) << 6) | (((c >> 6) & 1) << 2) | (((c >> 5) & 1) << 3)
  }

  function ImmLw(c: bv64): bv64 {
    (((c >> 10) & 7) << 3) | (((c >> 6) & 1) << 2) | (((c >> 5) & 1) << 6)
  }

  function ImmLd(c: bv64): bv64 { (((c >> 10) & 7) << 3) | (((c >> 5) & 3) << 6) }

  function ImmAddi16sp(c: bv64): bv64 {
    (if c & 0x1000 != 0 then 0xffff_ffff_ffff_fe00 else 0)
    | (((c >> 6) & 1) << 4) | (((c >> 5) & 1) << 6) | (((c >> 3) & 3) << 7) | (((c >> 2) & 1) << 5)
  }

  function ImmLui(c: bv64): bv64 {
    (if c & 0x1000 != 0 then 0xffff_ffff_fffe_0000 else 0) | (((c >> 2) & 0x1f) << 12)
  }

  function ImmCj(c: bv64): bv64 {
    (if c & 0x1000 != 0 then 0xffff_ffff_ffff_f800 else 0)
    | (((c >> 11) & 1) << 4) | (((c >> 9) & 3) << 8) | (((c >> 8) & 1) << 10) | (((c >> 7) & 1) << 6)
    | (((c >> 6) & 1) << 7) | (((c >> 3) & 7) << 1) | (((c >> 2) & 1) << 5)
  }

  function ImmCb(c: bv64): bv64 {
    (if c & 0x1000 != 0 then 0xffff_ffff_ffff_ff00 else 0)
    | (((c >> 10) & 3) << 3) | (((c >> 5) & 3) << 6) | (((c >> 3) & 3) << 1) | (((c >> 2) & 1) << 5)
  }

  function ImmLwsp(c: bv64): bv64 {
    (((c >> 12) & 1) << 5) | (((c >> 4) & 7) << 2) | (((c >> 2) & 3) << 6)
  }

  function ImmLdsp(c: bv64): bv64 {
    (((c >> 12) & 1) << 5) | (((c >> 5) & 3) << 3) | (((c >> 2) & 7) << 6)
  }

  function ImmSwsp(c: bv64): bv64 { (((c >> 9) & 0xf) << 2) | (((c >> 7) & 3) << 6) }

  function ImmSdsp(c: bv64): bv64 { (((c >> 10) & 7) << 3) | (((c >> 7) & 7) << 6) }

  // ---------------------------------------------------------------------------
  // Expansion

  const SP: bv5 := 2
  const RA: bv5 := 1
  const EBREAK: bv64 := 0x0010_0073

  function Expand0(c: bv64): Option<bv64> {
    var f3, rd, rs1 := CFunct3(c), CRs2Short(c), CRdShort(c);
    if f3 == 0 then if ImmAddi4spn(c) == 0 then None else Some(EncI(0x13, 0, rd, SP, ImmAddi4spn(c)))
    else if f3 == 1 then Some(EncI(0x07, 3, rd, rs1, ImmLd(c)))
    else if f3 == 2 then Some(EncI(0x03, 2, rd, rs1, ImmLw(c)))
    else if f3 == 3 then Some(EncI(0x03, 3, rd, rs1, ImmLd(c)))
    else if f3 == 4 then None
    else if f3 == 5 then Some(EncS(0x27, 3, rs1, rd, ImmLd(c)))
    else if f3 == 6 then Some(EncS(0x23, 2, rs1, rd, ImmLw(c)))
    else Some(EncS(0x23, 3, rs1, rd, ImmLd(c)))
  }

  /** MISC-ALU: shifts, andi and the register-register operations on popular registers. */
  function ExpandAlu(c: bv64): Option<bv64> {
    var kind, sub, rd, rs2 := AluKind(c), AluSub(c), CRdShort(c), CRs2Short(c);
    if kind == 0 then Some(EncI(0x13, 5, rd, rd, ImmShamt(c)))
    else if kind == 1 then Some(EncI(0x13, 5, rd, rd, SraiImm(c)))
    else if kind == 2 then Some(EncI(0x13, 7, rd, rd, Imm6(c)))
    else if Bit12(c) == 0 then
      if sub == 0 then Some(EncR(0x33, 0, 0x20, rd, rd, rs2))
      else if sub == 1 then Some(EncR(0x33, 4, 0, rd, rd, rs2))
      else if sub == 2 then Some(EncR(0x33, 6, 0, rd, rd, rs2))
      else Some(EncR(0x33, 7, 0, rd, rd, rs2))
    else if sub == 0 then Some(EncR(0x3b, 0, 0x20, rd, rd, rs2))
    else if sub == 1 then Some(EncR(0x3b, 0, 0, rd, rd, rs2))
    else None
  }

  function Expand1(c: bv64): Option<bv64> {
    var f3, rd := CFunct3(c), CRd(c);
    if f3 == 0 then Some(EncI(0x13, 0, rd, rd, Imm6(c)))
    else if f3 == 1 then Some(EncI(0x1b, 0, rd, rd, Imm6(c)))
    else if f3 == 2 then Some(EncI(0x13, 0, rd, 0, Imm6(c)))
    else if f3 == 3 then
      if rd == SP then if ImmAddi16sp(c) == 0 then None else Some(EncI(0x13, 0, SP, SP, ImmAddi16sp(c)))
      else if ImmLui(c) == 0 then None
      else Some(EncU(0x37, rd, ImmLui(c)))
    else if f3 == 4 then ExpandAlu(c)
    else if f3 == 5 then Some(EncJ(0, ImmCj(c)))
    else if f3 == 6 then Some(EncB(0, CRdShort(c), 0, ImmCb(c)))
    else Some(EncB(1, CRdShort(c), 0, ImmCb(c)))
  }

  /** Jumps, moves and additions of full registers. */
  function ExpandCr(c: bv64): Option<bv64> {
    var rd, rs2 := CRd(c), CRs2(c);
    if Bit12(c) == 0 then
      if rs2 == 0 then if rd == 0 then None else Some(EncI(0x67, 0, 0, rd, 0))
      else Some(EncR(0x33, 0, 0, rd, 0, rs2))
    else if rs2 == 0 then if rd == 0 then Some(EBREAK) else Some(EncI(0x67, 0, RA, rd, 0))
    else Some(EncR(0x33, 0, 0, rd, rd, rs2))
  }

  function Expand2(c: bv64): Option<bv64> {
    var f3, rd, rs2 := CFunct3(c), CRd(c), CRs2(c);
    if f3 == 0 then Some(EncI(0x13, 1, rd, rd, ImmShamt(c)))
    else if f3 == 1 then Some(EncI(0x07, 3, rd, SP, ImmLdsp(c)))
    else if f3 == 2 then Some(EncI(0x03, 2, rd, SP, ImmLwsp(c)))
    else if f3 == 3 then Some(EncI(0x03, 3, rd, SP, ImmLdsp(c)))
    else if f3 == 4 then ExpandCr(c)
    else if f3 == 5 then Some(EncS(0x27, 3, SP, rs2, ImmSdsp(c)))
    else if f3 == 6 then Some(EncS(0x23, 2, SP, rs2, ImmSwsp(c)))
    else Some(EncS(0x23, 3, SP, rs2, ImmSdsp(c)))
  }

  /** The 32-bit instruction that a 16-bit word stands for; none for the reserved words. */
  function Expand(c: bv64): Option<bv64> {
    if Quadrant(c) == 0 then Expand0(c)
    else if Quadrant(c) == 1 then Expand1(c)
    else if Quadrant(c) == 2 then Expand2(c)
    else None
  }

  /** c.jr and c.jalr: the jumps through a register. */
  predicate IsRegisterJump(c: bv64) {
    Quadrant(c) == 2 && CFunct3(c) == 4 && CRs2(c) == 0 && CRd(c) != 0
  }

  /** What the source does with a word that stands for nothing. */
  function ReservedEffect(m: Hart, c: bv64): Result {
    if Quadrant(c) == 0 && CFunct3(c) == 4 then (m, Panic)
    else if Quadrant(c) == 1 && CFunct3(c) == 3 then Done(m)
    else if Quadrant(c) == 2 then Done(m)
    else Raise(m, IllegalInstruction)
  }

  /** Running a 16-bit word is running its expansion with length 2, except that a register jump
      does not clear the low bit of its target. */
  function ExecCompressed(m: Hart, c: bv64): Result {
    match Expand(c)
    case None => ReservedEffect(m, c)
    case Some(w) =>
      var r := Execute(m, w, 2);
      if IsRegisterJump(c) then (r.0.(pc := GetX(m, CRd(c))), r.1) else r
  }

  // ---------------------------------------------------------------------------
  // The effect of an encoded instruction

  lemma EncodedOpImm(m: Hart, f3: bv64, rd: bv5, rs1: bv5, imm: bv64, len: bv64)
    requires Op3(f3) && FitsI(imm)
    ensures Execute(m, EncI(0x13, f3, rd, rs1, imm), len)
            == PutX(m, rd, OpImm(f3, (imm >> 6) & 0x3f, GetX(m, rs1), imm, Low6(imm)))
  {
    hide Opcode, Rd, Rs1, Rs2, Funct3, Funct6, Funct7, ImmI, Shamt6, EncI, FitsI, Op3, PutX, OpImm, GetX;
    IOpcode(0x13, f3, rd, rs1, imm);
    IRd(0x13, f3, rd, rs1, imm);
    IRs1(0x13, f3, rd, rs1, imm);
    IFunct3(0x13, f3, rd, rs1, imm);
    IImm(0x13, f3, rd, rs1, imm);
    IShamt6(0x13, f3, rd, rs1, imm);
    IFunct6(0x13, f3, rd, rs1, imm);
  }

  lemma EncodedAddiw(m: Hart, rd: bv5, rs1: bv5, imm: bv64, len: bv64)
    requires FitsI(imm)
    ensures Execute(m, EncI(0x1b, 0, rd, rs1, imm), len) == PutX(m, rd, Ok(Sext32(Add(GetX(m, rs1), imm))))
  {
    hide Opcode, Rd, Rs1, Rs2, Funct3, Funct6, Funct7, ImmI, ImmS, ImmB, ImmU, ImmJ, ImmFpStore, Shamt6, Shamt5;
    hide GetX, PutX, EncI, FitsI, Sext32, Add;
    IOpcode(0x1b, 0, rd, rs1, imm);
    IRd(0x1b, 0, rd, rs1, imm);
    IRs1(0x1b, 0, rd, rs1, imm);
    IFunct3(0x1b, 0, rd, rs1, imm);
    IImm(0x1b, 0, rd, rs1, imm);
  }

  lemma EncodedLoad(m: Hart, f3: bv64, rd: bv5, rs1: bv5, imm: bv64, len: bv64)
    requires Op3(f3) && FitsI(imm)
    ensures Execute(m, EncI(0x03, f3, rd, rs1, imm), len) == ExecLoad(m, f3, rd, Add(GetX(m, rs1), imm))
  {
    hide Opcode, Rd, Rs1, Rs2, Funct3, Funct6, Funct7, ImmI, ImmS, ImmB, ImmU, ImmJ, ImmFpStore, Shamt6, Shamt5;
    hide Add, GetX, PutX, EncI, FitsI, Op3, ExecLoad;
    IOpcode(0x03, f3, rd, rs1, imm);
    IRd(0x03, f3, rd, rs1, imm);
    IRs1(0x03, f3, rd, rs1, imm);
    IFunct3(0x03, f3, rd, rs1, imm);
    IImm(0x03, f3, rd, rs1, imm);
  }

  lemma EncodedFpLoad(m: Hart, f3: bv64, rd: bv5, rs1: bv5, imm: bv64, len: bv64)
    requires Op3(f3) && FitsI(imm)
    ensures Execute(m, EncI(0x07, f3, rd, rs1, imm), len) == ExecFpLoad(m, f3, rd, Add(GetX(m, rs1), imm))
  {
    hide Opcode, Rd, Rs1, Rs2, Funct3, Funct6, Funct7, ImmI, ImmS, ImmB, ImmU, ImmJ, ImmFpStore, Shamt6, Shamt5;
    hide Add, GetX, PutX, EncI, FitsI, Op3, ExecFpLoad;
    IOpcode(0x07, f3, rd, rs1, imm);
    IRd(0x07, f3, rd, rs1, imm);
    IRs1(0x07, f3, rd, rs1, imm);
    IFunct3(0x07, f3, rd, rs1, imm);
    IImm(0x07, f3, rd, rs1, imm);
  }

  lemma EncodedJalr(m: Hart, rd: bv5, rs1: bv5, len: bv64)
    ensures Execute(m, EncI(0x67, 0, rd, rs1, 0), len) == ExecJalr(m, rd, Add(GetX(m, rs1), 0))
  {
    hide Opcode, Rd, Rs1, Rs2, Funct3, Funct6, Funct7, ImmI, ImmS, ImmB, ImmU, ImmJ, ImmFpStore, Shamt6, Shamt5;
    hide Add, GetX, PutX, EncI, ExecJalr;
    IOpcode(0x67, 0, rd, rs1, 0);
    IRd(0x67, 0, rd, rs1, 0);
    IRs1(0x67, 0, rd, rs1, 0);
    IFunct3(0x67, 0, rd, rs1, 0);
    IImm(0x67, 0, rd, rs1, 0);
  }

  lemma EncodedStore(m: Hart, f3: bv64, rs1: bv5, rs2: bv5, imm: bv64, len: bv64)
    requires Op3(f3) && FitsI(imm)
    ensures Execute(m, EncS(0x23, f3, rs1, rs2, imm), len) == ExecStore(m, f3, Add(GetX(m, rs1), imm), GetX(m, rs2))
  {
    hide Opcode, Rd, Rs1, Rs2, Funct3, Funct6, Funct7, ImmI, ImmS, ImmB, ImmU, ImmJ, ImmFpStore, Shamt6, Shamt5;
    hide Add, GetX, PutX, EncS, FitsI, Op3, ExecStore;
    SOpcode(0x23, f3, rs1, rs2, imm);
    SRs1(0x23, f3, rs1, rs2, imm);
    SRs2(0x23, f3, rs1, rs2, imm);
    SFunct3(0x23, f3, rs1, rs2, imm);
    SImm(0x23, f3, rs1, rs2, imm);
  }

  lemma EncodedFpStore(m: Hart, f3: bv64, rs1: bv5, rs2: bv5, imm: bv64, len: bv64)
    requires Op3(f3) && imm & !0xfff == 0
    ensures Execute(m, EncS(0x27, f3, rs1, rs2, imm), len) == ExecFpStore(m, f3, Add(GetX(m, rs1), imm), rs2)
  {
    hide Opcode, Rd, Rs1, Rs2, Funct3, Funct6, Funct7, ImmI, ImmS, ImmB, ImmU, ImmJ, ImmFpStore, Shamt6, Shamt5;
    hide Add, GetX, PutX, EncS, Op3, ExecFpStore;
    SOpcode(0x27, f3, rs1, rs2, imm);
    SRs1(0x27, f3, rs1, rs2, imm);
    SRs2(0x27, f3, rs1, rs2, imm);
    SFunct3(0x27, f3, rs1, rs2, imm);
    SImmFp(0x27, f3, rs1, rs2, imm);
  }

  lemma EncodedOp(m: Hart, f3: bv64, f7: bv64, rd: bv5, rs1: bv5, rs2: bv5, len: bv64)
    requires Op3(f3) && Op7(f7)
    ensures Execute(m, EncR(0x33, f3, f7, rd, rs1, rs2), len) ==
            ExecOp(m, f3, f7, rd, GetX(m, rs1), GetX(m, rs2))
  {
    hide Opcode, Rd, Rs1, Rs2, Funct3, Funct6, Funct7, ImmI, ImmS, ImmB, ImmU, ImmJ, ImmFpStore, Shamt6, Shamt5;
    hide Add, GetX, PutX, EncR, Op3, ExecOp;
    ROpcode(0x33, f3, f7, rd, rs1, rs2);
    RRd(0x33, f3, f7, rd, rs1, rs2);
    RRs1(0x33, f3, f7, rd, rs1, rs2);
    RRs2(0x33, f3, f7, rd, rs1, rs2);
    RFunct3(0x33, f3, f7, rd, rs1, rs2);
    RFunct7(0x33, f3, f7, rd, rs1, rs2);
  }

  lemma EncodedOp32(m: Hart, f3: bv64, f7: bv64, rd: bv5, rs1: bv5, rs2: bv5, len: bv64)
    requires Op3(f3) && Op7(f7)
    ensures Execute(m, EncR(0x3b, f3, f7, rd, rs1, rs2), len) ==
            ExecOp32(m, f3, f7, rd, GetX(m, rs1), GetX(m, rs2))
  {
    hide Opcode, Rd, Rs1, Rs2, Funct3, Funct6, Funct7, ImmI, ImmS, ImmB, ImmU, ImmJ, ImmFpStore, Shamt6, Shamt5;
    hide Add, GetX, PutX, EncR, Op3, ExecOp32;
    ROpcode(0x3b, f3, f7, rd, rs1, rs2);
    RRd(0x3b, f3, f7, rd, rs1, rs2);
    RRs1(0x3b, f3, f7, rd, rs1, rs2);
    RRs2(0x3b, f3, f7, rd, rs1, rs2);
    RFunct3(0x3b, f3, f7, rd, rs1, rs2);
    RFunct7(0x3b, f3, f7, rd, rs1, rs2);
  }

  lemma EncodedLui(m: Hart, rd: bv5, imm: bv64, len: bv64)
    requires FitsU(imm)
    ensures Execute(m, EncU(0x37, rd, imm), len) == Done(SetX(m, rd, imm))
  {
    hide Opcode, Rd, Rs1, Rs2, Funct3, Funct6, Funct7, ImmI, ImmS, ImmB, ImmU, ImmJ, ImmFpStore, Shamt6, Shamt5;
    hide Add, GetX, PutX, EncU, FitsU, SetX;
    UOpcode(0x37, rd, imm);
    URd(0x37, rd, imm);
    UImm(0x37, rd, imm);
  }

  lemma EncodedJal(m: Hart, rd: bv5, imm: bv64, len: bv64)
    requires FitsJ(imm)
    ensures Execute(m, EncJ(rd, imm), len) == ExecJal(m, rd, imm, len)
  {
    hide Opcode, Rd, Rs1, Rs2, Funct3, Funct6, Funct7, ImmI, ImmS, ImmB, ImmU, ImmJ, ImmFpStore, Shamt6, Shamt5;
    hide Add, GetX, PutX, EncJ, FitsJ, ExecJal;
    JOpcode(rd, imm);
    JRd(rd, imm);
    JImm(rd, imm);
  }

  lemma EncodedBranch(m: Hart, f3: bv64, rs1: bv5, rs2: bv5, imm: bv64, len: bv64)
    requires Op3(f3) && FitsB(imm)
    ensures Execute(m, EncB(f3, rs1, rs2, imm), len) ==
            ExecBranch(m, f3, GetX(m, rs1), GetX(m, rs2), imm, len)
  {
    hide Opcode, Rd, Rs1, Rs2, Funct3, Funct6, Funct7, ImmI, ImmS, ImmB, ImmU, ImmJ, ImmFpStore, Shamt6, Shamt5;
    hide Add, GetX, PutX, EncB, FitsB, Op3, ExecBranch;
    BOpcode(f3, rs1, rs2, imm);
    BRs1(f3, rs1, rs2, imm);
    BRs2(f3, rs1, rs2, imm);
    BFunct3(f3, rs1, rs2, imm);
    BImm(f3, rs1, rs2, imm);
  }

  lemma EncodedEbreak(m: Hart, len: bv64)
    ensures Execute(m, EBREAK, len) == Raise(m, Breakpoint)
  {
    assert Opcode(EBREAK) == 0x73 && Funct3(EBREAK) == 0;
    assert Rs2(EBREAK) == 1 && Funct7(EBREAK) == 0;
  }
}
