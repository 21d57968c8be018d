/** Fields of a 32-bit instruction word, and the encoders that put them there. */
module Encoding {
  import opened Words

  function Opcode(w: bv64): bv64 { w & 0x7f }
  function Rd(w: bv64): bv5 { ((w & 0xf80) >> 7) as bv5 }
  function Rs1(w: bv64): bv5 { ((w & 0xf8000) >> 15) as bv5 }
  function Rs2(w: bv64): bv5 { ((w & 0x1f0_0000) >> 20) as bv5 }
  function Funct3(w: bv64): bv64 { (w & 0x7000) >> 12 }
  function Funct7(w: bv64): bv64 { (w & 0xfe00_0000) >> 25 }

  function Funct6(w: bv64): bv64 { Funct7(w) >> 1 }
  function Funct5(w: bv64): bv64 { Funct7(w) >> 2 }

  // The immediates, each as one sign bit spread upwards and the remaining bits in place.
  function ImmI(w: bv64): bv64 {
    (if w & 0x8000_0000 != 0 then 0xffff_ffff_ffff_f800 else 0) | ((w >> 20) & 0x7ff)
  }

  function ImmS(w: bv64): bv64 {
    (if w & 0x8000_0000 != 0 then 0xffff_ffff_ffff_f800 else 0) | ((w >> 20) & 0x7e0) | ((w >> 7) & 0x1f)
  }

  function ImmB(w: bv64): bv64 {
    (if w & 0x8000_0000 != 0 then 0xffff_ffff_ffff_f000 else 0) | ((w << 4) & 0x800) | ((w >> 20) & 0x7e0)
      | ((w >> 7) & 0x1e)
  }

  function ImmU(w: bv64): bv64 { (if w & 0x8000_0000 != 0 then 0xffff_ffff_8000_0000 else 0) | (w & 0x7fff_f000) }

  function ImmJ(w: bv64): bv64 {
    (if w & 0x8000_0000 != 0 then 0xffff_ffff_fff0_0000 else 0) | (w & 0xff000) | ((w >> 9) & 0x800)
      | ((w >> 20) & 0x7fe)
  }

  /** The offset of fsw and fsd, which the source does not sign-extend. */
  function ImmFpStore(w: bv64): bv64 { ((w >> 20) & 0xfe0) | ((w >> 7) & 0x1f) }

  function Shamt6(w: bv64): bv6 { ((w >> 20) & 0x3f) as bv6 }
  function Shamt5(w: bv64): bv6 { ((w >> 20) & 0x1f) as bv6 }

  // ---------------------------------------------------------------------------
  // Encoders

  function EncR(op: bv64, f3: bv64, f7: bv64, rd: bv5, rs1: bv5, rs2: bv5): bv64 {
    op | ((rd as bv64) << 7) | (f3 << 12) | ((rs1 as bv64) << 15) | ((rs2 as bv64) << 20) | (f7 << 25)
  }

  function EncI(op: bv64, f3: bv64, rd: bv5, rs1: bv5, imm: bv64): bv64 {
    op | ((rd as bv64) << 7) | (f3 << 12) | ((rs1 as bv64) << 15) | ((imm & 0xfff) << 20)
  }

  function EncS(op: bv64, f3: bv64, rs1: bv5, rs2: bv5, imm: bv64): bv64 {
    op | ((imm & 0x1f) << 7) | (f3 << 12) | ((rs1 as bv64) << 15) | ((rs2 as bv64) << 20) | ((imm & 0xfe0) << 20)
  }

  function EncB(f3: bv64, rs1: bv5, rs2: bv5, imm: bv64): bv64 {
    0x63 | ((imm & 0x800) >> 4) | ((imm & 0x1e) << 7) | (f3 << 12) | ((rs1 as bv64) << 15) | ((rs2 as bv64) << 20)
    | ((imm & 0x7e0) << 20) | ((imm & 0x1000) << 19)
  }

  function EncU(op: bv64, rd: bv5, imm: bv64): bv64 {
    op | ((rd as bv64) << 7) | (imm & 0xffff_f000)
  }

  function EncJ(rd: bv5, imm: bv64): bv64 {
    0x6f | ((rd as bv64) << 7) | (imm & 0xff000) | ((imm & 0x800) << 9) | ((imm & 0x7fe) << 20)
      | ((imm & 0x10_0000) << 11)
  }

  // ---------------------------------------------------------------------------
  // What an encoder puts into a field, the field gives back.

  /** A value that is the sign extension of its low bits: all bits of `high` are equal. */
  predicate Extends(imm: bv64, high: bv64) { imm & high == 0 || imm & high == high }

  predicate FitsI(imm: bv64) { Extends(imm, 0xffff_ffff_ffff_f800) }
  predicate FitsB(imm: bv64) { Extends(imm, 0xffff_ffff_ffff_f000) && imm & 1 == 0 }
  predicate FitsU(imm: bv64) { Extends(imm, 0xffff_ffff_8000_0000) && imm & 0xfff == 0 }
  predicate FitsJ(imm: bv64) { Extends(imm, 0xffff_ffff_fff0_0000) && imm & 1 == 0 }

  predicate Op7(op: bv64) { op & !0x7f == 0 }
  predicate Op3(f3: bv64) { f3 & !7 == 0 }

  lemma ROpcode(op: bv64, f3: bv64, f7: bv64, rd: bv5, rs1: bv5, rs2: bv5)
    requires Op7(op) && Op3(f3) && Op7(f7)
    ensures Opcode(EncR(op, f3, f7, rd, rs1, rs2)) == op
  {
  }

  lemma RRd(op: bv64, f3: bv64, f7: bv64, rd: bv5, rs1: bv5, rs2: bv5)
    requires Op7(op) && Op3(f3) && Op7(f7)
    ensures Rd(EncR(op, f3, f7, rd, rs1, rs2)) == rd
  {
  }

  lemma RRs1(op: bv64, f3: bv64, f7: bv64, rd: bv5, rs1: bv5, rs2: bv5)
    requires Op7(op) && Op3(f3) && Op7(f7)
    ensures Rs1(EncR(op, f3, f7, rd, rs1, rs2)) == rs1
  {
  }

  lemma RRs2(op: bv64, f3: bv64, f7: bv64, rd: bv5, rs1: bv5, rs2: bv5)
    requires Op7(op) && Op3(f3) && Op7(f7)
    ensures Rs2(EncR(op, f3, f7, rd, rs1, rs2)) == rs2
  {
  }

  lemma RFunct3(op: bv64, f3: bv64, f7: bv64, rd: bv5, rs1: bv5, rs2: bv5)
    requires Op7(op) && Op3(f3) && Op7(f7)
    ensures Funct3(EncR(op, f3, f7, rd, rs1, rs2)) == f3
  {
  }

  lemma RFunct7(op: bv64, f3: bv64, f7: bv64, rd: bv5, rs1: bv5, rs2: bv5)
    requires Op7(op) && Op3(f3) && Op7(f7)
    ensures Funct7(EncR(op, f3, f7, rd, rs1, rs2)) == f7
  {
  }

  lemma IOpcode(op: bv64, f3: bv64, rd: bv5, rs1: bv5, imm: bv64)
    requires Op7(op) && Op3(f3)
    ensures Opcode(EncI(op, f3, rd, rs1, imm)) == op
  {
  }

  lemma IRd(op: bv64, f3: bv64, rd: bv5, rs1: bv5, imm: bv64)
    requires Op7(op) && Op3(f3)
    ensures Rd(EncI(op, f3, rd, rs1, imm)) == rd
  {
  }

  lemma IRs1(op: bv64, f3: bv64, rd: bv5, rs1: bv5, imm: bv64)
    requires Op7(op) && Op3(f3)
    ensures Rs1(EncI(op, f3, rd, rs1, imm)) == rs1
  {
  }

  lemma IFunct3(op: bv64, f3: bv64, rd: bv5, rs1: bv5, imm: bv64)
    requires Op7(op) && Op3(f3)
    ensures Funct3(EncI(op, f3, rd, rs1, imm)) == f3
  {
  }

  lemma IShamt6(op: bv64, f3: bv64, rd: bv5, rs1: bv5, imm: bv64)
    requires Op7(op) && Op3(f3)
    ensures Shamt6(EncI(op, f3, rd, rs1, imm)) == Low6(imm)
  {
  }

  lemma IFunct6(op: bv64, f3: bv64, rd: bv5, rs1: bv5, imm: bv64)
    requires Op7(op) && Op3(f3)
    ensures Funct6(EncI(op, f3, rd, rs1, imm)) == (imm >> 6) & 0x3f
  {
  }

  lemma IImm(op: bv64, f3: bv64, rd: bv5, rs1: bv5, imm: bv64)
    requires Op7(op) && Op3(f3) && FitsI(imm)
    ensures ImmI(EncI(op, f3, rd, rs1, imm)) == imm
  {
  }

  lemma SOpcode(op: bv64, f3: bv64, rs1: bv5, rs2: bv5, imm: bv64)
    requires Op7(op) && Op3(f3)
    ensures Opcode(EncS(op, f3, rs1, rs2, imm)) == op
  {
  }

  lemma SRs1(op: bv64, f3: bv64, rs1: bv5, rs2: bv5, imm: bv64)
    requires Op7(op) && Op3(f3)
    ensures Rs1(EncS(op, f3, rs1, rs2, imm)) == rs1
  {
  }

  lemma SRs2(op: bv64, f3: bv64, rs1: bv5, rs2: bv5, imm: bv64)
    requires Op7(op) && Op3(f3)
    ensures Rs2(EncS(op, f3, rs1, rs2, imm)) == rs2
  {
  }

  lemma SFunct3(op: bv64, f3: bv64, rs1: bv5, rs2: bv5, imm: bv64)
    requires Op7(op) && Op3(f3)
    ensures Funct3(EncS(op, f3, rs1, rs2, imm)) == f3
  {
  }

  lemma SImm(op: bv64, f3: bv64, rs1: bv5, rs2: bv5, imm: bv64)
    requires Op7(op) && Op3(f3) && FitsI(imm)
    ensures ImmS(EncS(op, f3, rs1, rs2, imm)) == imm
  {
  }

  lemma SImmFp(op: bv64, f3: bv64, rs1: bv5, rs2: bv5, imm: bv64)
    requires Op7(op) && Op3(f3) && imm & !0xfff == 0
    ensures ImmFpStore(EncS(op, f3, rs1, rs2, imm)) == imm
  {
  }

  lemma BOpcode(f3: bv64, rs1: bv5, rs2: bv5, imm: bv64)
    requires Op3(f3)
    ensures Opcode(EncB(f3, rs1, rs2, imm)) == 0x63
  {
  }

  lemma BRs1(f3: bv64, rs1: bv5, rs2: bv5, imm: bv64)
    requires Op3(f3)
    ensures Rs1(EncB(f3, rs1, rs2, imm)) == rs1
  {
  }

  lemma BRs2(f3: bv64, rs1: bv5, rs2: bv5, imm: bv64)
    requires Op3(f3)
    ensures Rs2(EncB(f3, rs1, rs2, imm)) == rs2
  {
  }

  lemma BFunct3(f3: bv64, rs1: bv5, rs2: bv5, imm: bv64)
    requires Op3(f3)
    ensures Funct3(EncB(f3, rs1, rs2, imm)) == f3
  {
  }

  lemma BImm(f3: bv64, rs1: bv5, rs2: bv5, imm: bv64)
    requires Op3(f3) && FitsB(imm)
    ensures ImmB(EncB(f3, rs1, rs2, imm)) == imm
  {
  }

  lemma UOpcode(op: bv64, rd: bv5, imm: bv64)
    requires Op7(op)
    ensures Opcode(EncU(op, rd, imm)) == op
  {
  }

  lemma URd(op: bv64, rd: bv5, imm: bv64)
    requires Op7(op)
    ensures Rd(EncU(op, rd, imm)) == rd
  {
  }

  lemma UImm(op: bv64, rd: bv5, imm: bv64)
    requires Op7(op) && FitsU(imm)
    ensures ImmU(EncU(op, rd, imm)) == imm
  {
  }

  lemma JOpcode(rd: bv5, imm: bv64)
    ensures Opcode(EncJ(rd, imm)) == 0x6f
  {
  }

  lemma JRd(rd: bv5, imm: bv64)
    ensures Rd(EncJ(rd, imm)) == rd
  {
  }

  lemma JImm(rd: bv5, imm: bv64)
    requires FitsJ(imm)
    ensures ImmJ(EncJ(rd, imm)) == imm
  {
  }
}
