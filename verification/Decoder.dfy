/** The immediates as the source decodes them, shift by shift, each proved equal to the bit groups of
    the instruction formats. */
module Decoder {
  import opened Words
  import opened Encoding
  import opened Compressed

  // ---------------------------------------------------------------------------
  // 32-bit formats

  method DecodeI(inst: bv64) returns (imm: bv64)
    ensures imm == ImmI(inst)
  {
    hide Sext32, Asr, ImmI;
    imm := Asr(Sext32(inst), 20);
    if inst & 0x8000_0000 == 0 {
      DecodeIPositive(inst);
    } else {
      DecodeINegative(inst);
    }
  }

  lemma DecodeIPositive(inst: bv64)
    requires inst & 0x8000_0000 == 0
    ensures Asr(Sext32(inst), 20) == ImmI(inst)
  {
  }

  lemma DecodeINegative(inst: bv64)
    requires inst & 0x8000_0000 != 0
    ensures Asr(Sext32(inst), 20) == ImmI(inst)
  {
  }

  method DecodeS(inst: bv64) returns (imm: bv64)
    ensures imm == ImmS(inst)
  {
    imm := Asr(Sext32(inst & 0xfe00_0000), 20) | ((inst >> 7) & 0x1f);
  }

  method DecodeB(inst: bv64) returns (imm: bv64)
    ensures imm == ImmB(inst)
  {
    imm := Asr(Sext32(inst & 0x8000_0000), 19) | ((inst & 0x80) << 4) | ((inst >> 20) & 0x7e0) | ((inst >> 7) & 0x1e);
  }

  method DecodeU(inst: bv64) returns (imm: bv64)
    ensures imm == ImmU(inst)
  {
    hide Sext32, Asr, ImmU;
    imm := Sext32(inst & 0xffff_f000);
    if inst & 0x8000_0000 == 0 {
      DecodeUPositive(inst);
    } else {
      DecodeUNegative(inst);
    }
  }

  lemma DecodeUPositive(inst: bv64)
    requires inst & 0x8000_0000 == 0
    ensures Sext32(inst & 0xffff_f000) == ImmU(inst)
  {
  }

  lemma DecodeUNegative(inst: bv64)
    requires inst & 0x8000_0000 != 0
    ensures Sext32(inst & 0xffff_f000) == ImmU(inst)
  {
  }

  method DecodeJ(inst: bv64) returns (imm: bv64)
    ensures imm == ImmJ(inst)
  {
    imm := Asr(Sext32(inst & 0x8000_0000), 11) | (inst & 0xff000) | ((inst >> 9) & 0x800) | ((inst >> 20) & 0x7fe);
  }

  method DecodeFpStore(inst: bv64) returns (imm: bv64)
    ensures imm == ImmFpStore(inst)
  {
    hide Sext32, Asr, ImmFpStore;
    imm := (Asr(Sext32(inst), 20) & 0xfe0) | ((inst >> 7) & 0x1f);
    if inst & 0x8000_0000 == 0 {
      DecodeFpStorePositive(inst);
    } else {
      DecodeFpStoreNegative(inst);
    }
  }

  lemma DecodeFpStorePositive(inst: bv64)
    requires inst & 0x8000_0000 == 0
    ensures (Asr(Sext32(inst), 20) & 0xfe0) | ((inst >> 7) & 0x1f) == ImmFpStore(inst)
  {
  }

  lemma DecodeFpStoreNegative(inst: bv64)
    requires inst & 0x8000_0000 != 0
    ensures (Asr(Sext32(inst), 20) & 0xfe0) | ((inst >> 7) & 0x1f) == ImmFpStore(inst)
  {
  }

  method DecodeAddi4spn(inst: bv64) returns (imm: bv64)
    ensures imm == ImmAddi4spn(inst)
  {
    imm := ((inst >> 1) & 0x3c0) | ((inst >> 7) & 0x30) | ((inst >> 2) & 0x8) | ((inst >> 4) & 0x4);
  }

  method DecodeLd(inst: bv64) returns (imm: bv64)
    ensures imm == ImmLd(inst)
  {
    imm := ((inst << 1) & 0xc0) | ((inst >> 7) & 0x38);
  }

  method DecodeLw(inst: bv64) returns (imm: bv64)
    ensures imm == ImmLw(inst)
  {
    imm := ((inst << 1) & 0x40) | ((inst >> 7) & 0x38) | ((inst >> 4) & 0x4);
  }

  method Decode6(inst: bv64) returns (imm: bv64)
    ensures imm == Imm6(inst)
  {
    imm := ((inst >> 7) & 0x20) | ((inst >> 2) & 0x1f);
    // Sign-extended.
    if imm & 0x20 != 0 {
      imm := Sext8(0xc0 | imm);
    }
  }

  method DecodeAddi16sp(inst: bv64) returns (imm: bv64)
    ensures imm == ImmAddi16sp(inst)
  {
    imm := ((inst >> 3) & 0x200) | ((inst >> 2) & 0x10) | ((inst << 1) & 0x40) | ((inst << 4) & 0x180)
      | ((inst << 3) & 0x20);
    // Sign-extended.
    if imm & 0x200 != 0 {
      imm := Sext16(0xfc00 | imm);
    }
  }

  method DecodeLui(inst: bv64) returns (imm: bv64)
    ensures imm == ImmLui(inst)
  {
    imm := ((inst << 5) & 0x2_0000) | ((inst << 10) & 0x1_f000);
    // Sign-extended.
    if imm & 0x2_0000 != 0 {
      imm := Sext32(0xfffc_0000 | imm);
    }
  }

  method DecodeShamt(inst: bv64) returns (imm: bv64)
    ensures imm == ImmShamt(inst)
  {
    imm := ((inst >> 7) & 0x20) | ((inst >> 2) & 0x1f);
  }

  method DecodeCj(inst: bv64) returns (imm: bv64)
    ensures imm == ImmCj(inst)
  {
    imm := ((inst >> 1) & 0x800) | ((inst << 2) & 0x400) | ((inst >> 1) & 0x300) | ((inst << 1) & 0x80)
      | ((inst >> 1) & 0x40)
      | ((inst << 3) & 0x20) | ((inst >> 7) & 0x10) | ((inst >> 2) & 0xe);
    // Sign-extended.
    if imm & 0x800 != 0 {
      imm := Sext16(0xf000 | imm);
    }
  }

  method DecodeCb(inst: bv64) returns (imm: bv64)
    ensures imm == ImmCb(inst)
  {
    imm := ((inst >> 4) & 0x100) | ((inst << 1) & 0xc0) | ((inst << 3) & 0x20) | ((inst >> 7) & 0x18)
      | ((inst >> 2) & 0x6);
    // Sign-extended.
    if imm & 0x100 != 0 {
      imm := Sext16(0xfe00 | imm);
    }
  }

  method DecodeLdsp(inst: bv64) returns (imm: bv64)
    ensures imm == ImmLdsp(inst)
  {
    imm := ((inst << 4) & 0x1c0) | ((inst >> 7) & 0x20) | ((inst >> 2) & 0x18);
  }

  method DecodeLwsp(inst: bv64) returns (imm: bv64)
    ensures imm == ImmLwsp(inst)
  {
    imm := ((inst << 4) & 0xc0) | ((inst >> 7) & 0x20) | ((inst >> 2) & 0x1c);
  }

  method DecodeSdsp(inst: bv64) returns (imm: bv64)
    ensures imm == ImmSdsp(inst)
  {
    imm := ((inst >> 1) & 0x1c0) | ((inst >> 7) & 0x38);
  }

  method DecodeSwsp(inst: bv64) returns (imm: bv64)
    ensures imm == ImmSwsp(inst)
  {
    imm := ((inst >> 1) & 0xc0) | ((inst >> 7) & 0x3c);
  }

  // The popular registers x8 to x15.
  method DecodeReg7(inst: bv64) returns (r: bv5)
    ensures r == CRdShort(inst)
  {
    r := (((inst >> 7) & 0x7) + 8) as bv5;
  }

  method DecodeReg2(inst: bv64) returns (r: bv5)
    ensures r == CRs2Short(inst)
  {
    r := (((inst >> 2) & 0x7) + 8) as bv5;
  }

  /** The offset of fsw and fsd is the S-type offset of section 2.3 of the Unprivileged ISA exactly when
      it is not negative: the source does not extend its sign. */
  lemma FpStoreOffsetIffNonNegative(inst: bv64)
    requires inst < 0x1_0000_0000
    ensures ImmFpStore(inst) == ImmS(inst) <==> inst & 0x8000_0000 == 0
  {
  }
}
