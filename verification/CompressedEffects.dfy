/** What each 16-bit instruction does, read off its 32-bit expansion. */
module CompressedEffects {
  import opened Types
  import opened Words
  import opened HartState
  import opened Encoding
  import opened Executor
  import opened Compressed

  // Every immediate fits the field it is expanded into.
  lemma FitsAddi4spn(c: bv64)
    ensures FitsI(ImmAddi4spn(c))
  {
  }

  lemma FitsLd(c: bv64)
    ensures FitsI(ImmLd(c))
  {
  }

  lemma FitsLw(c: bv64)
    ensures FitsI(ImmLw(c))
  {
  }

  lemma FitsAddi16sp(c: bv64)
    ensures FitsI(ImmAddi16sp(c))
  {
  }

  lemma FitsLdsp(c: bv64)
    ensures FitsI(ImmLdsp(c))
  {
  }

  lemma FitsLwsp(c: bv64)
    ensures FitsI(ImmLwsp(c))
  {
  }

  lemma FitsSdsp(c: bv64)
    ensures FitsI(ImmSdsp(c))
  {
  }

  lemma FitsSwsp(c: bv64)
    ensures FitsI(ImmSwsp(c))
  {
  }

  lemma FitsShamt(c: bv64)
    ensures FitsI(ImmShamt(c))
  {
  }

  lemma FitsLui(c: bv64)
    ensures FitsU(ImmLui(c))
  {
  }

  lemma FitsCj(c: bv64)
    ensures FitsJ(ImmCj(c))
  {
  }

  lemma FitsCb(c: bv64)
    ensures FitsB(ImmCb(c))
  {
  }

  lemma Fits6(c: bv64)
    ensures FitsI(Imm6(c))
  {
  }

  lemma FitsSrai(c: bv64)
    ensures FitsI(SraiImm(c))
  {
  }

  lemma FpLd(c: bv64)
    ensures ImmLd(c) & !0xfff == 0
  {
  }

  lemma FpSdsp(c: bv64)
    ensures ImmSdsp(c) & !0xfff == 0
  {
  }

  // The shift immediates select the shift by their upper half.
  lemma ShamtKind(c: bv64)
    ensures (ImmShamt(c) >> 6) & 0x3f == 0
  {
  }

  lemma SraiKind(c: bv64)
    ensures (SraiImm(c) >> 6) & 0x3f == 0x10
  {
  }

  lemma SraiAmount(c: bv64)
    ensures Low6(SraiImm(c)) == Low6(ImmShamt(c))
  {
  }

  // ---------------------------------------------------------------------------
  // Quadrant 0

  lemma EffectAddi4spn(m: Hart, c: bv64)
    requires Quadrant(c) == 0 && CFunct3(c) == 0 && ImmAddi4spn(c) != 0
    ensures ExecCompressed(m, c) == PutX(m, CRs2Short(c), Ok(Add(GetX(m, SP), ImmAddi4spn(c))))
  {
    hide Execute;
    FitsAddi4spn(c);
    EncodedOpImm(m, 0, CRs2Short(c), SP, ImmAddi4spn(c), 2);
  }

  lemma EffectFld(m: Hart, c: bv64)
    requires Quadrant(c) == 0 && CFunct3(c) == 1
    ensures ExecCompressed(m, c) == ExecFpLoad(m, 3, CRs2Short(c), Add(GetX(m, CRdShort(c)), ImmLd(c)))
  {
    hide Execute;
    FitsLd(c);
    EncodedFpLoad(m, 3, CRs2Short(c), CRdShort(c), ImmLd(c), 2);
  }

  lemma EffectLw(m: Hart, c: bv64)
    requires Quadrant(c) == 0 && CFunct3(c) == 2
    ensures ExecCompressed(m, c) == ExecLoad(m, 2, CRs2Short(c), Add(GetX(m, CRdShort(c)), ImmLw(c)))
  {
    hide Execute;
    FitsLw(c);
    EncodedLoad(m, 2, CRs2Short(c), CRdShort(c), ImmLw(c), 2);
  }

  lemma EffectLd(m: Hart, c: bv64)
    requires Quadrant(c) == 0 && CFunct3(c) == 3
    ensures ExecCompressed(m, c) == ExecLoad(m, 3, CRs2Short(c), Add(GetX(m, CRdShort(c)), ImmLd(c)))
  {
    hide Execute;
    FitsLd(c);
    EncodedLoad(m, 3, CRs2Short(c), CRdShort(c), ImmLd(c), 2);
  }

  lemma EffectFsd(m: Hart, c: bv64)
    requires Quadrant(c) == 0 && CFunct3(c) == 5
    ensures ExecCompressed(m, c) == ExecFpStore(m, 3, Add(GetX(m, CRdShort(c)), ImmLd(c)), CRs2Short(c))
  {
    hide Execute;
    FpLd(c);
    EncodedFpStore(m, 3, CRdShort(c), CRs2Short(c), ImmLd(c), 2);
  }

  lemma EffectSw(m: Hart, c: bv64)
    requires Quadrant(c) == 0 && CFunct3(c) == 6
    ensures ExecCompressed(m, c) == ExecStore(m, 2, Add(GetX(m, CRdShort(c)), ImmLw(c)), GetX(m, CRs2Short(c)))
  {
    hide Execute;
    FitsLw(c);
    EncodedStore(m, 2, CRdShort(c), CRs2Short(c), ImmLw(c), 2);
  }

  lemma EffectSd(m: Hart, c: bv64)
    requires Quadrant(c) == 0 && CFunct3(c) == 7
    ensures ExecCompressed(m, c) == ExecStore(m, 3, Add(GetX(m, CRdShort(c)), ImmLd(c)), GetX(m, CRs2Short(c)))
  {
    hide Execute;
    FitsLd(c);
    EncodedStore(m, 3, CRdShort(c), CRs2Short(c), ImmLd(c), 2);
  }

  // ---------------------------------------------------------------------------
  // Quadrant 1

  lemma EffectAddi(m: Hart, c: bv64)
    requires Quadrant(c) == 1 && CFunct3(c) == 0
    ensures ExecCompressed(m, c) == PutX(m, CRd(c), Ok(Add(GetX(m, CRd(c)), Imm6(c))))
  {
    hide Execute;
    Fits6(c);
    EncodedOpImm(m, 0, CRd(c), CRd(c), Imm6(c), 2);
  }

  lemma EffectAddiw(m: Hart, c: bv64)
    requires Quadrant(c) == 1 && CFunct3(c) == 1
    ensures ExecCompressed(m, c) == PutX(m, CRd(c), Ok(Sext32(Add(GetX(m, CRd(c)), Imm6(c)))))
  {
    hide Execute;
    Fits6(c);
    EncodedAddiw(m, CRd(c), CRd(c), Imm6(c), 2);
  }

  lemma EffectLi(m: Hart, c: bv64)
    requires Quadrant(c) == 1 && CFunct3(c) == 2
    requires GetX(m, 0) == 0
    ensures ExecCompressed(m, c) == PutX(m, CRd(c), Ok(Imm6(c)))
  {
    hide Execute;
    Fits6(c);
    ZeroAdd(Imm6(c));
    EncodedOpImm(m, 0, CRd(c), 0, Imm6(c), 2);
  }

  lemma EffectAddi16sp(m: Hart, c: bv64)
    requires Quadrant(c) == 1 && CFunct3(c) == 3 && CRd(c) == SP && ImmAddi16sp(c) != 0
    ensures ExecCompressed(m, c) == PutX(m, SP, Ok(Add(GetX(m, SP), ImmAddi16sp(c))))
  {
    hide Execute;
    FitsAddi16sp(c);
    EncodedOpImm(m, 0, SP, SP, ImmAddi16sp(c), 2);
  }

  lemma EffectLui(m: Hart, c: bv64)
    requires Quadrant(c) == 1 && CFunct3(c) == 3 && CRd(c) != SP && ImmLui(c) != 0
    ensures ExecCompressed(m, c) == Done(SetX(m, CRd(c), ImmLui(c)))
  {
    hide FitsU, Execute;
    FitsLui(c);
    EncodedLui(m, CRd(c), ImmLui(c), 2);
  }

  lemma EffectSrli(m: Hart, c: bv64)
    requires Quadrant(c) == 1 && CFunct3(c) == 4 && AluKind(c) == 0
    ensures ExecCompressed(m, c) == PutX(m, CRdShort(c), Ok(Shr(GetX(m, CRdShort(c)), Low6(ImmShamt(c)))))
  {
    hide Execute;
    FitsShamt(c);
    ShamtKind(c);
    EncodedOpImm(m, 5, CRdShort(c), CRdShort(c), ImmShamt(c), 2);
  }

  lemma EffectSrai(m: Hart, c: bv64)
    requires Quadrant(c) == 1 && CFunct3(c) == 4 && AluKind(c) == 1
    ensures ExecCompressed(m, c) == PutX(m, CRdShort(c), Ok(Asr(GetX(m, CRdShort(c)), Low6(ImmShamt(c)))))
  {
    hide Execute;
    FitsSrai(c);
    SraiKind(c);
    SraiAmount(c);
    EncodedOpImm(m, 5, CRdShort(c), CRdShort(c), SraiImm(c), 2);
  }

  lemma EffectAndi(m: Hart, c: bv64)
    requires Quadrant(c) == 1 && CFunct3(c) == 4 && AluKind(c) == 2
    ensures ExecCompressed(m, c) == PutX(m, CRdShort(c), Ok(And(GetX(m, CRdShort(c)), Imm6(c))))
  {
    hide Execute;
    Fits6(c);
    EncodedOpImm(m, 7, CRdShort(c), CRdShort(c), Imm6(c), 2);
  }

  lemma EffectSub(m: Hart, c: bv64)
    requires Quadrant(c) == 1 && CFunct3(c) == 4 && AluKind(c) == 3 && Bit12(c) == 0 && AluSub(c) == 0
    ensures ExecCompressed(m, c) == PutX(m, CRdShort(c), Ok(Sub(GetX(m, CRdShort(c)), GetX(m, CRs2Short(c)))))
  {
    hide Execute;
    EncodedOp(m, 0, 0x20, CRdShort(c), CRdShort(c), CRs2Short(c), 2);
  }

  lemma EffectXor(m: Hart, c: bv64)
    requires Quadrant(c) == 1 && CFunct3(c) == 4 && AluKind(c) == 3 && Bit12(c) == 0 && AluSub(c) == 1
    ensures ExecCompressed(m, c) == PutX(m, CRdShort(c), Ok(Xor(GetX(m, CRdShort(c)), GetX(m, CRs2Short(c)))))
  {
    hide Execute;
    EncodedOp(m, 4, 0, CRdShort(c), CRdShort(c), CRs2Short(c), 2);
  }

  lemma EffectOr(m: Hart, c: bv64)
    requires Quadrant(c) == 1 && CFunct3(c) == 4 && AluKind(c) == 3 && Bit12(c) == 0 && AluSub(c) == 2
    ensures ExecCompressed(m, c) == PutX(m, CRdShort(c), Ok(Or(GetX(m, CRdShort(c)), GetX(m, CRs2Short(c)))))
  {
    hide Execute;
    EncodedOp(m, 6, 0, CRdShort(c), CRdShort(c), CRs2Short(c), 2);
  }

  lemma EffectAnd(m: Hart, c: bv64)
    requires Quadrant(c) == 1 && CFunct3(c) == 4 && AluKind(c) == 3 && Bit12(c) == 0 && AluSub(c) == 3
    ensures ExecCompressed(m, c) == PutX(m, CRdShort(c), Ok(And(GetX(m, CRdShort(c)), GetX(m, CRs2Short(c)))))
  {
    hide Execute;
    EncodedOp(m, 7, 0, CRdShort(c), CRdShort(c), CRs2Short(c), 2);
  }

  lemma EffectSubw(m: Hart, c: bv64)
    requires Quadrant(c) == 1 && CFunct3(c) == 4 && AluKind(c) == 3 && Bit12(c) == 1 && AluSub(c) == 0
    ensures ExecCompressed(m, c) == PutX(m, CRdShort(c), Ok(Sext32(Sub(GetX(m, CRdShort(c)), GetX(m, CRs2Short(c))))))
  {
    hide Execute;
    EncodedOp32(m, 0, 0x20, CRdShort(c), CRdShort(c), CRs2Short(c), 2);
  }

  lemma EffectAddw(m: Hart, c: bv64)
    requires Quadrant(c) == 1 && CFunct3(c) == 4 && AluKind(c) == 3 && Bit12(c) == 1 && AluSub(c) == 1
    ensures ExecCompressed(m, c) == PutX(m, CRdShort(c), Ok(Sext32(Add(GetX(m, CRdShort(c)), GetX(m, CRs2Short(c))))))
  {
    hide Execute;
    EncodedOp32(m, 0, 0, CRdShort(c), CRdShort(c), CRs2Short(c), 2);
  }

  lemma EffectJ(m: Hart, c: bv64)
    requires Quadrant(c) == 1 && CFunct3(c) == 5
    ensures ExecCompressed(m, c) == Done(JumpTo(m, ImmCj(c), 2))
  {
    hide FitsJ, Execute;
    FitsCj(c);
    EncodedJal(m, 0, ImmCj(c), 2);
    WriteZero(m, m.pc);
  }

  lemma EffectBeqz(m: Hart, c: bv64)
    requires Quadrant(c) == 1 && CFunct3(c) == 6
    requires GetX(m, 0) == 0
    ensures ExecCompressed(m, c) == Done(if GetX(m, CRdShort(c)) == 0 then JumpTo(m, ImmCb(c), 2) else m)
  {
    hide FitsB, Execute;
    FitsCb(c);
    EncodedBranch(m, 0, CRdShort(c), 0, ImmCb(c), 2);
  }

  lemma EffectBnez(m: Hart, c: bv64)
    requires Quadrant(c) == 1 && CFunct3(c) == 7
    requires GetX(m, 0) == 0
    ensures ExecCompressed(m, c) == Done(if GetX(m, CRdShort(c)) != 0 then JumpTo(m, ImmCb(c), 2) else m)
  {
    hide FitsB, Execute;
    FitsCb(c);
    EncodedBranch(m, 1, CRdShort(c), 0, ImmCb(c), 2);
  }

  lemma WriteZero(m: Hart, v: bv64)
    ensures SetX(m, 0, v) == m
  {
  }

  // ---------------------------------------------------------------------------
  // Quadrant 2

  lemma EffectSlli(m: Hart, c: bv64)
    requires Quadrant(c) == 2 && CFunct3(c) == 0
    ensures ExecCompressed(m, c) == PutX(m, CRd(c), Ok(Shl(GetX(m, CRd(c)), Low6(ImmShamt(c)))))
  {
    hide Execute;
    FitsShamt(c);
    EncodedOpImm(m, 1, CRd(c), CRd(c), ImmShamt(c), 2);
  }

  lemma EffectFldsp(m: Hart, c: bv64)
    requires Quadrant(c) == 2 && CFunct3(c) == 1
    ensures ExecCompressed(m, c) == ExecFpLoad(m, 3, CRd(c), Add(GetX(m, SP), ImmLdsp(c)))
  {
    hide Execute;
    FitsLdsp(c);
    EncodedFpLoad(m, 3, CRd(c), SP, ImmLdsp(c), 2);
  }

  lemma EffectLwsp(m: Hart, c: bv64)
    requires Quadrant(c) == 2 && CFunct3(c) == 2
    ensures ExecCompressed(m, c) == ExecLoad(m, 2, CRd(c), Add(GetX(m, SP), ImmLwsp(c)))
  {
    hide Execute;
    FitsLwsp(c);
    EncodedLoad(m, 2, CRd(c), SP, ImmLwsp(c), 2);
  }

  lemma EffectLdsp(m: Hart, c: bv64)
    requires Quadrant(c) == 2 && CFunct3(c) == 3
    ensures ExecCompressed(m, c) == ExecLoad(m, 3, CRd(c), Add(GetX(m, SP), ImmLdsp(c)))
  {
    hide Execute;
    FitsLdsp(c);
    EncodedLoad(m, 3, CRd(c), SP, ImmLdsp(c), 2);
  }

  lemma EffectJr(m: Hart, c: bv64)
    requires Quadrant(c) == 2 && CFunct3(c) == 4 && Bit12(c) == 0 && CRs2(c) == 0 && CRd(c) != 0
    ensures ExecCompressed(m, c) == Done(m.(pc := GetX(m, CRd(c))))
  {
    hide Execute;
    EncodedJalr(m, 0, CRd(c), 2);
    WriteZero(m.(pc := ClearLowBit(Add(GetX(m, CRd(c)), 0))), m.pc);
  }

  lemma EffectMv(m: Hart, c: bv64)
    requires Quadrant(c) == 2 && CFunct3(c) == 4 && Bit12(c) == 0 && CRs2(c) != 0
    requires GetX(m, 0) == 0
    ensures ExecCompressed(m, c) == PutX(m, CRd(c), Ok(GetX(m, CRs2(c))))
  {
    hide Execute;
    EncodedOp(m, 0, 0, CRd(c), 0, CRs2(c), 2);
    ZeroAdd(GetX(m, CRs2(c)));
  }

  lemma EffectEbreak(m: Hart, c: bv64)
    requires Quadrant(c) == 2 && CFunct3(c) == 4 && Bit12(c) == 1 && CRs2(c) == 0 && CRd(c) == 0
    ensures ExecCompressed(m, c) == Raise(m, Breakpoint)
  {
    hide Execute;
    EncodedEbreak(m, 2);
  }

  lemma EffectJalr(m: Hart, c: bv64)
    requires Quadrant(c) == 2 && CFunct3(c) == 4 && Bit12(c) == 1 && CRs2(c) == 0 && CRd(c) != 0
    ensures ExecCompressed(m, c) == Done(SetX(m.(pc := GetX(m, CRd(c))), RA, m.pc))
  {
    hide Execute;
    EncodedJalr(m, RA, CRd(c), 2);
    SetXThenPc(m.(pc := ClearLowBit(Add(GetX(m, CRd(c)), 0))), RA, m.pc, GetX(m, CRd(c)));
  }

  lemma EffectAdd(m: Hart, c: bv64)
    requires Quadrant(c) == 2 && CFunct3(c) == 4 && Bit12(c) == 1 && CRs2(c) != 0
    ensures ExecCompressed(m, c) == PutX(m, CRd(c), Ok(Add(GetX(m, CRd(c)), GetX(m, CRs2(c)))))
  {
    hide Execute;
    EncodedOp(m, 0, 0, CRd(c), CRd(c), CRs2(c), 2);
  }

  lemma EffectFsdsp(m: Hart, c: bv64)
    requires Quadrant(c) == 2 && CFunct3(c) == 5
    ensures ExecCompressed(m, c) == ExecFpStore(m, 3, Add(GetX(m, SP), ImmSdsp(c)), CRs2(c))
  {
    hide Execute;
    FpSdsp(c);
    EncodedFpStore(m, 3, SP, CRs2(c), ImmSdsp(c), 2);
  }

  lemma EffectSwsp(m: Hart, c: bv64)
    requires Quadrant(c) == 2 && CFunct3(c) == 6
    ensures ExecCompressed(m, c) == ExecStore(m, 2, Add(GetX(m, SP), ImmSwsp(c)), GetX(m, CRs2(c)))
  {
    hide Execute;
    FitsSwsp(c);
    EncodedStore(m, 2, SP, CRs2(c), ImmSwsp(c), 2);
  }

  lemma EffectSdsp(m: Hart, c: bv64)
    requires Quadrant(c) == 2 && CFunct3(c) == 7
    ensures ExecCompressed(m, c) == ExecStore(m, 3, Add(GetX(m, SP), ImmSdsp(c)), GetX(m, CRs2(c)))
  {
    hide Execute;
    FitsSdsp(c);
    EncodedStore(m, 3, SP, CRs2(c), ImmSdsp(c), 2);
  }

  lemma IgnoreZero(m: Hart, rd: bv5, v: bv64)
    ensures rd == 0 ==> SetX(m, rd, v) == m
  {
  }

  lemma ZeroAfterAdvance(m: Hart, pc: bv64)
    ensures GetX(m.(pc := pc), 0) == GetX(m, 0)
  {
  }

  lemma NoQuadrant(m: Hart, c: bv64)
    requires Quadrant(c) != 0 && Quadrant(c) != 1 && Quadrant(c) != 2
    ensures ExecCompressed(m, c) == Raise(m, IllegalInstruction)
  {
    hide Execute;
  }

  // The fields are no wider than their masks.
  lemma CFunct3IsSmall(c: bv64)
    ensures CFunct3(c) <= 7
  {
  }

  lemma AluFieldsAreSmall(c: bv64)
    ensures AluKind(c) <= 3
  {
  }

  lemma SubFieldsAreSmall(c: bv64)
    ensures Bit12(c) <= 1 && AluSub(c) <= 3
  {
  }

  lemma SetXThenPc(m: Hart, r: bv5, v: bv64, pc: bv64)
    ensures SetX(m, r, v).(pc := pc) == SetX(m.(pc := pc), r, v)
  {
  }
}
