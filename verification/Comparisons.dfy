/** Branches, set-less-than and the atomic minima and maxima compare registers as the numbers they are. */
module Comparisons {
  import opened Types
  import opened Words
  import opened Alu

  // ---------------------------------------------------------------------------
  // A word as a bit and the bits above it

  function LowBit(v: bv64): bv1 { (v & 1) as bv1 }

  function Half(v: bv64): bv64 { v >> 1 }

  function Append(bit: bv1, w: bv64): bv64 { (bit as bv64) | (w << 1) }

  predicate TopClear(w: bv64) { !IsNegative(w) }

  lemma SplitBit(v: bv64)
    ensures v == Append(LowBit(v), Half(v))
  {
  }

  lemma HalfIsTopClear(v: bv64)
    ensures TopClear(Half(v))
  {
  }

  lemma AppendNumber(bit: bv1, w: bv64)
    requires TopClear(w)
    ensures U(Append(bit, w)) == (bit as int) + 2 * U(w)
  {
    AppendBit(bit, w);
  }

  lemma BitValue(i: bv1)
    ensures i == 0 || i == 1
  {
  }

  /** A word is its low bit and twice its half. */
  lemma HalfNumber(v: bv64)
    ensures U(v) == (LowBit(v) as int) + 2 * U(Half(v)) && 0 <= LowBit(v) as int <= 1
  {
    hide U, LowBit, Half, Append, TopClear;
    SplitBit(v);
    HalfIsTopClear(v);
    AppendNumber(LowBit(v), Half(v));
    BitValue(LowBit(v));
  }

  // ---------------------------------------------------------------------------
  // Unsigned

  lemma BelowByHalf(a: bv64, b: bv64)
    requires Below(Half(a), Half(b))
    ensures Below(a, b)
  {
  }

  lemma BelowByBit(a: bv64, b: bv64)
    requires Half(a) == Half(b) && LowBit(a) == 0 && LowBit(b) == 1
    ensures Below(a, b)
  {
  }

  lemma BelowIsStrict(a: bv64, b: bv64)
    requires Below(a, b)
    ensures !Below(b, a) && a != b
  {
  }

  lemma {:induction false} LessIsBelow(a: bv64, b: bv64)
    requires U(a) < U(b)
    ensures Below(a, b)
    decreases U(b)
  {
    hide U, Below, Half, LowBit;
    HalfNumber(a);
    HalfNumber(b);
    UBounds(Half(a));
    UBounds(Half(b));
    if U(Half(a)) < U(Half(b)) {
      LessIsBelow(Half(a), Half(b));
      BelowByHalf(a, b);
    } else {
      UInjective(Half(a), Half(b));
      BitValue(LowBit(a));
      BitValue(LowBit(b));
      BelowByBit(a, b);
    }
  }

  /** Words compare as the unsigned numbers they are. */
  lemma BelowMeaning(a: bv64, b: bv64)
    ensures Below(a, b) <==> U(a) < U(b)
  {
    hide U, Below;
    if U(a) < U(b) {
      LessIsBelow(a, b);
    } else if U(b) < U(a) {
      LessIsBelow(b, a);
      BelowIsStrict(b, a);
    } else {
      UInjective(a, b);
      if Below(a, b) {
        BelowIsStrict(a, b);
      }
    }
  }

  // ---------------------------------------------------------------------------
  // Signed

  /** The top bit is clear in the lower half of the range. */
  lemma TopClearMeaning(w: bv64)
    ensures TopClear(w) <==> U(w) < TWO63
  {
    hide U, TopClear;
    if TopClear(w) {
      AppendNumber(0, w);
      UBounds(Append(0, w));
    }
    if U(w) < TWO63 {
      SmallIsTopClear(w);
    }
  }

  lemma SmallIsTopClear(w: bv64)
    requires U(w) < TWO63
    ensures TopClear(w)
  {
    TopBitClear(w);
  }

  /** The signed comparison compares two's-complement readings. */
  lemma SignedLessMeaning(a: bv64, b: bv64)
    ensures SignedLess(a, b) <==> S(a) < S(b)
  {
    hide U, Below, IsNegative;
    TopClearMeaning(a);
    TopClearMeaning(b);
    BelowMeaning(a, b);
    UBounds(a);
    UBounds(b);
  }

  // ---------------------------------------------------------------------------
  // The instructions

  /** beq, bne, blt, bge, bltu and bgeu branch on the numbers in their registers. */
  lemma BranchMeaning(a: bv64, b: bv64)
    ensures Taken(0, a, b) == Ok(U(a) == U(b)) && Taken(1, a, b) == Ok(U(a) != U(b))
    ensures Taken(4, a, b) == Ok(S(a) < S(b)) && Taken(5, a, b) == Ok(S(a) >= S(b))
    ensures Taken(6, a, b) == Ok(U(a) < U(b)) && Taken(7, a, b) == Ok(U(a) >= U(b))
  {
    hide U, S, Below, SignedLess;
    BelowMeaning(a, b);
    SignedLessMeaning(a, b);
    if U(a) == U(b) {
      UInjective(a, b);
    }
  }

  /** slt and sltu, and their immediate forms. */
  lemma SetLessMeaning(a: bv64, b: bv64, f6: bv64, shamt: bv6)
    ensures Op(2, 0, a, b) == Ok(Flag(S(a) < S(b))) == OpImm(2, f6, a, b, shamt)
    ensures Op(3, 0, a, b) == Ok(Flag(U(a) < U(b))) == OpImm(3, f6, a, b, shamt)
  {
    hide U, S, Below, SignedLess;
    BelowMeaning(a, b);
    SignedLessMeaning(a, b);
  }

  /** amomin.d, amomax.d, amominu.d and amomaxu.d store one of the two words: the one they are named after. */
  lemma AmoExtremes(t: bv64, b: bv64)
    ensures var r := AmoDouble(0x10, t, b);
            r.Ok? && r.value in {t, b} && S(r.value) <= S(t) && S(r.value) <= S(b)
    ensures var r := AmoDouble(0x14, t, b);
            r.Ok? && r.value in {t, b} && S(r.value) >= S(t) && S(r.value) >= S(b)
    ensures var r := AmoDouble(0x18, t, b);
            r.Ok? && r.value in {t, b} && U(r.value) <= U(t) && U(r.value) <= U(b)
    ensures var r := AmoDouble(0x1c, t, b);
            r.Ok? && r.value in {t, b} && U(r.value) >= U(t) && U(r.value) >= U(b)
  {
    hide U, S, Below, SignedLess;
    BelowMeaning(b, t);
    SignedLessMeaning(b, t);
  }
}
