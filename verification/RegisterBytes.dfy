/** The bytes of a 64-bit register, and sub-register accesses as accesses to bytes. */
module RegisterBytes {
  import opened Types
  import opened Words
  import opened ByteStore
  import opened Devices
  import opened Csr

  function LowByte(v: bv64): bv8 { FirstByte(v) }

  /** Byte `k` of a register. */
  function RegByte(v: bv64, k: nat): bv8
    requires k < 8
  {
    LowByte(DropBytes(v, k))
  }

  /** The bits of byte `k`. */
  function ByteMask(k: nat): bv64
    requires k < 8
  {
    PadBytes(0xff, k)
  }

  // ---------------------------------------------------------------------------
  // Shifting by bytes

  function Up8(v: bv64): bv64 { v << 8 }

  lemma DropNext(v: bv64, k: nat)
    requires k < 7
    ensures DropBytes(v, k + 1) == Shift8(DropBytes(v, k))
  {
    hide Shr, Shift8;
    if k == 0 { DropNext0(v); } else if k == 1 { DropNext1(v); }
    else if k == 2 { DropNext2(v); } else if k == 3 { DropNext3(v); }
    else if k == 4 { DropNext4(v); } else if k == 5 { DropNext5(v); } else { DropNext6(v); }
  }

  lemma DropNext0(v: bv64)
    ensures Shr(v, 8) == Shift8(Shr(v, 0))
  {
  }

  lemma DropNext1(v: bv64)
    ensures Shr(v, 16) == Shift8(Shr(v, 8))
  {
  }

  lemma DropNext2(v: bv64)
    ensures Shr(v, 24) == Shift8(Shr(v, 16))
  {
  }

  lemma DropNext3(v: bv64)
    ensures Shr(v, 32) == Shift8(Shr(v, 24))
  {
  }

  lemma DropNext4(v: bv64)
    ensures Shr(v, 40) == Shift8(Shr(v, 32))
  {
  }

  lemma DropNext5(v: bv64)
    ensures Shr(v, 48) == Shift8(Shr(v, 40))
  {
  }

  lemma DropNext6(v: bv64)
    ensures Shr(v, 56) == Shift8(Shr(v, 48))
  {
  }

  lemma DropNothing(v: bv64)
    ensures DropBytes(v, 0) == v == PadBytes(v, 0)
  {
  }

  lemma {:induction false} DropTwice(v: bv64, j: nat, k: nat)
    requires j + k < 8
    ensures DropBytes(DropBytes(v, j), k) == DropBytes(v, j + k)
    decreases k
  {
    hide DropBytes, Shift8;
    if k == 0 {
      DropNothing(DropBytes(v, j));
    } else {
      DropTwice(v, j, k - 1);
      DropNext(DropBytes(v, j), k - 1);
      DropNext(v, j + k - 1);
    }
  }

  lemma PadNext(v: bv64, k: nat)
    requires k < 7
    ensures PadBytes(v, k + 1) == Up8(PadBytes(v, k))
  {
    hide Shl, Up8;
    if k == 0 { PadNext0(v); } else if k == 1 { PadNext1(v); }
    else if k == 2 { PadNext2(v); } else if k == 3 { PadNext3(v); }
    else if k == 4 { PadNext4(v); } else if k == 5 { PadNext5(v); } else { PadNext6(v); }
  }

  lemma PadNext0(v: bv64)
    ensures Shl(v, 8) == Up8(Shl(v, 0))
  {
  }

  lemma PadNext1(v: bv64)
    ensures Shl(v, 16) == Up8(Shl(v, 8))
  {
  }

  lemma PadNext2(v: bv64)
    ensures Shl(v, 24) == Up8(Shl(v, 16))
  {
  }

  lemma PadNext3(v: bv64)
    ensures Shl(v, 32) == Up8(Shl(v, 24))
  {
  }

  lemma PadNext4(v: bv64)
    ensures Shl(v, 40) == Up8(Shl(v, 32))
  {
  }

  lemma PadNext5(v: bv64)
    ensures Shl(v, 48) == Up8(Shl(v, 40))
  {
  }

  lemma PadNext6(v: bv64)
    ensures Shl(v, 56) == Up8(Shl(v, 48))
  {
  }

  lemma UpThenDown(v: bv64)
    ensures DropBytes(Up8(v), 1) == v & 0x00ff_ffff_ffff_ffff
  {
  }

  lemma LowSeven(v: bv64, w: bv64, k: nat)
    requires k < 7 && w == v & 0x00ff_ffff_ffff_ffff
    ensures RegByte(w, k) == RegByte(v, k)
  {
  }

  lemma ByteOfUp8(v: bv64, k: nat)
    requires k < 7
    ensures RegByte(Up8(v), k + 1) == RegByte(v, k)
  {
    hide DropBytes, Up8, LowByte;
    UpThenDown(v);
    DropTwice(Up8(v), 1, k);
    LowSeven(v, DropBytes(Up8(v), 1), k);
  }

  /** Padding moves the bytes up. */
  lemma {:induction false} ByteOfPadded(v: bv64, off: nat, k: nat)
    requires off + k < 8
    ensures RegByte(PadBytes(v, off), off + k) == RegByte(v, k)
    decreases off
  {
    hide PadBytes, Up8, RegByte;
    if off == 0 {
      DropNothing(v);
    } else {
      PadNext(v, off - 1);
      ByteOfPadded(v, off - 1, k);
      ByteOfUp8(PadBytes(v, off - 1), off + k - 1);
    }
  }

  lemma DropOne(v: bv64)
    ensures Shift8(v) == DropBytes(v, 1)
  {
  }

  /** The bytes of a word are those of the register. */
  lemma {:induction false} ByteOfWord(v: bv64, n: nat, i: nat)
    requires i < n <= 8
    ensures ToBytes(v, n)[i] == RegByte(v, i)
    decreases n
  {
    hide DropBytes, Shift8, FirstByte, ToBytes;
    ToBytesUnfold(v, n);
    if i == 0 {
      DropNothing(v);
    } else {
      ByteOfWord(Shift8(v), n - 1, i - 1);
      DropOne(v);
      DropTwice(v, 1, i - 1);
    }
  }

  // ---------------------------------------------------------------------------
  // Masks

  /** A byte depends on its own bits only. */
  lemma RegByteReads(x: bv64, y: bv64, k: nat)
    requires k < 8 && And(x, ByteMask(k)) == And(y, ByteMask(k))
    ensures RegByte(x, k) == RegByte(y, k)
  {
    hide RegByte, ByteMask, And;
    RegByteOfKept(x, k);
    RegByteOfKept(y, k);
  }

  lemma RegByteOfKept(x: bv64, k: nat)
    requires k < 8
    ensures RegByte(x, k) == RegByte(And(x, ByteMask(k)), k)
  {
    hide RegByte, And, ByteMask;
    ByteMaskIs(k);
    var m, y := ByteMask(k), And(x, ByteMask(k));
    if k == 0 { Kept0(x, m, y); } else if k == 1 { Kept1(x, m, y); } else if k == 2 { Kept2(x, m, y); }
    else if k == 3 { Kept3(x, m, y); } else if k == 4 { Kept4(x, m, y); } else if k == 5 { Kept5(x, m, y); }
    else if k == 6 { Kept6(x, m, y); } else { Kept7(x, m, y); }
  }

  lemma ByteMaskIs(k: nat)
    requires k < 8
    ensures ByteMask(k) == if k == 0 then 0xff else if k == 1 then 0xff00 else if k == 2 then 0xff_0000
                           else if k == 3 then 0xff00_0000 else if k == 4 then 0xff_0000_0000
                           else if k == 5 then 0xff00_0000_0000 else if k == 6 then 0xff_0000_0000_0000
                           else 0xff00_0000_0000_0000
  {
  }

  lemma Kept0(x: bv64, m: bv64, y: bv64)
    requires m == 0xff && y == And(x, m)
    ensures RegByte(x, 0) == RegByte(y, 0)
  {
  }

  lemma Kept1(x: bv64, m: bv64, y: bv64)
    requires m == 0xff00 && y == And(x, m)
    ensures RegByte(x, 1) == RegByte(y, 1)
  {
  }

  lemma Kept2(x: bv64, m: bv64, y: bv64)
    requires m == 0xff_0000 && y == And(x, m)
    ensures RegByte(x, 2) == RegByte(y, 2)
  {
  }

  lemma Kept3(x: bv64, m: bv64, y: bv64)
    requires m == 0xff00_0000 && y == And(x, m)
    ensures RegByte(x, 3) == RegByte(y, 3)
  {
  }

  lemma Kept4(x: bv64, m: bv64, y: bv64)
    requires m == 0xff_0000_0000 && y == And(x, m)
    ensures RegByte(x, 4) == RegByte(y, 4)
  {
  }

  lemma Kept5(x: bv64, m: bv64, y: bv64)
    requires m == 0xff00_0000_0000 && y == And(x, m)
    ensures RegByte(x, 5) == RegByte(y, 5)
  {
  }

  lemma Kept6(x: bv64, m: bv64, y: bv64)
    requires m == 0xff_0000_0000_0000 && y == And(x, m)
    ensures RegByte(x, 6) == RegByte(y, 6)
  {
  }

  lemma Kept7(x: bv64, m: bv64, y: bv64)
    requires m == 0xff00_0000_0000_0000 && y == And(x, m)
    ensures RegByte(x, 7) == RegByte(y, 7)
  {
  }

  /** Byte masks at or above `n` lie outside the low `n` bytes, the others inside. */
  lemma SizeMasks(size: Size, k: nat)
    requires k < 8 && size != DoubleWord
    ensures if k < size.Bytes() then Covers(size.Mask(), ByteMask(k)) else Apart(ByteMask(k), size.Mask())
  {
  }

  lemma PaddedMasks(size: Size, off: nat, k: nat)
    requires size != DoubleWord && off + size.Bytes() <= 8 && k < 8
    ensures if off <= k < off + size.Bytes() then Covers(PadBytes(size.Mask(), off), ByteMask(k))
            else Apart(ByteMask(k), PadBytes(size.Mask(), off))
  {
  }
}
