/** Every CSR write as a masked write of one register, and the supervisor CSRs as windows onto the
    machine registers. */
module CsrWindows {
  import opened Words
  import opened Csr

  const ALL_ONES: bv64 := 0xffff_ffff_ffff_ffff

  predicate IsView(a: CsrAddress) { a == SSTATUS || a == SIE || a == SIP }

  /** The register in which a CSR is stored. */
  function Home(a: CsrAddress): CsrAddress {
    if a == SSTATUS then MSTATUS else if a == SIE then MIE else if a == SIP then MIP else a
  }

  /** The bits of the register that a read shows. */
  function ReadMask(c: Csrs, a: CsrAddress): bv64 {
    if a == SSTATUS then SSTATUS_READABLE else if a == SIE || a == SIP then c[MIDELEG] else ALL_ONES
  }

  /** The bits of the register that a write reaches. */
  function WriteMask(c: Csrs, a: CsrAddress): bv64 {
    if IsReadOnly(a) then 0
    else if a == SSTATUS then SSTATUS_WRITABLE
    else if a == SIE then c[MIDELEG]
    else if a == SIP then And(SSIP_BIT, c[MIDELEG])
    else ALL_ONES
  }

  /** Bits `start..end`. */
  function Field(start: bv6, end: bv6): bv64 { Clear(From(start), From(end)) }

  // ---------------------------------------------------------------------------
  // Words

  lemma KeepAll(w: bv64)
    ensures And(w, ALL_ONES) == w
  {
  }

  lemma MergeAll(w: bv64, v: bv64)
    ensures Merge(w, ALL_ONES, v) == v
  {
  }

  lemma MergeNothing(w: bv64, v: bv64)
    ensures Merge(w, 0, v) == w
  {
  }

  lemma MergeKeepsOutside(w: bv64, mask: bv64, v: bv64)
    ensures Clear(Merge(w, mask, v), mask) == Clear(w, mask)
  {
  }

  lemma MergeShowsInside(w: bv64, mask: bv64, v: bv64, shown: bv64, f: bv64)
    requires Covers(mask, f) && Covers(shown, f)
    ensures And(And(Merge(w, mask, v), shown), f) == And(v, f)
  {
    hide And, Merge;
    var w' := Merge(w, mask, v);
    MergedInside(w, mask, v, f, w');
    ShownInside(w', shown, f);
  }

  lemma MergedInside(w: bv64, mask: bv64, v: bv64, f: bv64, w': bv64)
    requires Covers(mask, f) && w' == Merge(w, mask, v)
    ensures And(w', f) == And(v, f)
  {
  }

  lemma ShownInside(w: bv64, shown: bv64, f: bv64)
    requires Covers(shown, f)
    ensures And(And(w, shown), f) == And(w, f)
  {
  }

  lemma KeepTwice(w: bv64, shown: bv64, f: bv64)
    ensures And(And(w, shown), f) == w & shown & f
  {
  }

  lemma MergeShowsTheRestNamed(w: bv64, mask: bv64, v: bv64, shown: bv64, f: bv64)
    requires And(v, f) == And(And(w, shown), f)
    ensures And(And(Merge(w, mask, v), shown), f) == And(And(w, shown), f)
  {
    hide And, Merge;
    AndBits(v, f);
    KeepTwice(w, shown, f);
    var w' := Merge(w, mask, v);
    KeepTwice(w', shown, f);
    MergeShowsTheRestOf(w, mask, v, shown, f, w');
  }

  lemma MergeShowsTheRestOf(w: bv64, mask: bv64, v: bv64, shown: bv64, f: bv64, w': bv64)
    requires v & f == w & shown & f && w' == Merge(w, mask, v)
    ensures w' & shown & f == w & shown & f
  {
  }

  lemma KeepCut(y: bv64, f: bv64, h: bv64)
    ensures And(Clear(y, h), f) == And(y, Clear(f, h))
  {
  }

  /** A field is determined by the bits it occupies. */
  lemma ExtractFromField(y: bv64, z: bv64, start: bv6, end: bv6)
    requires And(y, Field(start, end)) == And(z, Field(start, end))
    ensures Extract(y, start, end) == Extract(z, start, end)
  {
    hide And, Clear, From, Shr;
    KeepCut(y, From(start), From(end));
    KeepCut(z, From(start), From(end));
    ShiftForgetsBelow(Clear(y, From(end)), Clear(z, From(end)), start);
  }

  predicate Disjoint(s: bv6, e: bv6, start: bv6, end: bv6) { s < e <= start || end <= s < e }

  predicate Survives(from: bv64, above: bv64, g: bv64) { g & (above | !from) == g }

  lemma PutMisses(w: bv64, from: bv64, above: bv64, x: bv64, g: bv64)
    requires Survives(from, above, g) && Apart(x, g)
    ensures And(Put(w, from, above, x), g) == And(w, g)
  {
  }

  lemma BelowSurvives(from: bv64, above: bv64, f: bv64, h: bv64)
    requires Covers(h, from)
    ensures Survives(from, above, Clear(f, h))
  {
  }

  lemma BelowIsApart(from: bv64, x: bv64, f: bv64, h: bv64)
    requires Covers(from, x) && Covers(h, from)
    ensures Apart(x, Clear(f, h))
  {
  }

  lemma AboveSurvives(from: bv64, above: bv64, f: bv64, h: bv64)
    requires Covers(above, f)
    ensures Survives(from, above, Clear(f, h))
  {
  }

  lemma AboveIsApart(above: bv64, x: bv64, f: bv64, h: bv64)
    requires Apart(x, above) && Covers(above, f)
    ensures Apart(x, Clear(f, h))
  {
  }

  /** A field write leaves the bits of every disjoint field alone. */
  lemma InsertMisses(w: bv64, start: bv6, end: bv6, v: bv64, s: bv6, e: bv6)
    requires start < end && Fits(v, start, end) && Disjoint(s, e, start, end)
    ensures And(Insert(w, start, end, v), Field(s, e)) == And(w, Field(s, e))
  {
    hide And, Clear, From, Shl, Shr, Put, Survives, Apart, Covers;
    var from, above, x, g := From(start), From(end), Shl(v, start), Field(s, e);
    if e <= start {
      FromNested(e, start);
      ShiftedValueIsAbove(v, start);
      BelowSurvives(from, above, From(s), From(e));
      BelowIsApart(from, x, From(s), From(e));
    } else {
      FromNested(end, s);
      AboveSurvives(from, above, From(s), From(e));
      AboveIsApart(above, x, From(s), From(e));
    }
    PutMisses(w, from, above, x, g);
  }

  // ---------------------------------------------------------------------------
  // Reads and writes in one form

  lemma ReadIsMasked(c: Csrs, a: CsrAddress)
    ensures Read(c, a) == And(c[Home(a)], ReadMask(c, a))
  {
    hide And;
    KeepAll(c[a]);
  }

  /** Whatever the address, a write is a masked write of one register. */
  lemma WriteIsMasked(c: Csrs, a: CsrAddress, v: bv64)
    ensures Write(c, a, v) == c[Home(a) := Merge(c[Home(a)], WriteMask(c, a), v)]
  {
    hide And, Merge;
    if IsReadOnly(a) {
      MergeNothing(c[a], v);
    } else if !IsView(a) {
      MergeAll(c[a], v);
    }
  }

  lemma MasksAreKept(c: Csrs, a: CsrAddress, v: bv64)
    ensures ReadMask(Write(c, a, v), a) == ReadMask(c, a) && WriteMask(Write(c, a, v), a) == WriteMask(c, a)
  {
    hide And, Merge;
  }

  lemma ReadAfterWrite(c: Csrs, a: CsrAddress, v: bv64)
    ensures Read(Write(c, a, v), a) == And(Merge(c[Home(a)], WriteMask(c, a), v), ReadMask(c, a))
  {
    hide Read, Write, And, Merge, ReadMask, WriteMask;
    WriteIsMasked(c, a, v);
    ReadIsMasked(Write(c, a, v), a);
    MasksAreKept(c, a, v);
  }

  lemma SsipInDelegated(w: bv64)
    ensures Covers(w, And(SSIP_BIT, w))
  {
  }

  lemma WritableIsReadable()
    ensures Covers(SSTATUS_READABLE, SSTATUS_WRITABLE)
  {
  }

  lemma CoversSelf(w: bv64)
    ensures Covers(w, w) && Covers(ALL_ONES, w) && Covers(w, 0)
  {
  }

  lemma CoversTrans(x: bv64, y: bv64, z: bv64)
    requires Covers(x, y) && Covers(y, z)
    ensures Covers(x, z)
  {
  }

  /** What a write reaches, a read shows. */
  lemma WritableIsShown(c: Csrs, a: CsrAddress)
    ensures Covers(ReadMask(c, a), WriteMask(c, a))
  {
    hide And, Covers;
    SsipInDelegated(c[MIDELEG]);
    WritableIsReadable();
    CoversSelf(c[MIDELEG]);
    CoversSelf(WriteMask(c, a));
    CoversSelf(ReadMask(c, a));
  }

  /** The bits of a written word that the register takes are read back. */
  lemma WordIsReadBack(c: Csrs, a: CsrAddress, v: bv64, f: bv64)
    requires Covers(WriteMask(c, a), f)
    ensures And(Read(Write(c, a, v), a), f) == And(v, f)
  {
    hide Read, Write, And, Merge, ReadMask, WriteMask, Covers;
    ReadAfterWrite(c, a, v);
    WritableIsShown(c, a);
    CoversTrans(ReadMask(c, a), WriteMask(c, a), f);
    MergeShowsInside(c[Home(a)], WriteMask(c, a), v, ReadMask(c, a), f);
  }

  /** Bits of a written word that are as they were read do not change what is read there. */
  lemma WordKeepsTheRest(c: Csrs, a: CsrAddress, v: bv64, f: bv64)
    requires And(v, f) == And(Read(c, a), f)
    ensures And(Read(Write(c, a, v), a), f) == And(Read(c, a), f)
  {
    hide Read, Write, And, Merge, ReadMask, WriteMask;
    ReadAfterWrite(c, a, v);
    ReadIsMasked(c, a);
    MergeShowsTheRestNamed(c[Home(a)], WriteMask(c, a), v, ReadMask(c, a), f);
  }

  // ---------------------------------------------------------------------------
  // Fields

  /** A field that fits and lies inside the writable bits is read back. */
  lemma FieldIsReadBack(c: Csrs, a: CsrAddress, start: bv6, end: bv6, v: bv64)
    requires start < end && Fits(v, start, end) && Covers(WriteMask(c, a), Field(start, end))
    ensures ReadBits(WriteBits(c, a, start, end, v), a, start, end) == v
  {
    hide Read, Write, And, Field, Insert, Extract, Fits, Covers, WriteMask;
    var w := Insert(Read(c, a), start, end, v);
    WordIsReadBack(c, a, w, Field(start, end));
    ExtractFromField(Read(Write(c, a, w), a), w, start, end);
    ExtractInsertSame(Read(c, a), start, end, v);
  }

  /** A field write changes no disjoint field of the same CSR, writable or not. */
  lemma DisjointFieldIsKept(c: Csrs, a: CsrAddress, start: bv6, end: bv6, v: bv64, s: bv6, e: bv6)
    requires start < end && Fits(v, start, end) && Disjoint(s, e, start, end)
    ensures ReadBits(WriteBits(c, a, start, end, v), a, s, e) == ReadBits(c, a, s, e)
  {
    hide Read, Write, And, Field, Insert, Extract, Fits, Disjoint;
    var w := Insert(Read(c, a), start, end, v);
    InsertMisses(Read(c, a), start, end, v, s, e);
    WordKeepsTheRest(c, a, w, Field(s, e));
    ExtractFromField(Read(Write(c, a, w), a), Read(c, a), s, e);
  }

  // ---------------------------------------------------------------------------
  // Bits

  lemma SetBitThere(w: bv64, b: bv64)
    ensures And(Or(w, b), b) == b && And(Clear(w, b), b) == 0
  {
  }

  lemma SetBitElsewhere(w: bv64, b: bv64, d: bv64)
    requires Apart(b, d)
    ensures And(Or(w, b), d) == And(w, d)
  {
  }

  lemma ClearBitElsewhere(w: bv64, b: bv64, d: bv64)
    requires Apart(b, d)
    ensures And(Clear(w, b), d) == And(w, d)
  {
  }

  lemma BitIsNotZero(k: bv6)
    ensures Bit(k) != 0
  {
  }

  lemma BitsApart(j: bv6, k: bv6)
    requires j != k
    ensures Apart(Bit(j), Bit(k))
  {
  }

  lemma BitIsReadBack(c: Csrs, a: CsrAddress, k: bv6, val: bv64)
    requires val == 0 || val == 1
    requires Covers(WriteMask(c, a), Bit(k))
    ensures ReadBit(WriteBit(c, a, k, val), a, k) == val
  {
    hide Read, Write, And, Or, Clear, Bit, WriteMask;
    var w := Read(c, a);
    var w' := if val == 1 then Or(w, Bit(k)) else Clear(w, Bit(k));
    WordIsReadBack(c, a, w', Bit(k));
    SetBitThere(w, Bit(k));
    BitIsNotZero(k);
  }

  lemma OtherBitIsKept(c: Csrs, a: CsrAddress, k: bv6, val: bv64, j: bv6)
    requires j != k
    ensures ReadBit(WriteBit(c, a, k, val), a, j) == ReadBit(c, a, j)
  {
    hide Read, Write, And, Or, Clear, Bit;
    var w := Read(c, a);
    BitsApart(k, j);
    SetBitElsewhere(w, Bit(k), Bit(j));
    ClearBitElsewhere(w, Bit(k), Bit(j));
    WordKeepsTheRest(c, a, Or(w, Bit(k)), Bit(j));
    WordKeepsTheRest(c, a, Clear(w, Bit(k)), Bit(j));
  }

  lemma BitBelow(k: bv6, s: bv6)
    requires k < s
    ensures Apart(Bit(k), From(s))
  {
  }

  lemma BitAbove(k: bv6, e: bv6)
    requires e <= k
    ensures Covers(From(e), Bit(k))
  {
  }

  lemma BelowFieldIsApart(b: bv64, f: bv64, h: bv64)
    requires Apart(b, f)
    ensures Apart(b, Clear(f, h))
  {
  }

  lemma AboveFieldIsApart(b: bv64, f: bv64, h: bv64)
    requires Covers(h, b)
    ensures Apart(b, Clear(f, h))
  {
  }

  lemma ApartWithin(outer: bv64, x: bv64, b: bv64)
    requires Covers(outer, x) && Apart(b, outer)
    ensures Apart(x, b)
  {
  }

  lemma ApartInside(x: bv64, above: bv64, b: bv64)
    requires Apart(x, above) && Covers(above, b)
    ensures Apart(x, b)
  {
  }

  lemma BelowSurvivesBit(from: bv64, above: bv64, b: bv64)
    requires Apart(b, from)
    ensures Survives(from, above, b)
  {
  }

  lemma AboveSurvivesBit(from: bv64, above: bv64, b: bv64)
    requires Covers(above, b)
    ensures Survives(from, above, b)
  {
  }

  /** A bit write leaves every field without that bit alone. */
  lemma BitWriteMissesField(c: Csrs, a: CsrAddress, k: bv6, val: bv64, s: bv6, e: bv6)
    requires k < s || e <= k
    ensures ReadBits(WriteBit(c, a, k, val), a, s, e) == ReadBits(c, a, s, e)
  {
    hide Read, Write, And, Or, Clear, Bit, From, Extract, Apart, Covers;
    var w, f := Read(c, a), Field(s, e);
    if k < s {
      BitBelow(k, s);
      BelowFieldIsApart(Bit(k), From(s), From(e));
    } else {
      BitAbove(k, e);
      AboveFieldIsApart(Bit(k), From(s), From(e));
    }
    SetBitElsewhere(w, Bit(k), f);
    ClearBitElsewhere(w, Bit(k), f);
    WordKeepsTheRest(c, a, Or(w, Bit(k)), f);
    WordKeepsTheRest(c, a, Clear(w, Bit(k)), f);
    ExtractFromField(Read(WriteBit(c, a, k, val), a), w, s, e);
  }

  /** A field write leaves every bit outside the field alone. */
  lemma FieldWriteMissesBit(c: Csrs, a: CsrAddress, start: bv6, end: bv6, v: bv64, k: bv6)
    requires start < end && Fits(v, start, end) && (k < start || end <= k)
    ensures ReadBit(WriteBits(c, a, start, end, v), a, k) == ReadBit(c, a, k)
  {
    hide Read, Write, And, Clear, Bit, From, Shl, Shr, Put, Apart, Covers, Survives;
    var w, from, above, x, b := Read(c, a), From(start), From(end), Shl(v, start), Bit(k);
    if k < start {
      BitBelow(k, start);
      ShiftedValueIsAbove(v, start);
      ApartWithin(from, x, b);
      BelowSurvivesBit(from, above, b);
    } else {
      BitAbove(k, end);
      ApartInside(x, above, b);
      AboveSurvivesBit(from, above, b);
    }
    PutMisses(w, from, above, x, b);
    WordKeepsTheRest(c, a, Insert(w, start, end, v), b);
  }

  // ---------------------------------------------------------------------------
  // The supervisor's views

  datatype ViewWrite =
    | SetWord(a: CsrAddress, v: bv64)
    | SetBit(a: CsrAddress, bit: bv6, v: bv64)
    | SetField(a: CsrAddress, start: bv6, end: bv6, v: bv64)

  function Apply(c: Csrs, op: ViewWrite): Csrs {
    match op
    case SetWord(a, v) => Write(c, a, v)
    case SetBit(a, bit, v) => WriteBit(c, a, bit, v)
    case SetField(a, start, end, v) => WriteBits(c, a, start, end, v)
  }

  function ApplyAll(c: Csrs, ops: seq<ViewWrite>): Csrs
    decreases |ops|
  {
    if ops == [] then c else ApplyAll(Apply(c, ops[0]), ops[1..])
  }

  /** `after` differs from `before` at most in the windows of the supervisor's views. */
  ghost predicate WindowsHold(before: Csrs, after: Csrs) {
    && (forall r: CsrAddress | r != MSTATUS && r != MIE && r != MIP :: after[r] == before[r])
    && Clear(after[MSTATUS], SSTATUS_WRITABLE) == Clear(before[MSTATUS], SSTATUS_WRITABLE)
    && Clear(after[MIE], before[MIDELEG]) == Clear(before[MIE], before[MIDELEG])
    && Clear(after[MIP], And(SSIP_BIT, before[MIDELEG])) == Clear(before[MIP], And(SSIP_BIT, before[MIDELEG]))
  }

  lemma WriteHoldsWindows(c: Csrs, a: CsrAddress, v: bv64)
    requires IsView(a)
    ensures WindowsHold(c, Write(c, a, v))
  {
    hide Clear, And, Merge;
    MergeKeepsOutside(c[Home(a)], WriteMask(c, a), v);
  }

  lemma ApplyHoldsWindows(c: Csrs, op: ViewWrite)
    requires IsView(op.a)
    ensures WindowsHold(c, Apply(c, op))
  {
    hide WindowsHold, Write, Read, IsView, Or, Clear, Bit, Insert;
    match op {
      case SetWord(a, v) =>
        WriteHoldsWindows(c, a, v);
      case SetBit(a, bit, v) =>
        var w := Read(c, a);
        WriteHoldsWindows(c, a, Or(w, Bit(bit)));
        WriteHoldsWindows(c, a, Clear(w, Bit(bit)));
        WindowsHoldSelf(c);
      case SetField(a, start, end, v) =>
        WriteHoldsWindows(c, a, Insert(Read(c, a), start, end, v));
    }
  }

  lemma WindowsHoldSelf(c: Csrs)
    ensures WindowsHold(c, c)
  {
  }

  /** No sequence of writes through the supervisor's views, of words, bits or fields, changes a bit
      of mstatus, mie or mip outside its window, or any other CSR. */
  lemma {:induction false} ViewsAreWindows(c: Csrs, ops: seq<ViewWrite>)
    requires forall op | op in ops :: IsView(op.a)
    ensures WindowsHold(c, ApplyAll(c, ops))
    decreases |ops|
  {
    hide Apply, IsView, Clear, And;
    if ops == [] {
    } else {
      ApplyHoldsWindows(c, ops[0]);
      ViewsAreWindows(Apply(c, ops[0]), ops[1..]);
    }
  }

  const UXL: bv64 := 0x3_0000_0000

  lemma UxlIsOutside(w: bv64)
    ensures And(And(w, SSTATUS_READABLE), UXL) == And(Clear(w, SSTATUS_WRITABLE), UXL)
  {
  }

  /** UXL is shown by SSTATUS, and no sequence of writes through the views changes it. */
  lemma UxlIsReadOnly(c: Csrs, ops: seq<ViewWrite>)
    requires forall op | op in ops :: IsView(op.a)
    ensures And(Read(c, SSTATUS), UXL) == And(c[MSTATUS], UXL)
    ensures And(Read(ApplyAll(c, ops), SSTATUS), UXL) == And(c[MSTATUS], UXL)
  {
    hide Clear, And, IsView, ApplyAll;
    var c' := ApplyAll(c, ops);
    ViewsAreWindows(c, ops);
    UxlIsOutside(c[MSTATUS]);
    UxlIsOutside(c'[MSTATUS]);
    UxlIsShown(c[MSTATUS]);
  }

  lemma UxlIsShown(w: bv64)
    ensures And(And(w, SSTATUS_READABLE), UXL) == And(w, UXL)
  {
  }

  /** A bit of mstatus inside the window of SSTATUS is the same bit through either address. */
  lemma SstatusReadsMstatus(c: Csrs, k: bv6)
    requires Covers(SSTATUS_WRITABLE, Bit(k))
    ensures ReadBit(c, SSTATUS, k) == ReadBit(c, MSTATUS, k)
  {
    hide And, Bit;
    ReadThrough(c[MSTATUS], Bit(k));
  }

  lemma ReadThrough(w: bv64, b: bv64)
    requires Covers(SSTATUS_WRITABLE, b)
    ensures And(And(w, SSTATUS_READABLE), b) == And(w, b)
  {
  }

  lemma SetThrough(w: bv64, b: bv64)
    requires Covers(SSTATUS_WRITABLE, b)
    ensures Merge(w, SSTATUS_WRITABLE, Or(And(w, SSTATUS_READABLE), b)) == Or(w, b)
  {
  }

  lemma ClearThrough(w: bv64, b: bv64)
    requires Covers(SSTATUS_WRITABLE, b)
    ensures Merge(w, SSTATUS_WRITABLE, Clear(And(w, SSTATUS_READABLE), b)) == Clear(w, b)
  {
  }

  lemma SstatusWritesMstatus(c: Csrs, k: bv6, val: bv64)
    requires Covers(SSTATUS_WRITABLE, Bit(k))
    ensures WriteBit(c, SSTATUS, k, val) == WriteBit(c, MSTATUS, k, val)
  {
    hide And, Bit, Or, Clear, Merge;
    SetThrough(c[MSTATUS], Bit(k));
    ClearThrough(c[MSTATUS], Bit(k));
  }
}
