/** Accesses of mixed width to DRAM and to the registers of the CLINT refine one store of bytes. */
module ByteMap {
  import opened Types
  import opened Words
  import opened ByteStore
  import opened Csr
  import opened Devices
  import opened RegisterBytes

  // ---------------------------------------------------------------------------
  // One register

  lemma AllBits(v: bv64, m: bv64)
    requires m == 0xffff_ffff_ffff_ffff
    ensures v & m == v
  {
  }

  lemma WholeWord(v: bv64)
    ensures LittleEndian(ToBytes(v, 8)) == v
  {
    hide LittleEndian, ToBytes, LowMask;
    BytesRoundTrip(v, 8);
    MaskOfSize(DoubleWord);
    AllBits(v, LowMask(8));
  }

  lemma CutBytes(v: bv64, size: Size)
    ensures LittleEndian(ToBytes(v, size.Bytes())) == CutTo(v, size)
  {
    hide LittleEndian, ToBytes, LowMask, CutTo;
    BytesRoundTrip(v, size.Bytes());
    MaskOfSize(size);
    MaskSame(v, LowMask(size.Bytes()), size);
  }

  lemma MaskSame(v: bv64, m: bv64, size: Size)
    requires m == size.Mask()
    ensures v & m == CutTo(v, size)
  {
  }

  /** A read inside a register is the value of the bytes it covers. */
  lemma SubReadIsBytes(reg: bv64, off: nat, size: Size)
    requires off + size.Bytes() <= 8
    ensures SubRead(reg, off, size) == LittleEndian(ToBytes(reg, 8)[off..off + size.Bytes()])
  {
    hide LittleEndian, ToBytes, DropBytes, CutTo, RegByte;
    var n := size.Bytes();
    if size == DoubleWord {
      assert ToBytes(reg, 8)[0..8] == ToBytes(reg, 8);
      WholeWord(reg);
    } else {
      var w := DropBytes(reg, off);
      forall i | 0 <= i < n
        ensures ToBytes(w, n)[i] == ToBytes(reg, 8)[off + i]
      {
        ByteOfWord(w, n, i);
        ByteOfDropped(reg, off, i);
        ByteOfWord(reg, 8, off + i);
      }
      assert ToBytes(w, n) == ToBytes(reg, 8)[off..off + n];
      CutBytes(w, size);
    }
  }

  lemma ByteOfDropped(v: bv64, off: nat, i: nat)
    requires off + i < 8
    ensures RegByte(DropBytes(v, off), i) == RegByte(v, off + i)
  {
    hide DropBytes, LowByte;
    DropTwice(v, off, i);
  }

  lemma UpCovers(m: bv64, c: bv64)
    requires Covers(m, c)
    ensures Covers(Up8(m), Up8(c))
  {
  }

  lemma {:induction false} PaddedCovers(m: bv64, c: bv64, off: nat)
    requires off < 8 && Covers(m, c)
    ensures Covers(PadBytes(m, off), PadBytes(c, off))
    decreases off
  {
    hide PadBytes, Up8, Covers;
    if off == 0 {
      DropNothing(m);
      DropNothing(c);
    } else {
      PaddedCovers(m, c, off - 1);
      PadNext(m, off - 1);
      PadNext(c, off - 1);
      UpCovers(PadBytes(m, off - 1), PadBytes(c, off - 1));
    }
  }

  lemma CutIsCovered(v: bv64, size: Size)
    ensures Covers(size.Mask(), CutTo(v, size))
  {
  }

  lemma OverwriteMisses(reg: bv64, m: bv64, c: bv64, f: bv64)
    requires Apart(f, m) && Covers(m, c)
    ensures And(Overwrite(reg, m, c), f) == And(reg, f)
  {
  }

  lemma OverwriteHits(reg: bv64, m: bv64, c: bv64, f: bv64)
    requires Covers(m, f)
    ensures And(Overwrite(reg, m, c), f) == And(c, f)
  {
  }

  lemma KeepOfCut(v: bv64, size: Size, f: bv64)
    requires Covers(size.Mask(), f)
    ensures And(CutTo(v, size), f) == And(v, f)
  {
  }

  /** The bits that a write puts into a register. */
  function Piece(v: bv64, size: Size, off: nat): bv64
    requires off < 8
  {
    PadBytes(CutTo(v, size), off)
  }

  lemma BytesOfPiece(v: bv64, size: Size, off: nat, j: nat)
    requires size != DoubleWord && off + size.Bytes() <= 8 && j < size.Bytes()
    ensures RegByte(Piece(v, size, off), off + j) == RegByte(v, j)
  {
    hide PadBytes, CutTo, RegByte, ByteMask, And, Covers;
    ByteOfPadded(CutTo(v, size), off, j);
    SizeMasks(size, j);
    KeepOfCut(v, size, ByteMask(j));
    RegByteReads(CutTo(v, size), v, j);
  }

  lemma PieceIsCovered(v: bv64, size: Size, off: nat)
    requires off < 8
    ensures Covers(PadBytes(size.Mask(), off), Piece(v, size, off))
  {
    hide PadBytes, CutTo, Covers;
    CutIsCovered(v, size);
    PaddedCovers(size.Mask(), CutTo(v, size), off);
  }

  lemma ByteInside(reg: bv64, off: nat, v: bv64, size: Size, k: nat)
    requires size != DoubleWord && off <= k < off + size.Bytes() <= 8
    ensures RegByte(SubWrite(reg, off, v, size), k) == RegByte(v, k - off)
  {
    hide PadBytes, CutTo, Overwrite, RegByte, ByteMask, And, Covers, Apart;
    var m, c := PadBytes(size.Mask(), off), Piece(v, size, off);
    PaddedMasks(size, off, k);
    OverwriteHits(reg, m, c, ByteMask(k));
    RegByteReads(Overwrite(reg, m, c), c, k);
    BytesOfPiece(v, size, off, k - off);
  }

  lemma ByteOutside(reg: bv64, off: nat, v: bv64, size: Size, k: nat)
    requires size != DoubleWord && off + size.Bytes() <= 8 && k < 8 && (k < off || off + size.Bytes() <= k)
    ensures RegByte(SubWrite(reg, off, v, size), k) == RegByte(reg, k)
  {
    hide PadBytes, CutTo, Overwrite, RegByte, ByteMask, And, Covers, Apart;
    var m, c := PadBytes(size.Mask(), off), Piece(v, size, off);
    PaddedMasks(size, off, k);
    PieceIsCovered(v, size, off);
    OverwriteMisses(reg, m, c, ByteMask(k));
    RegByteReads(Overwrite(reg, m, c), reg, k);
  }

  /** The byte `k` of a register after a write of part of it. */
  lemma WrittenByte(reg: bv64, off: nat, v: bv64, size: Size, k: nat)
    requires size != DoubleWord && off + size.Bytes() <= 8 && k < 8
    ensures ToBytes(SubWrite(reg, off, v, size), 8)[k] == Splice(ToBytes(reg, 8), off, ToBytes(v, size.Bytes()))[k]
  {
    hide ToBytes, SubWrite, RegByte, Splice;
    ByteOfWord(SubWrite(reg, off, v, size), 8, k);
    if off <= k < off + size.Bytes() {
      ByteInside(reg, off, v, size, k);
      ByteOfWord(v, size.Bytes(), k - off);
    } else {
      ByteOutside(reg, off, v, size, k);
      ByteOfWord(reg, 8, k);
    }
  }

  lemma EqualBytes(a: seq<bv8>, b: seq<bv8>)
    requires |a| == |b| && forall k | 0 <= k < |a| :: a[k] == b[k]
    ensures a == b
  {
  }

  /** A write inside a register replaces the bytes it covers. */
  lemma SubWriteIsBytes(reg: bv64, off: nat, v: bv64, size: Size)
    requires off + size.Bytes() <= 8
    ensures ToBytes(SubWrite(reg, off, v, size), 8) == Splice(ToBytes(reg, 8), off, ToBytes(v, size.Bytes()))
  {
    hide ToBytes, SubWrite, Splice;
    if size == DoubleWord {
      WholeWrite(reg, v);
    } else {
      var after := ToBytes(SubWrite(reg, off, v, size), 8);
      var spliced := Splice(ToBytes(reg, 8), off, ToBytes(v, size.Bytes()));
      forall k | 0 <= k < 8
        ensures after[k] == spliced[k]
      {
        WrittenByte(reg, off, v, size, k);
      }
      EqualBytes(after, spliced);
    }
  }

  lemma WholeWrite(reg: bv64, v: bv64)
    ensures SubWrite(reg, 0, v, DoubleWord) == v
    ensures Splice(ToBytes(reg, 8), 0, ToBytes(v, 8)) == ToBytes(v, 8)
  {
    hide ToBytes;
  }

  // ---------------------------------------------------------------------------
  // The regions of the bus

  datatype Region = Ram | Reg(r: ClintReg) {
    function Base(): Addr { if Ram? then DRAM_BASE else r.Base() }
  }

  /** The bytes a region stores: the registers are little-endian, `msip` four bytes wide. */
  function Contents(b: Bus, g: Region): seq<bv8> {
    if g.Ram? then b.dram else ToBytes(ClintGet(b.clint, g.r), g.r.Width())
  }

  /** The access lies in the region. */
  predicate Within(b: Bus, g: Region, a: Addr, size: Size) {
    g.Base() <= a && a - g.Base() + size.Bytes() <= |Contents(b, g)| && (g.Ram? ==> a <= DRAM_END)
  }

  lemma PrefixBytes(v: bv64)
    ensures ToBytes(v, 8)[..4] == ToBytes(v, 4)
  {
    hide ToBytes, RegByte;
    forall i | 0 <= i < 4
      ensures ToBytes(v, 8)[i] == ToBytes(v, 4)[i]
    {
      ByteOfWord(v, 8, i);
      ByteOfWord(v, 4, i);
    }
  }

  lemma KeepOfLow32(v: bv64, f: bv64)
    requires Covers(0xffff_ffff, f)
    ensures And(Low32(v), f) == And(v, f)
  {
  }

  lemma Low32Bytes(v: bv64)
    ensures ToBytes(Low32(v), 4) == ToBytes(v, 4)
  {
    hide ToBytes, RegByte, ByteMask, And, Low32, Covers;
    forall i | 0 <= i < 4
      ensures ToBytes(Low32(v), 4)[i] == ToBytes(v, 4)[i]
    {
      ByteOfWord(Low32(v), 4, i);
      ByteOfWord(v, 4, i);
      SizeMasks(Word, i);
      KeepOfLow32(v, ByteMask(i));
      RegByteReads(Low32(v), v, i);
    }
  }

  /** The bytes of a register within the eight bytes of its word. */
  lemma RegisterPrefix(b: Bus, r: ClintReg)
    ensures Contents(b, Reg(r)) == ToBytes(ClintGet(b.clint, r), 8)[..r.Width()]
  {
    hide ToBytes;
    PrefixBytes(ClintGet(b.clint, r));
    assert ToBytes(ClintGet(b.clint, r), 8)[..8] == ToBytes(ClintGet(b.clint, r), 8);
  }

  lemma ClintReadGets(b: Bus, r: ClintReg, a: Addr, size: Size)
    requires Within(b, Reg(r), a, size)
    ensures BusRead(b, a, size) == Ok(SubRead(ClintGet(b.clint, r), a - r.Base(), size))
  {
    hide ToBytes, SubRead;
  }

  lemma RamRead(b: Bus, a: Addr, size: Size)
    requires Within(b, Ram, a, size)
    ensures var i := a - DRAM_BASE; BusRead(b, a, size) == Ok(LittleEndian(b.dram[i..i + size.Bytes()]))
  {
    hide LittleEndian, ClintRead, VirtioRead;
  }

  lemma RegisterRead(b: Bus, r: ClintReg, a: Addr, size: Size)
    requires Within(b, Reg(r), a, size)
    ensures var i := a - r.Base();
            BusRead(b, a, size) == Ok(LittleEndian(Contents(b, Reg(r))[i..i + size.Bytes()]))
  {
    hide LittleEndian, ToBytes, SubRead, BusRead, ClintGet;
    var i, n := a - r.Base(), size.Bytes();
    var whole := ToBytes(ClintGet(b.clint, r), 8);
    RegisterPrefix(b, r);
    ClintReadGets(b, r, a, size);
    SubReadIsBytes(ClintGet(b.clint, r), i, size);
    assert whole[..r.Width()][i..i + n] == whole[i..i + n];
  }

  /** A read in a region is the little-endian value of the bytes it covers. */
  lemma RegionRead(b: Bus, g: Region, a: Addr, size: Size)
    requires Within(b, g, a, size)
    ensures var i := a - g.Base();
            BusRead(b, a, size) == Ok(LittleEndian(Contents(b, g)[i..i + size.Bytes()]))
  {
    hide LittleEndian, ToBytes, BusRead;
    if g.Reg? {
      RegisterRead(b, g.r, a, size);
    } else {
      RamRead(b, a, size);
    }
  }

  lemma ClintWriteSets(b: Bus, r: ClintReg, a: Addr, v: bv64, size: Size)
    requires Within(b, Reg(r), a, size)
    ensures BusWrite(b, a, v, size)
            == (b.(clint := ClintSet(b.clint, r, SubWrite(ClintGet(b.clint, r), a - r.Base(), v, size))), Ok(()))
  {
    hide ToBytes, SubWrite, Low32;
  }

  /** The bytes a register keeps of a word written to it. */
  lemma RegisterKeeps(c: Clint, r: ClintReg, x: bv64)
    ensures ToBytes(ClintGet(ClintSet(c, r, x), r), r.Width()) == ToBytes(x, 8)[..r.Width()]
  {
    hide ToBytes, Low32;
    PrefixBytes(x);
    Low32Bytes(x);
    assert ToBytes(x, 8)[..8] == ToBytes(x, 8);
  }

  lemma RegisterWrite(b: Bus, r: ClintReg, a: Addr, v: bv64, size: Size)
    requires Within(b, Reg(r), a, size)
    ensures Contents(BusWrite(b, a, v, size).0, Reg(r))
            == Splice(Contents(b, Reg(r)), a - r.Base(), ToBytes(v, size.Bytes()))
  {
    hide ToBytes, SubWrite, ClintGet, ClintSet, BusWrite, Splice;
    var i, bs, reg := a - r.Base(), ToBytes(v, size.Bytes()), ClintGet(b.clint, r);
    ClintWriteSets(b, r, a, v, size);
    SubWriteIsBytes(reg, i, v, size);
    RegisterPrefix(b, r);
    RegisterKeeps(b.clint, r, SubWrite(reg, i, v, size));
    SplicePrefix(ToBytes(reg, 8), i, bs, r.Width());
  }

  lemma OtherRegister(c: Clint, r: ClintReg, o: ClintReg, x: bv64)
    requires o != r
    ensures ClintGet(ClintSet(c, r, x), o) == ClintGet(c, o)
  {
    hide Low32;
  }

  /** A write in a region replaces the bytes it covers. */
  lemma RegionWrite(b: Bus, g: Region, a: Addr, v: bv64, size: Size)
    requires Within(b, g, a, size)
    ensures BusWrite(b, a, v, size).1 == Ok(())
    ensures Contents(BusWrite(b, a, v, size).0, g) == Splice(Contents(b, g), a - g.Base(), ToBytes(v, size.Bytes()))
  {
    hide ToBytes, SubWrite, Splice, ClintSet;
    if g.Reg? {
      ClintWriteSets(b, g.r, a, v, size);
      RegisterWrite(b, g.r, a, v, size);
    }
  }

  /** A write in a region touches no other region. */
  lemma RegionWriteMisses(b: Bus, g: Region, a: Addr, v: bv64, size: Size, o: Region)
    requires Within(b, g, a, size) && o != g
    ensures Contents(BusWrite(b, a, v, size).0, o) == Contents(b, o)
  {
    hide ToBytes, SubWrite, Splice, ClintSet, ClintGet;
    if g.Reg? {
      ClintWriteSets(b, g.r, a, v, size);
      if o.Reg? {
        OtherRegister(b.clint, g.r, o.r, SubWrite(ClintGet(b.clint, g.r), a - g.Base(), v, size));
      }
    }
  }

  lemma SplicePrefix(d: seq<bv8>, i: nat, bs: seq<bv8>, n: nat)
    requires i + |bs| <= n <= |d|
    ensures Splice(d, i, bs)[..n] == Splice(d[..n], i, bs)
  {
  }

  // ---------------------------------------------------------------------------
  // The byte store

  datatype Access = ReadOf(a: Addr, size: Size) | WriteOf(a: Addr, v: bv64, size: Size)

  type Bytes = map<int, bv8>

  predicate Holds(b: Bus, g: Region, k: int) { g.Base() <= k < g.Base() + |Contents(b, g)| }

  function ByteAt(b: Bus, g: Region, k: int): bv8
    requires Holds(b, g, k)
  {
    Contents(b, g)[k - g.Base()]
  }

  /** The store holds the bytes of every region. */
  ghost predicate Represents(b: Bus, mem: Bytes) {
    forall g: Region, k :: Holds(b, g, k) ==> k in mem && mem[k] == ByteAt(b, g, k)
  }

  /** Different regions do not share an address. */
  lemma RegionsDisjoint(b: Bus, g: Region, o: Region, k: int)
    requires Holds(b, g, k) && Holds(b, o, k)
    ensures g == o
  {
    hide ToBytes;
  }

  function RegionStore(b: Bus, g: Region): Bytes {
    map k | g.Base() <= k < g.Base() + |Contents(b, g)| :: ByteAt(b, g, k)
  }

  /** The bytes of the whole bus. */
  function StoreOf(b: Bus): Bytes {
    RegionStore(b, Reg(Msip)) + RegionStore(b, Reg(Mtimecmp)) + RegionStore(b, Reg(Mtime)) + RegionStore(b, Ram)
  }

  lemma StoreOfRepresents(b: Bus)
    ensures Represents(b, StoreOf(b))
  {
    hide Contents;
    forall g: Region, k | Holds(b, g, k)
      ensures k in StoreOf(b) && StoreOf(b)[k] == ByteAt(b, g, k)
    {
      assert k in RegionStore(b, g);
      forall o: Region | k in RegionStore(b, o)
        ensures o == g
      {
        RegionsDisjoint(b, g, o, k);
      }
    }
  }

  predicate InStore(mem: Bytes, a: Addr, n: nat) { forall k | a <= k < a + n :: k in mem }

  function Fetch(mem: Bytes, a: Addr, n: nat): seq<bv8>
    requires InStore(mem, a, n)
  {
    seq(n, i requires 0 <= i < n => mem[a + i])
  }

  function Update(mem: Bytes, a: Addr, bs: seq<bv8>): Bytes {
    map k | k in mem :: if a <= k < a + |bs| then bs[k - a] else mem[k]
  }

  /** The reads of a sequence of accesses, on the byte store. */
  function StoreReads(mem: Bytes, accesses: seq<Access>): seq<Outcome<bv64>>
    decreases |accesses|
  {
    if accesses == [] then []
    else
      match accesses[0]
      case ReadOf(a, size) =>
        (if InStore(mem, a, size.Bytes()) then [Ok(LittleEndian(Fetch(mem, a, size.Bytes())))] else [Panic])
        + StoreReads(mem, accesses[1..])
      case WriteOf(a, v, size) => StoreReads(Update(mem, a, ToBytes(v, size.Bytes())), accesses[1..])
  }

  /** The reads of a sequence of accesses, on the bus. */
  function BusReads(b: Bus, accesses: seq<Access>): seq<Outcome<bv64>>
    decreases |accesses|
  {
    if accesses == [] then []
    else
      match accesses[0]
      case ReadOf(a, size) => [BusRead(b, a, size)] + BusReads(b, accesses[1..])
      case WriteOf(a, v, size) => BusReads(BusWrite(b, a, v, size).0, accesses[1..])
  }

  ghost predicate InRange(b: Bus, x: Access) { exists g: Region :: Within(b, g, x.a, x.size) }

  lemma ReadRefines(b: Bus, mem: Bytes, a: Addr, size: Size, g: Region)
    requires Represents(b, mem) && Within(b, g, a, size)
    ensures InStore(mem, a, size.Bytes())
    ensures BusRead(b, a, size) == Ok(LittleEndian(Fetch(mem, a, size.Bytes())))
  {
    hide LittleEndian, Contents, BusRead;
    var i, n := a - g.Base(), size.Bytes();
    forall k | a <= k < a + n
      ensures k in mem && mem[k] == Contents(b, g)[i + k - a]
    {
      assert Holds(b, g, k);
    }
    RegionRead(b, g, a, size);
    assert Fetch(mem, a, n) == Contents(b, g)[i..i + n];
  }

  lemma SameHolds(b: Bus, g: Region, a: Addr, v: bv64, size: Size, o: Region, k: int)
    requires Within(b, g, a, size)
    ensures Holds(BusWrite(b, a, v, size).0, o, k) == Holds(b, o, k)
  {
    hide BusWrite, Contents, ToBytes, Splice;
    RegionWrite(b, g, a, v, size);
    if o != g {
      RegionWriteMisses(b, g, a, v, size, o);
    }
  }

  lemma WriteRefines(b: Bus, mem: Bytes, a: Addr, v: bv64, size: Size, g: Region)
    requires Represents(b, mem) && Within(b, g, a, size)
    ensures Represents(BusWrite(b, a, v, size).0, Update(mem, a, ToBytes(v, size.Bytes())))
  {
    hide BusWrite, Contents, ToBytes, Splice;
    var b', bs := BusWrite(b, a, v, size).0, ToBytes(v, size.Bytes());
    RegionWrite(b, g, a, v, size);
    forall o: Region, k | Holds(b', o, k)
      ensures k in Update(mem, a, bs) && Update(mem, a, bs)[k] == ByteAt(b', o, k)
    {
      SameHolds(b, g, a, v, size, o, k);
      if o != g {
        RegionWriteMisses(b, g, a, v, size, o);
        if a <= k < a + |bs| {
          assert Holds(b, g, k);
          RegionsDisjoint(b, g, o, k);
        }
      }
    }
  }

  lemma RangeIsKept(b: Bus, x: Access, y: Access)
    requires InRange(b, x) && y.WriteOf? && InRange(b, y)
    ensures InRange(BusWrite(b, y.a, y.v, y.size).0, x)
  {
    hide BusWrite, Contents, ToBytes, Splice;
    var g: Region :| Within(b, g, x.a, x.size);
    var o: Region :| Within(b, o, y.a, y.size);
    RegionWrite(b, o, y.a, y.v, y.size);
    if g != o {
      RegionWriteMisses(b, o, y.a, y.v, y.size, g);
    }
    assert Within(BusWrite(b, y.a, y.v, y.size).0, g, x.a, x.size);
  }

  /** For every sequence of 8, 16, 32 and 64-bit accesses inside DRAM or inside a register of the CLINT,
      each read of the bus equals the little-endian value in a byte store updated by the earlier writes. */
  lemma {:induction false} MixedWidthsRefineBytes(b: Bus, mem: Bytes, accesses: seq<Access>)
    requires Represents(b, mem)
    requires forall i | 0 <= i < |accesses| :: InRange(b, accesses[i])
    ensures BusReads(b, accesses) == StoreReads(mem, accesses)
    decreases |accesses|
  {
    hide BusRead, BusWrite, InRange, Represents, Within, ToBytes, LittleEndian, Update, Fetch;
    if accesses == [] {
    } else {
      var x, rest := accesses[0], accesses[1..];
      var g := RegionOf(b, x);
      match x {
        case ReadOf(a, size) =>
          ReadRefines(b, mem, a, size, g);
          MixedWidthsRefineBytes(b, mem, rest);
        case WriteOf(a, v, size) =>
          WriteRefines(b, mem, a, v, size, g);
          forall i | 0 <= i < |rest|
            ensures InRange(BusWrite(b, a, v, size).0, rest[i])
          {
            RangeIsKept(b, rest[i], x);
          }
          MixedWidthsRefineBytes(BusWrite(b, a, v, size).0, Update(mem, a, ToBytes(v, size.Bytes())), rest);
      }
    }
  }

  lemma RegionOf(b: Bus, x: Access) returns (g: Region)
    requires InRange(b, x)
    ensures Within(b, g, x.a, x.size)
  {
    g :| Within(b, g, x.a, x.size);
  }
}
