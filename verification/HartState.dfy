/** The state of the hart and its access to memory. */
module HartState {
  import opened Types
  import opened Csr
  import opened Devices
  import opened Paging

  /** The page size (4 KiB) of the virtual memory system. */
  const PAGE_SIZE: bv64 := 4096

  type Regs = s: seq<bv64> | |s| == 32 witness seq(32, _ => 0)

  datatype Hart = Hart(
    x: Regs,
    f: Regs,
    pc: bv64,
    csr: Csrs,
    mode: Mode,
    prevMode: Mode,
    bus: Bus,
    paging: bool,
    pageTable: bv64,
    reserved: seq<bv64>,
    idle: bool)

  function GetX(m: Hart, r: bv5): bv64 { m.x[r as int] }

  /** Register x0 cannot be written. */
  function SetX(m: Hart, r: bv5, v: bv64): Hart {
    if r == 0 then m else m.(x := m.x[r as int := v])
  }

  function GetF(m: Hart, r: bv5): bv64 { m.f[r as int] }

  function SetF(m: Hart, r: bv5, v: bv64): Hart { m.(f := m.f[r as int := v]) }

  function Without(s: seq<bv64>, a: bv64): seq<bv64> {
    if s == [] then [] else (if s[0] == a then [] else [s[0]]) + Without(s[1..], a)
  }

  function Translate(m: Hart, va: bv64, acc: AccessType): Outcome<bv64> {
    if !m.paging || m.mode == Machine then Ok(va) else Walk(m.bus, m.pageTable, va, acc)
  }

  function ReadMem(m: Hart, va: bv64, size: Size): Outcome<bv64> {
    var pa :- Translate(m, va, Load);
    BusRead(m.bus, Phys(pa), size)
  }

  /** As in the source, a store first drops the reservation of its address and then translates
      as a load does. */
  function WriteMem(m: Hart, va: bv64, v: bv64, size: Size): (Hart, Outcome<()>) {
    var m1 := m.(reserved := Without(m.reserved, va));
    match Translate(m, va, Load)
    case Err(e) => (m1, Err(e))
    case Panic => (m1, Panic)
    case Ok(pa) =>
      var (b, r) := BusWrite(m.bus, Phys(pa), v, size);
      (m1.(bus := b), r)
  }

  function Fetch(m: Hart, size: Size): Outcome<bv64> {
    var pa :- Translate(m, m.pc, Instruction);
    match BusRead(m.bus, Phys(pa), size)
    case Ok(w) => Ok(w)
    case Err(_) => Err(InstructionAccessFault)
    case Panic => Panic
  }

  lemma {:induction false} InWithout(s: seq<bv64>, a: bv64, b: bv64)
    ensures b in Without(s, a) <==> b in s && b != a
  {
    if s != [] {
      InWithout(s[1..], a, b);
      assert b in s <==> b == s[0] || b in s[1..];
    }
  }

  lemma {:induction false} WithoutAbsent(s: seq<bv64>, a: bv64)
    requires a !in s
    ensures Without(s, a) == s
  {
    if s != [] {
      assert s == [s[0]] + s[1..];
      WithoutAbsent(s[1..], a);
    }
  }

  lemma WithoutTwice(s: seq<bv64>, a: bv64)
    ensures Without(Without(s, a), a) == Without(s, a)
  {
    InWithout(s, a, a);
    WithoutAbsent(Without(s, a), a);
  }

  lemma TranslateIgnoresReservations(m: Hart, reserved: seq<bv64>, va: bv64, acc: AccessType)
    ensures Translate(m.(reserved := reserved), va, acc) == Translate(m, va, acc)
  {
    hide Walk;
  }

  // ---------------------------------------------------------------------------
  // Store then load

  function Entries(m: Hart, va: bv64): seq<Addr> {
    if !m.paging || m.mode == Machine then [] else EntriesRead(m.bus, va, m.pageTable, 2)
  }

  /** A store to DRAM that misses the page-table entries used to reach `other` does not redirect it. */
  lemma StoreKeepsTranslation(m: Hart, va: bv64, v: bv64, size: Size, pa: bv64, other: bv64, acc: AccessType)
    requires Translate(m, va, Load) == Ok(pa) && InDram(m.bus, Phys(pa), size)
    requires forall p | p in Entries(m, other) :: !Overlap(Phys(pa), size.Bytes(), p, 8)
    ensures Translate(WriteMem(m, va, v, size).0, other, acc) == Translate(m, other, acc)
    ensures Entries(WriteMem(m, va, v, size).0, other) == Entries(m, other)
  {
    hide Walk, EntriesRead, BusWrite, Phys, Without;
    if m.paging && m.mode != Machine {
      StoreMissesWalk(m.bus, Phys(pa), v, size, other, acc, m.pageTable);
    }
  }

  /** A store through paging is read back, cut to its size, at every virtual address that reaches
      the same physical address by entries the store does not hit. */
  lemma StoreThenLoad(m: Hart, va: bv64, v: bv64, size: Size, pa: bv64, va': bv64)
    requires Translate(m, va, Load) == Ok(pa) && InDram(m.bus, Phys(pa), size)
    requires Translate(m, va', Load) == Ok(pa)
    requires forall p | p in Entries(m, va') :: !Overlap(Phys(pa), size.Bytes(), p, 8)
    ensures WriteMem(m, va, v, size).1 == Ok(())
    ensures ReadMem(WriteMem(m, va, v, size).0, va', size) == Ok(v & size.Mask())
  {
    hide Walk, EntriesRead, BusRead, BusWrite, Phys, Without, Translate, Entries;
    StoreKeepsTranslation(m, va, v, size, pa, va', Load);
    StoreIsReadBack(m.bus, Phys(pa), v, size);
  }
}
