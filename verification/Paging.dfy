/** Sv39 address translation as the recursion of section 4.3.2 of the RISC-V Privileged Architecture. */
module Paging {
  import opened Types
  import opened Devices

  type Level = l: int | 0 <= l < 3

  function PageFault(acc: AccessType): Exception {
    match acc
    case Instruction => InstructionPageFault
    case Load => LoadPageFault
    case Store => StoreAMOPageFault
  }

  function Vpn(va: bv64, level: Level): bv64 {
    if level == 0 then (va >> 12) & 0x1ff
    else if level == 1 then (va >> 21) & 0x1ff
    else (va >> 30) & 0x1ff
  }

  function PteAddress(table: bv64, va: bv64, level: Level): Addr {
    Phys(EntryOf(table, Vpn(va, level)))
  }

  function EntryOf(table: bv64, vpn: bv64): bv64 { table + vpn * 8 }

  predicate IsUsable(pte: bv64) {
    pte & 1 != 0 && (pte & 2 != 0 || pte & 4 == 0)
  }

  predicate IsLeaf(pte: bv64) {
    pte & 2 != 0 || pte & 8 != 0
  }

  /** The physical page number of an entry, as an address. */
  function PageBase(pte: bv64): bv64 {
    ((pte >> 10) & 0x0fff_ffff_ffff) << 12
  }

  /** The low `12 + 9 * level` bits, which a page of that level leaves untranslated. */
  function OffsetMask(level: Level): bv64 {
    if level == 0 then 0xfff else if level == 1 then 0x1f_ffff else 0x3fff_ffff
  }

  function OffsetIn(va: bv64, level: Level): bv64 { va & OffsetMask(level) }

  function PageOf(va: bv64, level: Level): bv64 { va & !OffsetMask(level) }

  predicate IsAligned(pte: bv64, level: Level) {
    OffsetIn(PageBase(pte), level) == 0
  }

  function PageAddress(pte: bv64, va: bv64, level: Level): bv64 {
    PageBase(pte) | OffsetIn(va, level)
  }

  datatype Leaf = Leaf(pte: bv64, level: Level)

  /** Steps 2 to 4: descend from a table to a leaf entry. */
  function FindLeaf(b: Bus, va: bv64, acc: AccessType, table: bv64, level: Level): Outcome<Leaf>
    decreases level
  {
    var pte :- BusRead(b, PteAddress(table, va, level), DoubleWord);
    if !IsUsable(pte) then Err(PageFault(acc))
    else if IsLeaf(pte) then Ok(Leaf(pte, level))
    else if level == 0 then Err(PageFault(acc))
    else FindLeaf(b, va, acc, PageBase(pte), level - 1)
  }

  /** Steps 6 and 8: the superpage check and the physical address. */
  function Resolve(leaf: Leaf, va: bv64, acc: AccessType): Outcome<bv64> {
    if IsAligned(leaf.pte, leaf.level) then Ok(PageAddress(leaf.pte, va, leaf.level)) else Err(PageFault(acc))
  }

  function Descend(b: Bus, va: bv64, acc: AccessType, table: bv64, level: Level): Outcome<bv64> {
    var leaf :- FindLeaf(b, va, acc, table, level);
    Resolve(leaf, va, acc)
  }

  function Walk(b: Bus, root: bv64, va: bv64, acc: AccessType): Outcome<bv64> {
    Descend(b, va, acc, root, 2)
  }

  /** The addresses of the page-table entries that a walk reads, in order. */
  function EntriesRead(b: Bus, va: bv64, table: bv64, level: Level): seq<Addr>
    decreases level
  {
    var p := PteAddress(table, va, level);
    var r := BusRead(b, p, DoubleWord);
    if r.Ok? && IsUsable(r.value) && !IsLeaf(r.value) && level > 0 then
      [p] + EntriesRead(b, va, PageBase(r.value), level - 1)
    else [p]
  }

  lemma {:induction false} AtMostOneEntryPerLevel(b: Bus, va: bv64, table: bv64, level: Level)
    ensures 1 <= |EntriesRead(b, va, table, level)| <= level + 1
    decreases level
  {
    hide BusRead, PteAddress, IsUsable, IsLeaf, PageBase;
    var r := BusRead(b, PteAddress(table, va, level), DoubleWord);
    if r.Ok? && level > 0 {
      AtMostOneEntryPerLevel(b, va, PageBase(r.value), level - 1);
    }
  }

  predicate SameAt(b: Bus, b': Bus, ps: seq<Addr>) {
    forall p | p in ps :: BusRead(b', p, DoubleWord) == BusRead(b, p, DoubleWord)
  }

  /** A walk depends on nothing in memory but the entries it reads. */
  lemma {:induction false} WalkReadsOnlyItsEntries(
      b: Bus, b': Bus, va: bv64, acc: AccessType, table: bv64, level: Level)
    requires SameAt(b, b', EntriesRead(b, va, table, level))
    ensures FindLeaf(b', va, acc, table, level) == FindLeaf(b, va, acc, table, level)
    ensures EntriesRead(b', va, table, level) == EntriesRead(b, va, table, level)
    decreases level
  {
    hide BusRead, PteAddress, IsUsable, IsLeaf, PageBase;
    var p := PteAddress(table, va, level);
    assert p in EntriesRead(b, va, table, level);
    var r := BusRead(b, p, DoubleWord);
    if r.Ok? && IsUsable(r.value) && !IsLeaf(r.value) && level > 0 {
      WalkReadsOnlyItsEntries(b, b', va, acc, PageBase(r.value), level - 1);
    }
  }

  /** The bits of a virtual address that Sv39 uses. */
  function Low39(va: bv64): bv64 { va & 0x7f_ffff_ffff }

  lemma VpnIgnoresHighBits(va: bv64, va': bv64, level: Level)
    requires Low39(va) == Low39(va')
    ensures Vpn(va, level) == Vpn(va', level)
  {
  }

  lemma PteAddressIgnoresHighBits(table: bv64, va: bv64, va': bv64, level: Level)
    requires Low39(va) == Low39(va')
    ensures PteAddress(table, va, level) == PteAddress(table, va', level)
  {
    hide Vpn, Low39, Phys, EntryOf;
    VpnIgnoresHighBits(va, va', level);
  }

  lemma PageAddressIgnoresHighBits(pte: bv64, va: bv64, va': bv64, level: Level)
    requires Low39(va) == Low39(va')
    ensures PageAddress(pte, va, level) == PageAddress(pte, va', level)
  {
    hide PageBase;
  }

  lemma {:induction false} WalkIgnoresHighBits(
      b: Bus, va: bv64, va': bv64, acc: AccessType, table: bv64, level: Level)
    requires Low39(va) == Low39(va')
    ensures FindLeaf(b, va', acc, table, level) == FindLeaf(b, va, acc, table, level)
    ensures EntriesRead(b, va', table, level) == EntriesRead(b, va, table, level)
    decreases level
  {
    hide BusRead, PteAddress, IsUsable, IsLeaf, PageBase, Low39;
    PteAddressIgnoresHighBits(table, va, va', level);
    var r := BusRead(b, PteAddress(table, va, level), DoubleWord);
    if r.Ok? && level > 0 {
      WalkIgnoresHighBits(b, va, va', acc, PageBase(r.value), level - 1);
    }
  }

  /** Bits 39 to 63 of the virtual address play no part. */
  lemma TranslationIgnoresHighBits(b: Bus, root: bv64, va: bv64, va': bv64, acc: AccessType)
    requires Low39(va) == Low39(va')
    ensures Walk(b, root, va', acc) == Walk(b, root, va, acc)
  {
    hide FindLeaf, EntriesRead, IsAligned, PageAddress, Low39;
    WalkIgnoresHighBits(b, va, va', acc, root, 2);
    var leaf := FindLeaf(b, va, acc, root, 2);
    if leaf.Ok? {
      PageAddressIgnoresHighBits(leaf.value.pte, va, va', leaf.value.level);
    }
  }

  /** The outcome for one kind of access, as it is for another. */
  function ForAccess<T>(r: Outcome<T>, acc: AccessType, acc': AccessType): Outcome<T> {
    if r == Err(PageFault(acc)) then Err(PageFault(acc')) else r
  }

  /** The outcome does not depend on the kind of access, except that a page fault names it. */
  lemma {:induction false} FindLeafForAccess(
      b: Bus, va: bv64, acc: AccessType, acc': AccessType, table: bv64, level: Level)
    ensures FindLeaf(b, va, acc', table, level) == ForAccess(FindLeaf(b, va, acc, table, level), acc, acc')
    decreases level
  {
    hide BusRead, PteAddress, IsUsable, IsLeaf, PageBase;
    var r := BusRead(b, PteAddress(table, va, level), DoubleWord);
    BusReadError(b, PteAddress(table, va, level), DoubleWord);
    if r.Ok? && level > 0 {
      FindLeafForAccess(b, va, acc, acc', PageBase(r.value), level - 1);
    }
  }

  lemma WalkForAccess(b: Bus, root: bv64, va: bv64, acc: AccessType, acc': AccessType)
    ensures Walk(b, root, va, acc') == ForAccess(Walk(b, root, va, acc), acc, acc')
  {
    hide FindLeaf, IsAligned, PageAddress;
    FindLeafForAccess(b, va, acc, acc', root, 2);
  }

  // ---------------------------------------------------------------------------
  // Superpages

  /** The virtual addresses of one page of the given level. */
  predicate SamePage(va: bv64, va': bv64, level: Level) {
    PageOf(va, level) == PageOf(va', level)
  }

  lemma VpnOfSamePage(va: bv64, va': bv64, level: Level, upper: Level)
    requires SamePage(va, va', level) && level <= upper
    ensures Vpn(va, upper) == Vpn(va', upper)
  {
  }

  lemma PteAddressOfSamePage(table: bv64, va: bv64, va': bv64, level: Level, upper: Level)
    requires SamePage(va, va', level) && level <= upper
    ensures PteAddress(table, va, upper) == PteAddress(table, va', upper)
  {
    hide Vpn, SamePage, Phys, EntryOf;
    VpnOfSamePage(va, va', level, upper);
  }

  lemma {:induction false} SamePageSameLeaf(
      b: Bus, va: bv64, va': bv64, acc: AccessType, table: bv64, level: Level, leaf: Leaf)
    requires FindLeaf(b, va, acc, table, level) == Ok(leaf) && SamePage(va, va', leaf.level)
    ensures FindLeaf(b, va', acc, table, level) == Ok(leaf)
    decreases level
  {
    hide BusRead, PteAddress, IsUsable, IsLeaf, PageBase, SamePage;
    LeafIsNotAbove(b, va, acc, table, level);
    PteAddressOfSamePage(table, va, va', leaf.level, level);
    var r := BusRead(b, PteAddress(table, va, level), DoubleWord);
    if !IsLeaf(r.value) {
      SamePageSameLeaf(b, va, va', acc, PageBase(r.value), level - 1, leaf);
    }
  }

  lemma {:induction false} LeafIsNotAbove(b: Bus, va: bv64, acc: AccessType, table: bv64, level: Level)
    ensures var r := FindLeaf(b, va, acc, table, level); r.Ok? ==> r.value.level <= level
    decreases level
  {
    hide BusRead, PteAddress, IsUsable, IsLeaf, PageBase;
    var r := BusRead(b, PteAddress(table, va, level), DoubleWord);
    if r.Ok? && level > 0 {
      LeafIsNotAbove(b, va, acc, PageBase(r.value), level - 1);
    }
  }

  function Distance(x: bv64, y: bv64): bv64 { x - y }

  lemma DistanceOfSums(base: bv64, low: bv64, low': bv64)
    ensures Distance(base + low', base + low) == Distance(low', low)
  {
  }

  lemma DisjointOrIsSum(x: bv64, y: bv64)
    requires x & y == 0
    ensures x | y == x + y
  {
  }

  lemma MaskSplits(va: bv64, mask: bv64, high: bv64, low: bv64)
    requires high == va & !mask && low == va & mask
    ensures va == high | low
  {
  }

  lemma MaskPartsDisjoint(va: bv64, mask: bv64, high: bv64, low: bv64)
    requires high == va & !mask && low == va & mask
    ensures high & low == 0
  {
  }

  lemma MaskSum(va: bv64, mask: bv64, high: bv64, low: bv64)
    requires high == va & !mask && low == va & mask
    ensures va == high + low
  {
    MaskSplits(va, mask, high, low);
    MaskPartsDisjoint(va, mask, high, low);
    DisjointOrIsSum(high, low);
  }

  lemma SplitIsSum(va: bv64, level: Level, high: bv64, low: bv64)
    requires high == PageOf(va, level) && low == OffsetIn(va, level)
    ensures va == high + low
  {
    hide OffsetMask;
    MaskSum(va, OffsetMask(level), high, low);
  }

  lemma PageAddressIsSum(pte: bv64, va: bv64, level: Level, base: bv64, low: bv64)
    requires base == PageBase(pte) && low == OffsetIn(va, level) && IsAligned(pte, level)
    ensures PageAddress(pte, va, level) == base + low
  {
  }

  lemma PageAddressDistance(pte: bv64, va: bv64, va': bv64, level: Level)
    requires IsAligned(pte, level) && SamePage(va, va', level)
    ensures Distance(PageAddress(pte, va', level), PageAddress(pte, va, level)) == Distance(va', va)
  {
    hide Distance, PageBase, PageOf, OffsetIn, IsAligned, PageAddress;
    var base, high, low, low' := PageBase(pte), PageOf(va, level), OffsetIn(va, level), OffsetIn(va', level);
    PageAddressIsSum(pte, va, level, base, low);
    PageAddressIsSum(pte, va', level, base, low');
    SplitIsSum(va, level, high, low);
    SplitIsSum(va', level, high, low');
    DistanceOfSums(base, low, low');
    DistanceOfSums(high, low, low');
  }

  lemma PageAddressOffset(pte: bv64, va: bv64, level: Level)
    requires IsAligned(pte, level)
    ensures OffsetIn(PageAddress(pte, va, level), level) == OffsetIn(va, level)
  {
  }

  lemma PageAddressBelow56(pte: bv64, va: bv64, level: Level)
    ensures PageAddress(pte, va, level) < 0x100_0000_0000_0000
  {
  }

  /** A superpage is contiguous: every address of the page of `va` translates through the same leaf,
      at the same distance, with its offset kept and below 2^56. */
  lemma PageIsContiguous(b: Bus, root: bv64, va: bv64, va': bv64, acc: AccessType, leaf: Leaf)
    requires FindLeaf(b, va, acc, root, 2) == Ok(leaf) && SamePage(va, va', leaf.level)
    requires Walk(b, root, va, acc).Ok?
    ensures var r := Walk(b, root, va', acc);
            r.Ok? && Distance(r.value, Walk(b, root, va, acc).value) == Distance(va', va)
            && OffsetIn(r.value, leaf.level) == OffsetIn(va', leaf.level) && r.value < 0x100_0000_0000_0000
  {
    hide FindLeaf, IsAligned, PageAddress, SamePage, Distance, OffsetIn;
    SamePageSameLeaf(b, va, va', acc, root, 2, leaf);
    PageAddressDistance(leaf.pte, va, va', leaf.level);
    PageAddressOffset(leaf.pte, va', leaf.level);
    PageAddressBelow56(leaf.pte, va', leaf.level);
  }

  // ---------------------------------------------------------------------------
  // Stores and walks

  predicate Overlap(a: Addr, n: nat, p: Addr, m: nat) {
    a < p + m && p < a + n
  }

  /** A DRAM store that misses every entry a walk reads leaves the walk as it was. */
  lemma StoreMissesWalk(b: Bus, a: Addr, v: bv64, size: Size, va: bv64, acc: AccessType, root: bv64)
    requires InDram(b, a, size)
    requires forall p | p in EntriesRead(b, va, root, 2) :: !Overlap(a, size.Bytes(), p, 8)
    ensures Walk(BusWrite(b, a, v, size).0, root, va, acc) == Walk(b, root, va, acc)
    ensures EntriesRead(BusWrite(b, a, v, size).0, va, root, 2) == EntriesRead(b, va, root, 2)
  {
    hide EntriesRead, FindLeaf, BusRead, BusWrite, Resolve;
    var b' := BusWrite(b, a, v, size).0;
    forall p | p in EntriesRead(b, va, root, 2)
      ensures BusRead(b', p, DoubleWord) == BusRead(b, p, DoubleWord)
    {
      StoreMissesRead(b, a, v, size, p, DoubleWord);
    }
    WalkReadsOnlyItsEntries(b, b', va, acc, root, 2);
  }

  // ---------------------------------------------------------------------------
  // The entry tests and address forms of the source

  lemma UsableForm(pte: bv64, v: bv64, r: bv64, w: bv64)
    requires v == pte & 1 && r == (pte >> 1) & 1 && w == (pte >> 2) & 1
    ensures v == 0 || (r == 0 && w == 1) <==> !IsUsable(pte)
  {
  }

  lemma LeafForm(pte: bv64, r: bv64, x: bv64)
    requires r == (pte >> 1) & 1 && x == (pte >> 3) & 1
    ensures r == 1 || x == 1 <==> IsLeaf(pte)
  {
  }

  lemma BaseForm(pte: bv64, ppn: bv64, a: bv64)
    requires ppn == (pte >> 10) & 0x0fff_ffff_ffff && a == ppn * 4096
    ensures a == PageBase(pte)
  {
  }

  lemma AlignedForm1(pte: bv64, ppn0: bv64)
    requires ppn0 == (pte >> 10) & 0x1ff
    ensures IsAligned(pte, 1) <==> ppn0 == 0
  {
  }

  lemma AlignedForm2(pte: bv64, ppn0: bv64, ppn1: bv64)
    requires ppn0 == (pte >> 10) & 0x1ff && ppn1 == (pte >> 19) & 0x1ff
    ensures IsAligned(pte, 2) <==> ppn1 == 0 && ppn0 == 0
  {
  }

  lemma AlignedForm0(pte: bv64)
    ensures IsAligned(pte, 0)
  {
  }

  // The physical address as the source puts it together from the page number fields.
  function SourceAddress0(pte: bv64, va: bv64): bv64 {
    (((pte >> 10) & 0x0fff_ffff_ffff) << 12) | (va & 0xfff)
  }

  function SourceAddress1(pte: bv64, va: bv64): bv64 {
    (((pte >> 28) & 0x03ff_ffff) << 30) | (((pte >> 19) & 0x1ff) << 21) | (((va >> 12) & 0x1ff) << 12) | (va & 0xfff)
  }

  function SourceAddress2(pte: bv64, va: bv64): bv64 {
    (((pte >> 28) & 0x03ff_ffff) << 30) | (((va >> 21) & 0x1ff) << 21) | (((va >> 12) & 0x1ff) << 12) | (va & 0xfff)
  }

  lemma AddressForm0(pte: bv64, va: bv64)
    ensures SourceAddress0(pte, va) == PageAddress(pte, va, 0)
  {
  }

  lemma AddressForm1(pte: bv64, va: bv64)
    requires (pte >> 10) & 0x1ff == 0
    ensures SourceAddress1(pte, va) == PageAddress(pte, va, 1)
  {
  }

  lemma AddressForm2(pte: bv64, va: bv64)
    requires (pte >> 10) & 0x1ff == 0 && (pte >> 19) & 0x1ff == 0
    ensures SourceAddress2(pte, va) == PageAddress(pte, va, 2)
  {
  }
}
