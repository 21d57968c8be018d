/** The memory of the emulator: a byte array behind the bus. */
module Memory {
  import opened Types
  import opened ByteStore
  import opened Devices

  class Dram {
    const dram: array<bv8>

    ghost function Contents(): seq<bv8>
      reads dram
    {
      dram[..]
    }

    constructor (size: nat)
      ensures fresh(dram) && dram.Length == size
      ensures forall i | 0 <= i < size :: Contents()[i] == 0
    {
      dram := new bv8[size](_ => 0);
    }

    /** Put a binary at the start; a binary larger than the memory panics. */
    method Initialize(binary: seq<bv8>) returns (r: Outcome<()>)
      modifies dram
      ensures r == if |binary| <= dram.Length then Ok(()) else Panic
      ensures r.Ok? ==> Contents() == binary + old(Contents())[|binary|..]
      ensures !r.Ok? ==> Contents() == old(Contents())
    {
      if dram.Length < |binary| {
        return Panic;
      }
      for i := 0 to |binary|
        invariant dram[..i] == binary[..i]
        invariant dram[i..] == old(dram[..])[i..]
      {
        dram[i] := binary[i];
        assert dram[..i + 1] == binary[..i + 1];
        assert dram[i + 1..] == old(dram[..])[i + 1..];
      }
      assert dram[..] == dram[..|binary|] + dram[|binary|..];
      r := Ok(());
    }

    method Write8(addr: Addr, val: bv64)
      requires DRAM_BASE <= addr && addr - DRAM_BASE + 1 <= dram.Length
      modifies dram
      ensures Contents() == StoreBytes(old(Contents()), addr - DRAM_BASE, val, Byte)
    {
      hide ByteOf, ToBytes, Splice;
      var index := addr - DRAM_BASE;
      dram[index] := ByteOf(val, 0);
      BytesOf1(val);
      Replaced(old(dram[..]), dram[..], index, [ByteOf(val, 0)]);
    }

    method Write16(addr: Addr, val: bv64)
      requires DRAM_BASE <= addr && addr - DRAM_BASE + 2 <= dram.Length
      modifies dram
      ensures Contents() == StoreBytes(old(Contents()), addr - DRAM_BASE, val, HalfWord)
    {
      hide ByteOf, ToBytes, Splice;
      var index := addr - DRAM_BASE;
      dram[index] := ByteOf(val, 0);
      dram[index + 1] := ByteOf(val, 8);
      BytesOf2(val);
      Replaced(old(dram[..]), dram[..], index, [ByteOf(val, 0), ByteOf(val, 8)]);
    }

    /** Four consecutive bytes. */
    method Put4(index: nat, b0: bv8, b1: bv8, b2: bv8, b3: bv8)
      requires index + 4 <= dram.Length
      modifies dram
      ensures Contents() == Splice(old(Contents()), index, [b0, b1, b2, b3])
    {
      dram[index] := b0;
      dram[index + 1] := b1;
      dram[index + 2] := b2;
      dram[index + 3] := b3;
      Replaced(old(dram[..]), dram[..], index, [b0, b1, b2, b3]);
    }

    method Write32(addr: Addr, val: bv64)
      requires DRAM_BASE <= addr && addr - DRAM_BASE + 4 <= dram.Length
      modifies dram
      ensures Contents() == StoreBytes(old(Contents()), addr - DRAM_BASE, val, Word)
    {
      hide ByteOf, ToBytes, Splice;
      var index := addr - DRAM_BASE;
      Put4(index, ByteOf(val, 0), ByteOf(val, 8), ByteOf(val, 16), ByteOf(val, 24));
      BytesOf4(val);
    }

    method Write64(addr: Addr, val: bv64)
      requires DRAM_BASE <= addr && addr - DRAM_BASE + 8 <= dram.Length
      modifies dram
      ensures Contents() == StoreBytes(old(Contents()), addr - DRAM_BASE, val, DoubleWord)
    {
      hide ByteOf, ToBytes, Splice;
      var index := addr - DRAM_BASE;
      Put4(index, ByteOf(val, 0), ByteOf(val, 8), ByteOf(val, 16), ByteOf(val, 24));
      Put4(index + 4, ByteOf(val, 32), ByteOf(val, 40), ByteOf(val, 48), ByteOf(val, 56));
      BytesOf8(val);
      ghost var low := [ByteOf(val, 0), ByteOf(val, 8), ByteOf(val, 16), ByteOf(val, 24)];
      ghost var high := [ByteOf(val, 32), ByteOf(val, 40), ByteOf(val, 48), ByteOf(val, 56)];
      assert ToBytes(val, 8) == low + high;
      SpliceTwice(old(dram[..]), index, low, high);
    }

    method Read8(addr: Addr) returns (v: bv64)
      requires DRAM_BASE <= addr && addr - DRAM_BASE + 1 <= dram.Length
      ensures v == LoadBytes(Contents(), addr - DRAM_BASE, Byte)
    {
      hide LittleEndian;
      var index := addr - DRAM_BASE;
      ghost var bs := dram[index..index + 1];
      v := dram[index] as bv64;
      LoadForm1(bs);
    }

    method Read16(addr: Addr) returns (v: bv64)
      requires DRAM_BASE <= addr && addr - DRAM_BASE + 2 <= dram.Length
      ensures v == LoadBytes(Contents(), addr - DRAM_BASE, HalfWord)
    {
      hide LittleEndian;
      var index := addr - DRAM_BASE;
      ghost var bs := dram[index..index + 2];
      v := (dram[index] as bv64) | ((dram[index + 1] as bv64) << 8);
      LoadForm2(bs);
    }

    method Read32(addr: Addr) returns (v: bv64)
      requires DRAM_BASE <= addr && addr - DRAM_BASE + 4 <= dram.Length
      ensures v == LoadBytes(Contents(), addr - DRAM_BASE, Word)
    {
      hide LittleEndian;
      var index := addr - DRAM_BASE;
      ghost var bs := dram[index..index + 4];
      v := (dram[index] as bv64) | ((dram[index + 1] as bv64) << 8) | ((dram[index + 2] as bv64) << 16)
        | ((dram[index + 3] as bv64) << 24);
      LoadForm4(bs);
    }

    method Read64(addr: Addr) returns (v: bv64)
      requires DRAM_BASE <= addr && addr - DRAM_BASE + 8 <= dram.Length
      ensures v == LoadBytes(Contents(), addr - DRAM_BASE, DoubleWord)
    {
      hide LittleEndian;
      var index := addr - DRAM_BASE;
      ghost var bs := dram[index..index + 8];
      v := (dram[index] as bv64) | ((dram[index + 1] as bv64) << 8) | ((dram[index + 2] as bv64) << 16)
        | ((dram[index + 3] as bv64) << 24)
        | ((dram[index + 4] as bv64) << 32) | ((dram[index + 5] as bv64) << 40)
          | ((dram[index + 6] as bv64) << 48) | ((dram[index + 7] as bv64) << 56);
      LoadForm8(bs);
    }

    /** Outside the byte vector the source panics. */
    method Read(addr: Addr, size: Size) returns (r: Outcome<bv64>)
      requires DRAM_BASE <= addr
      ensures r == if addr - DRAM_BASE + size.Bytes() <= dram.Length
                   then Ok(LoadBytes(Contents(), addr - DRAM_BASE, size)) else Panic
    {
      hide LittleEndian;
      if dram.Length < addr - DRAM_BASE + size.Bytes() {
        return Panic;
      }
      var v;
      match size {
        case Byte => v := Read8(addr);
        case HalfWord => v := Read16(addr);
        case Word => v := Read32(addr);
        case DoubleWord => v := Read64(addr);
      }
      r := Ok(v);
    }

    method Write(addr: Addr, value: bv64, size: Size) returns (r: Outcome<()>)
      requires DRAM_BASE <= addr
      modifies dram
      ensures r == if addr - DRAM_BASE + size.Bytes() <= dram.Length then Ok(()) else Panic
      ensures Contents() == if r.Ok? then StoreBytes(old(Contents()), addr - DRAM_BASE, value, size)
                            else old(Contents())
    {
      hide ToBytes;
      if dram.Length < addr - DRAM_BASE + size.Bytes() {
        return Panic;
      }
      match size {
        case Byte => Write8(addr, value);
        case HalfWord => Write16(addr, value);
        case Word => Write32(addr, value);
        case DoubleWord => Write64(addr, value);
      }
      r := Ok(());
    }
  }

  lemma Replaced(before: seq<bv8>, after: seq<bv8>, i: nat, bs: seq<bv8>)
    requires |before| == |after| && i + |bs| <= |before|
    requires forall k | 0 <= k < |before| :: after[k] == if i <= k < i + |bs| then bs[k - i] else before[k]
    ensures after == Splice(before, i, bs)
  {
  }
}
