/** The register file of control and status registers, as the emulator stores it. */
module CsrState {
  import opened Words
  import opened Csr

  // SSTATUS fields.
  const SSTATUS_SIE: bv64 := 0x2
  const SSTATUS_SPIE: bv64 := 0x20
  const SSTATUS_SPP: bv64 := 0x100
  const SSTATUS_FS: bv64 := 0x6000
  const SSTATUS_XS: bv64 := 0x1_8000
  const SSTATUS_SUM: bv64 := 0x4_0000
  const SSTATUS_MXR: bv64 := 0x8_0000
  const SSTATUS_UXL: bv64 := 0x3_0000_0000

  class State {
    const csrs: array<bv64>

    ghost predicate Valid() { csrs.Length == CSR_SIZE }

    ghost function Value(): Csrs
      requires Valid()
      reads csrs
    {
      csrs[..]
    }

    constructor ()
      ensures Valid() && fresh(csrs) && Value() == Csr.Reset()
    {
      csrs := new bv64[CSR_SIZE](_ => 0);
      new;
      var misa: bv64 := (2 << 62) | (1 << 18) | (1 << 12) | (1 << 8) | (1 << 5) | (1 << 3) | (1 << 2) | 1;
      csrs[MISA] := misa;
    }

    method IncrementTime()
      requires Valid()
      modifies csrs
      ensures Value() == old(Value())[TIME := Add(old(Value())[TIME], 1)]
    {
      csrs[TIME] := Add(csrs[TIME], 1);
    }

    method Read(addr: CsrAddress) returns (v: bv64)
      requires Valid()
      ensures v == Csr.Read(Value(), addr)
    {
      hide And;
      if addr == SSTATUS {
        var mask := SSTATUS_SIE | SSTATUS_SPIE | SSTATUS_SPP | SSTATUS_FS | SSTATUS_XS | SSTATUS_SUM
          | SSTATUS_MXR | SSTATUS_UXL;
        ReadableMask(mask);
        v := And(csrs[MSTATUS], mask);
      } else if addr == SIE {
        v := And(csrs[MIE], csrs[MIDELEG]);
      } else if addr == SIP {
        v := And(csrs[MIP], csrs[MIDELEG]);
      } else {
        v := csrs[addr];
      }
    }

    method Write(addr: CsrAddress, val: bv64)
      requires Valid()
      modifies csrs
      ensures Value() == Csr.Write(old(Value()), addr, val)
    {
      hide And, Merge;
      if addr == MVENDORID || addr == MARCHID || addr == MIMPID || addr == MHARTID {
      } else if addr == SSTATUS {
        var mask := SSTATUS_SIE | SSTATUS_SPIE | SSTATUS_SPP | SSTATUS_FS | SSTATUS_XS | SSTATUS_SUM | SSTATUS_MXR;
        WritableMask(mask);
        csrs[MSTATUS] := Merge(csrs[MSTATUS], mask, val);
      } else if addr == SIE {
        csrs[MIE] := Merge(csrs[MIE], csrs[MIDELEG], val);
      } else if addr == SIP {
        var mask := And(SSIP_BIT, csrs[MIDELEG]);
        csrs[MIP] := Merge(csrs[MIP], mask, val);
      } else {
        csrs[addr] := val;
      }
    }

    method ReadBit(addr: CsrAddress, bit: bv6) returns (v: bv64)
      requires Valid()
      ensures v == Csr.ReadBit(Value(), addr, bit)
    {
      hide Csr.Read, And, Bit;
      var w := Read(addr);
      if And(w, Bit(bit)) != 0 {
        v := 1;
      } else {
        v := 0;
      }
    }

    /** Bits `start..end`; `end` below 64. */
    method ReadBits(addr: CsrAddress, start: bv6, end: bv6) returns (v: bv64)
      requires Valid()
      ensures v == Csr.ReadBits(Value(), addr, start, end)
    {
      hide Csr.Read, From, Clear, Shr;
      var bitmask := From(end);
      var w := Read(addr);
      v := Shr(Clear(w, bitmask), start);
    }

    /** Bits `start..`, up to bit 63. */
    method ReadBitsFrom(addr: CsrAddress, start: bv6) returns (v: bv64)
      requires Valid()
      ensures v == Csr.ReadBitsFrom(Value(), addr, start)
    {
      hide Csr.Read, Shr;
      var w := Read(addr);
      v := Shr(w, start);
    }

    method WriteBit(addr: CsrAddress, bit: bv6, val: bv64)
      requires Valid()
      modifies csrs
      ensures Value() == Csr.WriteBit(old(Value()), addr, bit, val)
    {
      hide Csr.Read, Csr.Write, Or, Clear, Bit;
      var w := Read(addr);
      if val == 1 {
        Write(addr, Or(w, Bit(bit)));
      } else if val == 0 {
        Write(addr, Clear(w, Bit(bit)));
      }
    }

    method WriteBits(addr: CsrAddress, start: bv6, end: bv6, val: bv64)
      requires Valid()
      modifies csrs
      ensures Value() == Csr.WriteBits(old(Value()), addr, start, end, val)
    {
      hide Csr.Read, Csr.Write, From, Shl, Put;
      var w := Read(addr);
      Write(addr, Put(w, From(start), From(end), Shl(val, start)));
    }
  }

  lemma ReadableMask(mask: bv64)
    requires mask == SSTATUS_SIE | SSTATUS_SPIE | SSTATUS_SPP | SSTATUS_FS | SSTATUS_XS | SSTATUS_SUM
                     | SSTATUS_MXR | SSTATUS_UXL
    ensures mask == SSTATUS_READABLE
  {
  }

  lemma WritableMask(mask: bv64)
    requires mask == SSTATUS_SIE | SSTATUS_SPIE | SSTATUS_SPP | SSTATUS_FS | SSTATUS_XS | SSTATUS_SUM | SSTATUS_MXR
    ensures mask == SSTATUS_WRITABLE
  {
  }
}
