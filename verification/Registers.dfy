/** The integer and floating-point register files. */
module Registers {
  import opened HartState

  const REGISTERS_COUNT := 32

  // The stack pointer starts at the end of the default memory, and a1 at the device tree.
  const SP_RESET: bv64 := 0xc000_0000
  const A1_RESET: bv64 := 0x1020

  class XRegisters {
    const xregs: array<bv64>

    ghost predicate Valid() { xregs.Length == REGISTERS_COUNT }

    ghost function Value(): Regs
      requires Valid()
      reads xregs
    {
      xregs[..]
    }

    constructor ()
      ensures Valid() && fresh(xregs)
      ensures Value() == seq(32, i => if i == 2 then SP_RESET else if i == 11 then A1_RESET else 0)
    {
      xregs := new bv64[REGISTERS_COUNT](_ => 0);
      new;
      xregs[2] := SP_RESET;
      xregs[10] := 0;
      xregs[11] := A1_RESET;
    }

    method Read(index: bv5) returns (v: bv64)
      requires Valid()
      ensures v == Value()[index as int]
    {
      v := xregs[index as int];
    }

    /** Register x0 is hardwired to 0. */
    method Write(index: bv5, value: bv64)
      requires Valid()
      modifies xregs
      ensures Value() == if index == 0 then old(Value()) else old(Value())[index as int := value]
    {
      if index != 0 {
        xregs[index as int] := value;
      }
    }
  }

  /** Floating-point registers hold raw 64-bit patterns. */
  class FRegisters {
    const fregs: array<bv64>

    ghost predicate Valid() { fregs.Length == REGISTERS_COUNT }

    ghost function Value(): Regs
      requires Valid()
      reads fregs
    {
      fregs[..]
    }

    constructor ()
      ensures Valid() && fresh(fregs) && Value() == seq(32, _ => 0)
    {
      fregs := new bv64[REGISTERS_COUNT](_ => 0);
    }

    method Read(index: bv5) returns (v: bv64)
      requires Valid()
      ensures v == Value()[index as int]
    {
      v := fregs[index as int];
    }

    method Write(index: bv5, value: bv64)
      requires Valid()
      modifies fregs
      ensures Value() == old(Value())[index as int := value]
    {
      fregs[index as int] := value;
    }
  }
}
