/** The processor: the emulator's methods, each proved to compute the state function that the
    properties are stated about. */
module Cpu {
  import opened Types
  import opened Words
  import opened Csr
  import opened CsrState
  import opened Devices
  import opened SystemBus
  import opened Registers
  import opened Paging

  import opened HartState
  import opened Encoding
  import opened Alu
  import opened Executor
  import opened Compressed
  import opened CompressedEffects
  import opened Decoder
  import opened Instruction
  import opened Disk
  import opened Interrupts
  import VirtioBlk

  class Cpu {
    const xregs: XRegisters
    const fregs: FRegisters
    var pc: bv64
    const state: State
    var mode: Mode
    var prevMode: Mode
    const bus: SystemBus
    var enablePaging: bool
    var pageTable: bv64
    var reservationSet: seq<bv64>
    var idle: bool

    ghost predicate Valid() {
      xregs.Valid() && fregs.Valid() && state.Valid()
      && xregs.xregs != fregs.fregs && xregs.xregs != state.csrs && fregs.fregs != state.csrs
    }

    ghost function Footprint(): set<object> {
      {this, xregs.xregs, fregs.fregs, state.csrs} + bus.Footprint()
    }

    /** The state of the hart as a value. */
    ghost function View(): Hart
      requires Valid()
      reads Footprint()
    {
      Hart(xregs.Value(), fregs.Value(), pc, state.Value(), mode, prevMode, bus.Value(),
                enablePaging, pageTable, reservationSet, idle)
    }

    constructor (dramSize: nat, env: Env)
      ensures Valid() && fresh(Footprint())
      ensures IsReset(View()) && View().bus.env == env && |View().bus.dram| == dramSize
    {
      xregs := new XRegisters();
      fregs := new FRegisters();
      pc := 0;
      state := new State();
      mode, prevMode := Machine, Machine;
      bus := new SystemBus(dramSize, env);
      enablePaging, pageTable := false, 0;
      reservationSet := [];
      idle := false;
    }

    // -------------------------------------------------------------------------
    // Registers

    method ReadX(r: bv5) returns (v: bv64)
      requires Valid()
      ensures v == GetX(View(), r)
    {
      v := xregs.Read(r);
    }

    method WriteX(r: bv5, v: bv64)
      requires Valid()
      modifies xregs.xregs
      ensures View() == SetX(old(View()), r, v)
    {
      xregs.Write(r, v);
    }

    method ReadF(r: bv5) returns (v: bv64)
      requires Valid()
      ensures v == GetF(View(), r)
    {
      v := fregs.Read(r);
    }

    method WriteF(r: bv5, v: bv64)
      requires Valid()
      modifies fregs.fregs
      ensures View() == SetF(old(View()), r, v)
    {
      fregs.Write(r, v);
    }

    // -------------------------------------------------------------------------
    // Memory

    /** Translate a virtual address: the loop of the source over the levels of the page table. */
    method Translate(addr: bv64, accessType: AccessType) returns (r: Outcome<bv64>)
      requires Valid()
      ensures r == HartState.Translate(View(), addr, accessType)
    {
      if !enablePaging || mode == Machine {
        return Ok(addr);
      }
      r := WalkTable(addr, accessType);
    }

    method WalkTable(addr: bv64, accessType: AccessType) returns (r: Outcome<bv64>)
      requires Valid()
      ensures r == Walk(bus.Value(), pageTable, addr, accessType)
    {
      hide BusRead, PteAddress, PageBase, IsUsable, IsLeaf, Resolve;
      var a := pageTable;
      var i := 2;
      var pte: bv64 := 0;
      while true
        invariant 0 <= i <= 2
        invariant Walk(bus.Value(), pageTable, addr, accessType) == Descend(bus.Value(), addr, accessType, a, i)
        decreases i
      {
        pte :- bus.Read(PteAddress(a, addr, i), DoubleWord);
        var usable, leaf := TestEntry(pte);
        if !usable {
          return Err(PageFault(accessType));
        }
        if leaf {
          break;
        }
        a := NextTable(pte);
        if i == 0 {
          return Err(PageFault(accessType));
        }
        i := i - 1;
      }
      r := ResolveLeaf(pte, i, addr, accessType);
    }

    method Read(vAddr: bv64, size: Size) returns (r: Outcome<bv64>)
      requires Valid()
      ensures r == ReadMem(View(), vAddr, size)
    {
      hide HartState.Translate, BusRead, Phys;
      var pAddr :- Translate(vAddr, Load);
      r := bus.Read(Phys(pAddr), size);
    }

    /** As in the source, the address is translated as for a load. */
    method Write(vAddr: bv64, value: bv64, size: Size) returns (r: Outcome<()>)
      requires Valid()
      modifies this`reservationSet, bus.dram.dram, bus.clint, bus.virtio
      ensures (View(), r) == WriteMem(old(View()), vAddr, value, size)
    {
      hide HartState.Translate, BusWrite, Phys, Without;
      Unreserve(vAddr);
      assert View() == old(View()).(reserved := Without(old(View()).reserved, vAddr));
      TranslateIgnoresReservations(old(View()), View().reserved, vAddr, Load);
      var pAddr :- Translate(vAddr, Load);
      r := bus.Write(Phys(pAddr), value, size);
    }

    /** Drop every reservation of the address. */
    method Unreserve(a: bv64)
      requires Valid()
      modifies this`reservationSet
      ensures View() == old(View()).(reserved := Without(old(View()).reserved, a))
    {
      if a in reservationSet {
        reservationSet := Without(reservationSet, a);
      } else {
        WithoutAbsent(reservationSet, a);
      }
    }

    method Fetch(size: Size) returns (r: Outcome<bv64>)
      requires Valid()
      ensures r == HartState.Fetch(View(), size)
    {
      hide HartState.Translate, BusRead, Phys;
      var pPc :- Translate(pc, AccessType.Instruction);
      r := bus.Read(Phys(pPc), size);
      if r.Err? {
        r := Err(InstructionAccessFault);
      }
    }

    // -------------------------------------------------------------------------
    // Loads and stores

    method PutX(rd: bv5, v: Outcome<bv64>) returns (r: Outcome<()>)
      requires Valid()
      modifies xregs.xregs
      ensures (View(), r) == Executor.PutX(old(View()), rd, v)
    {
      var value :- v;
      WriteX(rd, value);
      r := Ok(());
    }

    method ExecLoad(funct3: bv64, rd: bv5, addr: bv64) returns (r: Outcome<()>)
      requires Valid()
      modifies xregs.xregs
      ensures (View(), r) == Executor.ExecLoad(old(View()), funct3, rd, addr)
    {
      hide ReadMem, Sext8, Sext16;
      var val: bv64;
      if funct3 == 0x0 {
        val :- Read(addr, Byte);
        WriteX(rd, Sext8(val));
      } else if funct3 == 0x1 {
        val :- Read(addr, HalfWord);
        WriteX(rd, Sext16(val));
      } else if funct3 == 0x2 {
        val :- Read(addr, Word);
        WriteX(rd, Sext32(val));
      } else if funct3 == 0x3 {
        val :- Read(addr, DoubleWord);
        WriteX(rd, val);
      } else if funct3 == 0x4 {
        val :- Read(addr, Byte);
        WriteX(rd, val);
      } else if funct3 == 0x5 {
        val :- Read(addr, HalfWord);
        WriteX(rd, val);
      } else if funct3 == 0x6 {
        val :- Read(addr, Word);
        WriteX(rd, val);
      } else {
        return Err(IllegalInstruction);
      }
      r := Ok(());
    }

    method ExecStore(funct3: bv64, addr: bv64, value: bv64) returns (r: Outcome<()>)
      requires Valid()
      modifies this`reservationSet, bus.dram.dram, bus.clint, bus.virtio
      ensures (View(), r) == Executor.ExecStore(old(View()), funct3, addr, value)
    {
      hide WriteMem;
      if funct3 == 0x0 {
        r := Write(addr, value, Byte);
      } else if funct3 == 0x1 {
        r := Write(addr, value, HalfWord);
      } else if funct3 == 0x2 {
        r := Write(addr, value, Word);
      } else if funct3 == 0x3 {
        r := Write(addr, value, DoubleWord);
      } else {
        r := Err(IllegalInstruction);
      }
    }

    method ExecFpLoad(funct3: bv64, rd: bv5, addr: bv64) returns (r: Outcome<()>)
      requires Valid()
      modifies fregs.fregs
      ensures (View(), r) == Executor.ExecFpLoad(old(View()), funct3, rd, addr)
    {
      hide ReadMem;
      if funct3 == 0x2 {
        var _ :- Read(addr, Word);
        WriteF(rd, bus.env.widened);
      } else if funct3 == 0x3 {
        var val :- Read(addr, DoubleWord);
        WriteF(rd, val);
      } else {
        return Err(IllegalInstruction);
      }
      r := Ok(());
    }

    method ExecFpStore(funct3: bv64, addr: bv64, rs2: bv5) returns (r: Outcome<()>)
      requires Valid()
      modifies this`reservationSet, bus.dram.dram, bus.clint, bus.virtio
      ensures (View(), r) == Executor.ExecFpStore(old(View()), funct3, addr, rs2)
    {
      hide WriteMem;
      if funct3 == 0x2 {
        r := Write(addr, bus.env.narrowed, Word);
      } else if funct3 == 0x3 {
        var v := ReadF(rs2);
        r := Write(addr, v, DoubleWord);
      } else {
        r := Err(IllegalInstruction);
      }
    }

    // -------------------------------------------------------------------------
    // Atomics

    method ExecLr(size: Size, rd: bv5, addr: bv64) returns (r: Outcome<()>)
      requires Valid()
      modifies this`reservationSet, xregs.xregs
      ensures (View(), r) == Executor.ExecLr(old(View()), size, rd, addr)
    {
      hide ReadMem, AmoExtend, IsNaturallyAligned;
      if !IsNaturallyAligned(addr, size) {
        return Err(LoadAddressMisaligned);
      }
      var value :- Read(addr, size);
      WriteX(rd, AmoExtend(size, value));
      reservationSet := reservationSet + [addr];
      r := Ok(());
    }

    method ExecSc(size: Size, rd: bv5, addr: bv64, value: bv64) returns (r: Outcome<()>)
      requires Valid()
      modifies this`reservationSet, xregs.xregs, bus.dram.dram, bus.clint, bus.virtio
      ensures (View(), r) == Executor.ExecSc(old(View()), size, rd, addr, value)
    {
      hide WriteMem, Without, IsNaturallyAligned;
      if !IsNaturallyAligned(addr, size) {
        return Err(StoreAMOAddressMisaligned);
      }
      if addr in reservationSet {
        Unreserve(addr);
        var _ :- Write(addr, value, size);
        WriteX(rd, 0);
      } else {
        Unreserve(addr);
        WriteX(rd, 1);
      }
      r := Ok(());
    }

    method ExecRmw(size: Size, funct5: bv64, rd: bv5, addr: bv64, operand: bv64) returns (r: Outcome<()>)
      requires Valid()
      modifies this`reservationSet, xregs.xregs, bus.dram.dram, bus.clint, bus.virtio
      ensures (View(), r) == Executor.ExecRmw(old(View()), size, funct5, rd, addr, operand)
    {
      hide ReadMem, WriteMem, AmoResult, AmoExtend, IsNaturallyAligned;
      if !IsNaturallyAligned(addr, size) {
        return Err(LoadAddressMisaligned);
      }
      var t :- Read(addr, size);
      var value :- AmoResult(size, funct5, t, operand);
      var _ :- Write(addr, value, size);
      WriteX(rd, AmoExtend(size, t));
      r := Ok(());
    }

    method ExecAmo(funct3: bv64, funct5: bv64, rd: bv5, rs1: bv5, rs2: bv5) returns (r: Outcome<()>)
      requires Valid()
      modifies this`reservationSet, xregs.xregs, bus.dram.dram, bus.clint, bus.virtio
      ensures (View(), r) == Executor.ExecAmo(old(View()), funct3, funct5, rd, rs1, rs2)
    {
      hide Executor.ExecLr, Executor.ExecSc, Executor.ExecRmw, IsAmo, AmoSize;
      if !IsAmo(funct3, funct5) {
        return Err(IllegalInstruction);
      }
      var addr := ReadX(rs1);
      var operand := ReadX(rs2);
      if funct5 == 0x02 {
        r := ExecLr(AmoSize(funct3), rd, addr);
      } else if funct5 == 0x03 {
        r := ExecSc(AmoSize(funct3), rd, addr, operand);
      } else {
        r := ExecRmw(AmoSize(funct3), funct5, rd, addr, operand);
      }
    }

    // -------------------------------------------------------------------------
    // Arithmetic and control flow

    method FlagDivision(divides: bool, zero: bool)
      requires Valid()
      modifies state.csrs
      ensures View() == Executor.FlagDivision(old(View()), divides, zero)
    {
      hide Csr.WriteBit;
      if divides && zero {
        state.WriteBit(FCSR, 3, 1);
      }
    }

    method ExecOp(funct3: bv64, funct7: bv64, rd: bv5, a: bv64, b: bv64) returns (r: Outcome<()>)
      requires Valid()
      modifies state.csrs, xregs.xregs
      ensures (View(), r) == Executor.ExecOp(old(View()), funct3, funct7, rd, a, b)
    {
      hide Executor.FlagDivision, Executor.PutX, Op, Divides;
      FlagDivision(Divides(funct3, funct7), b == 0);
      r := PutX(rd, Op(funct3, funct7, a, b));
    }

    method ExecOp32(funct3: bv64, funct7: bv64, rd: bv5, a: bv64, b: bv64) returns (r: Outcome<()>)
      requires Valid()
      modifies state.csrs, xregs.xregs
      ensures (View(), r) == Executor.ExecOp32(old(View()), funct3, funct7, rd, a, b)
    {
      hide Executor.FlagDivision, Executor.PutX, Op32, Divides, Zext32;
      FlagDivision(Divides(funct3, funct7), Zext32(b) == 0);
      r := PutX(rd, Op32(funct3, funct7, a, b));
    }

    /** Move the pc by an offset from the start of an instruction of length `len`. */
    method JumpTo(offset: bv64, len: bv64)
      requires Valid()
      modifies this`pc
      ensures View() == Executor.JumpTo(old(View()), offset, len)
    {
      hide Moved;
      pc := Moved(pc, offset, len);
    }

    method ExecBranch(funct3: bv64, a: bv64, b: bv64, offset: bv64, len: bv64) returns (r: Outcome<()>)
      requires Valid()
      modifies this`pc
      ensures (View(), r) == Executor.ExecBranch(old(View()), funct3, a, b, offset, len)
    {
      hide Taken;
      var taken :- Taken(funct3, a, b);
      if taken {
        JumpTo(offset, len);
      }
      r := Ok(());
    }

    method ExecJalr(rd: bv5, target: bv64)
      requires Valid()
      modifies this`pc, xregs.xregs
      ensures Done(View()) == Executor.ExecJalr(old(View()), rd, target)
    {
      hide ClearLowBit;
      // The link is the pc as it stands.
      var t := pc;
      pc := ClearLowBit(target);
      WriteX(rd, t);
    }

    method ExecJal(rd: bv5, offset: bv64, len: bv64)
      requires Valid()
      modifies this`pc, xregs.xregs
      ensures Done(View()) == Executor.ExecJal(old(View()), rd, offset, len)
    {
      WriteX(rd, pc);
      JumpTo(offset, len);
    }

    // -------------------------------------------------------------------------
    // System instructions

    /** Restore the interrupt-enable bit for supervisor mode from the previous one. */
    method PopSupervisorStack()
      requires Valid()
      modifies state.csrs
      ensures View() == old(View()).(csr := PopSupervisor(old(View()).csr))
    {
      hide Csr.ReadBit, Csr.WriteBit;
      var spie := state.ReadBit(SSTATUS, 5);
      state.WriteBit(SSTATUS, 1, spie);
      state.WriteBit(SSTATUS, 5, 1);
      state.WriteBit(SSTATUS, 8, 0);
    }

    method ExecSret()
      requires Valid()
      modifies this`pc, this`mode, state.csrs
      ensures View() == Sret(old(View()))
    {
      hide Csr.Read, Csr.ReadBit, PopSupervisor;
      pc := state.Read(SEPC);
      var spp := state.ReadBit(SSTATUS, 8);
      mode := if spp == 0 then User else Supervisor;
      PopSupervisorStack();
    }

    /** Restore the interrupt-enable bit for machine mode from the previous one. */
    method PopMachineStack()
      requires Valid()
      modifies state.csrs
      ensures View() == old(View()).(csr := PopMachine(old(View()).csr))
    {
      hide Csr.ReadBit, Csr.WriteBit, Csr.WriteBits;
      var mpie := state.ReadBit(MSTATUS, 7);
      state.WriteBit(MSTATUS, 3, mpie);
      state.WriteBit(MSTATUS, 7, 1);
      state.WriteBits(MSTATUS, 11, 13, 0);
    }

    method ExecMret()
      requires Valid()
      modifies this`pc, this`mode, state.csrs
      ensures View() == Mret(old(View()))
    {
      hide Csr.Read, Csr.ReadBits, PopMachine;
      pc := state.Read(MEPC);
      var mpp := state.ReadBits(MSTATUS, 11, 13);
      mode := if mpp == 0 then User else if mpp == 1 then Supervisor else if mpp == 3 then Machine else Debug;
      PopMachineStack();
    }

    method ExecPrivileged(rs2: bv5, funct7: bv64) returns (r: Outcome<()>)
      requires Valid()
      modifies this`pc, this`mode, this`idle, state.csrs
      ensures (View(), r) == Executor.ExecPrivileged(old(View()), rs2, funct7)
    {
      hide Sret, Mret, EnvironmentCall;
      if rs2 == 0x0 && funct7 == 0x0 {
        // ecall
        return Err(EnvironmentCall(mode));
      } else if rs2 == 0x1 && funct7 == 0x0 {
        // ebreak
        return Err(Breakpoint);
      } else if rs2 == 0x2 && funct7 == 0x0 {
        // uret
        return Panic;
      } else if rs2 == 0x2 && funct7 == 0x8 {
        ExecSret();
      } else if rs2 == 0x2 && funct7 == 0x18 {
        ExecMret();
      } else if rs2 == 0x5 && funct7 == 0x8 {
        // wfi
        idle := true;
      } else if funct7 == 0x9 || funct7 == 0x11 || funct7 == 0x51 {
        // sfence.vma, hfence.bvma, hfence.gvma
      } else {
        return Err(IllegalInstruction);
      }
      r := Ok(());
    }

    /** Update the root of the page table and the addressing mode from SATP. */
    method UpdatePaging()
      requires Valid()
      modifies this`pageTable, this`enablePaging
      ensures View() == Executor.UpdatePaging(old(View()))
    {
      hide Csr.ReadBits, Csr.ReadBitsFrom;
      var ppn := state.ReadBits(SATP, 0, 44);
      pageTable := PageTableAt(ppn);
      var satpMode := state.ReadBitsFrom(SATP, 60);
      if satpMode == 8 {
        enablePaging := true;
      } else {
        enablePaging := false;
      }
    }

    method ExecCsr(funct3: bv64, rd: bv5, addr: CsrAddress, operand: bv64)
      requires Valid()
      modifies this`pageTable, this`enablePaging, xregs.xregs, state.csrs
      ensures Done(View()) == Executor.ExecCsr(old(View()), funct3, rd, addr, operand)
    {
      hide Csr.Read, Csr.Write, CsrValue, Executor.UpdatePaging;
      var t := state.Read(addr);
      state.Write(addr, CsrValue(funct3, t, operand));
      WriteX(rd, t);
      if addr == SATP {
        UpdatePaging();
      }
    }

    /** The register or the zero-extended immediate of a CSR instruction. */
    method ReadOperand(funct3: bv64, rs1: bv5) returns (v: bv64)
      requires Valid()
      ensures v == CsrOperand(View(), funct3, rs1)
    {
      if funct3 < 4 {
        v := ReadX(rs1);
      } else {
        v := rs1 as bv64;
      }
    }

    method ExecSystem(inst: bv64) returns (r: Outcome<()>)
      requires Valid()
      modifies this`pc, this`mode, this`idle, this`pageTable, this`enablePaging, xregs.xregs, state.csrs
      ensures (View(), r) == Executor.ExecSystem(old(View()), inst)
    {
      hide Funct3, Funct7, Rs1, Rs2, Rd, CsrField, CsrOperand, Executor.ExecPrivileged, Executor.ExecCsr;
      var funct3 := Funct3(inst);
      if funct3 == 0x0 {
        r := ExecPrivileged(Rs2(inst), Funct7(inst));
      } else if funct3 == 0x4 {
        r := Err(IllegalInstruction);
      } else {
        var operand := ReadOperand(funct3, Rs1(inst));
        ExecCsr(funct3, Rd(inst), CsrField(inst), operand);
        r := Ok(());
      }
    }

    // -------------------------------------------------------------------------
    // Executors

    /** The instruction table of the general executor. */
    method Dispatch(inst: bv64, len: bv64) returns (r: Outcome<()>)
      requires Valid()
      modifies Footprint()
      ensures (View(), r) == Executor.Execute(old(View()), inst, len)
      ensures unchanged(bus`env)
    {
      hide Opcode, IsMemoryOp, IsArithmeticOp, ExecuteMemory, ExecuteArithmetic, ExecuteControl;
      if IsMemoryOp(Opcode(inst)) {
        r := DispatchMemory(inst);
      } else if IsArithmeticOp(Opcode(inst)) {
        r := DispatchArithmetic(inst, len);
      } else {
        r := DispatchControl(inst, len);
      }
    }

    method DispatchMemory(inst: bv64) returns (r: Outcome<()>)
      requires Valid() && IsMemoryOp(Opcode(inst))
      modifies this`reservationSet, xregs.xregs, fregs.fregs, bus.dram.dram, bus.clint, bus.virtio
      ensures (View(), r) == ExecuteMemory(old(View()), inst)
    {
      hide Opcode, Funct3, Funct5, Funct7, Rd, Rs1, Rs2, ImmI, ImmS, ImmFpStore, Executor.ExecLoad;
      hide Executor.ExecFpLoad, Executor.ExecStore, Executor.ExecFpStore, Executor.ExecAmo;
      var opcode, rd, funct3 := Opcode(inst), Rd(inst), Funct3(inst);
      var a := ReadX(Rs1(inst));
      var b := ReadX(Rs2(inst));
      if opcode == 0x03 {
        var offset := DecodeI(inst);
        r := ExecLoad(funct3, rd, Add(a, offset));
      } else if opcode == 0x07 {
        var offset := DecodeI(inst);
        r := ExecFpLoad(funct3, rd, Add(a, offset));
      } else if opcode == 0x23 {
        var offset := DecodeS(inst);
        r := ExecStore(funct3, Add(a, offset), b);
      } else if opcode == 0x27 {
        var offset := DecodeFpStore(inst);
        r := ExecFpStore(funct3, Add(a, offset), Rs2(inst));
      } else {
        r := ExecAmo(funct3, Funct5(inst), rd, Rs1(inst), Rs2(inst));
      }
    }

    method DispatchArithmetic(inst: bv64, len: bv64) returns (r: Outcome<()>)
      requires Valid() && IsArithmeticOp(Opcode(inst))
      modifies xregs.xregs, fregs.fregs, state.csrs
      ensures (View(), r) == ExecuteArithmetic(old(View()), inst, len)
    {
      hide Opcode, Funct3, Funct6, Funct7, Rd, Rs1, Rs2, ImmI, ImmU, Shamt5, Shamt6, Moved, OpImm, OpImm32;
      hide IsFpArithmetic, Executor.PutX, Executor.ExecOp, Executor.ExecOp32, Executor.ExecFp;
      var opcode, rd, funct3 := Opcode(inst), Rd(inst), Funct3(inst);
      var a := ReadX(Rs1(inst));
      var b := ReadX(Rs2(inst));
      r := Ok(());
      if opcode == 0x13 {
        var imm := DecodeI(inst);
        r := PutX(rd, OpImm(funct3, Funct6(inst), a, imm, Shamt6(inst)));
      } else if opcode == 0x17 {
        var imm := DecodeU(inst);
        WriteX(rd, Moved(pc, imm, len));
      } else if opcode == 0x1b {
        var imm := DecodeI(inst);
        r := PutX(rd, OpImm32(funct3, Funct7(inst), a, imm, Shamt5(inst)));
      } else if opcode == 0x33 {
        r := ExecOp(funct3, Funct7(inst), rd, a, b);
      } else if opcode == 0x37 {
        var imm := DecodeU(inst);
        WriteX(rd, imm);
      } else if opcode == 0x3b {
        r := ExecOp32(funct3, Funct7(inst), rd, a, b);
      } else {
        r := ExecFp(rd);
      }
    }

    method DispatchControl(inst: bv64, len: bv64) returns (r: Outcome<()>)
      requires Valid()
      modifies this`pc, this`mode, this`idle, this`pageTable, this`enablePaging, xregs.xregs, state.csrs
      ensures (View(), r) == ExecuteControl(old(View()), inst, len)
    {
      hide Opcode, Funct3, Funct7, Rd, Rs1, Rs2, ImmI, ImmB, ImmJ, Executor.ExecBranch, Executor.ExecJalr;
      hide Executor.ExecJal, Executor.ExecSystem;
      var opcode, rd, funct3 := Opcode(inst), Rd(inst), Funct3(inst);
      var a := ReadX(Rs1(inst));
      var b := ReadX(Rs2(inst));
      r := Ok(());
      if opcode == 0x0f {
        // fence and fence.i
        if funct3 != 0x0 && funct3 != 0x1 {
          r := Err(IllegalInstruction);
        }
      } else if opcode == 0x63 {
        var offset := DecodeB(inst);
        r := ExecBranch(funct3, a, b, offset, len);
      } else if opcode == 0x67 {
        var offset := DecodeI(inst);
        ExecJalr(rd, Add(a, offset));
      } else if opcode == 0x6f {
        var offset := DecodeJ(inst);
        ExecJal(rd, offset, len);
      } else if opcode == 0x73 {
        r := ExecSystem(inst);
      } else {
        r := Err(IllegalInstruction);
      }
    }

    method ExecFp(rd: bv5) returns (r: Outcome<()>)
      requires Valid()
      modifies xregs.xregs, fregs.fregs
      ensures (View(), r) == Executor.ExecFp(old(View()), rd)
    {
      match bus.env.fp
      case IntoF(v) =>
        WriteF(rd, v);
        r := Ok(());
      case IntoX(v) =>
        WriteX(rd, v);
        r := Ok(());
      case FpIllegal =>
        r := Err(IllegalInstruction);
    }

    /** Execute a general-purpose instruction and step over 4 bytes. */
    method ExecuteGeneral() returns (r: Outcome<bv64>)
      requires Valid()
      modifies Footprint()
      ensures (View(), r) == StepGeneral(old(View()))
      ensures unchanged(bus`env)
    {
      hide Executor.Execute, HartState.Fetch;
      var inst :- Fetch(Word);
      pc := Add(pc, 4);
      var done := Dispatch(inst, 4);
      var _ :- done;
      r := Ok(inst);
    }

    // -------------------------------------------------------------------------
    // Compressed instructions

    // c.addi4spn: addi rd, x2, nzuimm
    method CAddi4spn(inst: bv64) returns (r: Outcome<()>)
      requires Valid() && Quadrant(inst) == 0 && CFunct3(inst) == 0 && ImmAddi4spn(inst) != 0
      modifies xregs.xregs
      ensures (View(), r) == ExecCompressed(old(View()), inst)
    {
      hide ReadMem, WriteMem;
      EffectAddi4spn(View(), inst);
      var rd := DecodeReg2(inst);
      var nzuimm := DecodeAddi4spn(inst);
      var sp := ReadX(SP);
      WriteX(rd, Add(sp, nzuimm));
      r := Ok(());
    }

    // c.fld: fld rd, offset(rs1)
    method CFld(inst: bv64) returns (r: Outcome<()>)
      requires Valid() && Quadrant(inst) == 0 && CFunct3(inst) == 1
      modifies fregs.fregs
      ensures (View(), r) == ExecCompressed(old(View()), inst)
    {
      hide ReadMem, WriteMem;
      EffectFld(View(), inst);
      var rd := DecodeReg2(inst);
      var rs1 := DecodeReg7(inst);
      var offset := DecodeLd(inst);
      var a := ReadX(rs1);
      var val :- Read(Add(a, offset), DoubleWord);
      WriteF(rd, val);
      r := Ok(());
    }

    // c.lw: lw rd, offset(rs1)
    method CLw(inst: bv64) returns (r: Outcome<()>)
      requires Valid() && Quadrant(inst) == 0 && CFunct3(inst) == 2
      modifies xregs.xregs
      ensures (View(), r) == ExecCompressed(old(View()), inst)
    {
      hide ReadMem, WriteMem;
      EffectLw(View(), inst);
      var rd := DecodeReg2(inst);
      var rs1 := DecodeReg7(inst);
      var offset := DecodeLw(inst);
      var a := ReadX(rs1);
      var val :- Read(Add(a, offset), Word);
      WriteX(rd, Sext32(val));
      r := Ok(());
    }

    // c.ld: ld rd, offset(rs1)
    method CLd(inst: bv64) returns (r: Outcome<()>)
      requires Valid() && Quadrant(inst) == 0 && CFunct3(inst) == 3
      modifies xregs.xregs
      ensures (View(), r) == ExecCompressed(old(View()), inst)
    {
      hide ReadMem, WriteMem;
      EffectLd(View(), inst);
      var rd := DecodeReg2(inst);
      var rs1 := DecodeReg7(inst);
      var offset := DecodeLd(inst);
      var a := ReadX(rs1);
      var val :- Read(Add(a, offset), DoubleWord);
      WriteX(rd, val);
      r := Ok(());
    }

    // c.fsd: fsd rs2, offset(rs1)
    method CFsd(inst: bv64) returns (r: Outcome<()>)
      requires Valid() && Quadrant(inst) == 0 && CFunct3(inst) == 5
      modifies this`reservationSet, bus.dram.dram, bus.clint, bus.virtio
      ensures (View(), r) == ExecCompressed(old(View()), inst)
    {
      hide ReadMem, WriteMem;
      EffectFsd(View(), inst);
      var rs2 := DecodeReg2(inst);
      var rs1 := DecodeReg7(inst);
      var offset := DecodeLd(inst);
      var a := ReadX(rs1);
      var v := ReadF(rs2);
      r := Write(Add(a, offset), v, DoubleWord);
    }

    // c.sw: sw rs2, offset(rs1)
    method CSw(inst: bv64) returns (r: Outcome<()>)
      requires Valid() && Quadrant(inst) == 0 && CFunct3(inst) == 6
      modifies this`reservationSet, bus.dram.dram, bus.clint, bus.virtio
      ensures (View(), r) == ExecCompressed(old(View()), inst)
    {
      hide ReadMem, WriteMem;
      EffectSw(View(), inst);
      var rs2 := DecodeReg2(inst);
      var rs1 := DecodeReg7(inst);
      var offset := DecodeLw(inst);
      var a := ReadX(rs1);
      var v := ReadX(rs2);
      r := Write(Add(a, offset), v, Word);
    }

    // c.sd: sd rs2, offset(rs1)
    method CSd(inst: bv64) returns (r: Outcome<()>)
      requires Valid() && Quadrant(inst) == 0 && CFunct3(inst) == 7
      modifies this`reservationSet, bus.dram.dram, bus.clint, bus.virtio
      ensures (View(), r) == ExecCompressed(old(View()), inst)
    {
      hide ReadMem, WriteMem;
      EffectSd(View(), inst);
      var rs2 := DecodeReg2(inst);
      var rs1 := DecodeReg7(inst);
      var offset := DecodeLd(inst);
      var a := ReadX(rs1);
      var v := ReadX(rs2);
      r := Write(Add(a, offset), v, DoubleWord);
    }

    // c.addi: addi rd, rd, nzimm
    method CAddi(inst: bv64) returns (r: Outcome<()>)
      requires Valid() && Quadrant(inst) == 1 && CFunct3(inst) == 0
      modifies xregs.xregs
      ensures (View(), r) == ExecCompressed(old(View()), inst)
    {
      hide ReadMem, WriteMem;
      EffectAddi(View(), inst);
      var rd := CRd(inst);
      var nzimm := Decode6(inst);
      var a := ReadX(rd);
      IgnoreZero(View(), rd, Add(a, nzimm));
      if rd != 0 {
        WriteX(rd, Add(a, nzimm));
      }
      r := Ok(());
    }

    // c.addiw: addiw rd, rd, imm
    method CAddiw(inst: bv64) returns (r: Outcome<()>)
      requires Valid() && Quadrant(inst) == 1 && CFunct3(inst) == 1
      modifies xregs.xregs
      ensures (View(), r) == ExecCompressed(old(View()), inst)
    {
      hide ReadMem, WriteMem;
      EffectAddiw(View(), inst);
      var rd := CRd(inst);
      var imm := Decode6(inst);
      var a := ReadX(rd);
      IgnoreZero(View(), rd, Sext32(Add(a, imm)));
      if rd != 0 {
        WriteX(rd, Sext32(Add(a, imm)));
      }
      r := Ok(());
    }

    // c.li: addi rd, x0, imm
    method CLi(inst: bv64) returns (r: Outcome<()>)
      requires Valid() && Quadrant(inst) == 1 && CFunct3(inst) == 2
      requires GetX(View(), 0) == 0
      modifies xregs.xregs
      ensures (View(), r) == ExecCompressed(old(View()), inst)
    {
      hide ReadMem, WriteMem;
      EffectLi(View(), inst);
      var rd := CRd(inst);
      var imm := Decode6(inst);
      IgnoreZero(View(), rd, imm);
      if rd != 0 {
        WriteX(rd, imm);
      }
      r := Ok(());
    }

    // c.addi16sp: addi x2, x2, nzimm
    method CAddi16sp(inst: bv64) returns (r: Outcome<()>)
      requires Valid() && Quadrant(inst) == 1 && CFunct3(inst) == 3 && CRd(inst) == SP && ImmAddi16sp(inst) != 0
      modifies xregs.xregs
      ensures (View(), r) == ExecCompressed(old(View()), inst)
    {
      hide ReadMem, WriteMem;
      EffectAddi16sp(View(), inst);
      var nzimm := DecodeAddi16sp(inst);
      if nzimm != 0 {
        var sp := ReadX(SP);
        WriteX(SP, Add(sp, nzimm));
      }
      r := Ok(());
    }

    // c.lui: lui rd, nzimm
    method CLui(inst: bv64) returns (r: Outcome<()>)
      requires Valid() && Quadrant(inst) == 1 && CFunct3(inst) == 3 && CRd(inst) != SP && ImmLui(inst) != 0
      modifies xregs.xregs
      ensures (View(), r) == ExecCompressed(old(View()), inst)
    {
      hide ReadMem, WriteMem;
      EffectLui(View(), inst);
      var rd := CRd(inst);
      var nzimm := DecodeLui(inst);
      IgnoreZero(View(), rd, nzimm);
      if rd != 0 && nzimm != 0 {
        WriteX(rd, nzimm);
      }
      r := Ok(());
    }

    // c.srli: srli rd, rd, shamt
    method CSrli(inst: bv64) returns (r: Outcome<()>)
      requires Valid() && Quadrant(inst) == 1 && CFunct3(inst) == 4 && AluKind(inst) == 0
      modifies xregs.xregs
      ensures (View(), r) == ExecCompressed(old(View()), inst)
    {
      hide ReadMem, WriteMem;
      EffectSrli(View(), inst);
      var rd := DecodeReg7(inst);
      var shamt := DecodeShamt(inst);
      var a := ReadX(rd);
      WriteX(rd, Shr(a, Low6(shamt)));
      r := Ok(());
    }

    // c.srai: srai rd, rd, shamt
    method CSrai(inst: bv64) returns (r: Outcome<()>)
      requires Valid() && Quadrant(inst) == 1 && CFunct3(inst) == 4 && AluKind(inst) == 1
      modifies xregs.xregs
      ensures (View(), r) == ExecCompressed(old(View()), inst)
    {
      hide ReadMem, WriteMem;
      EffectSrai(View(), inst);
      var rd := DecodeReg7(inst);
      var shamt := DecodeShamt(inst);
      var a := ReadX(rd);
      WriteX(rd, Asr(a, Low6(shamt)));
      r := Ok(());
    }

    // c.andi: andi rd, rd, imm
    method CAndi(inst: bv64) returns (r: Outcome<()>)
      requires Valid() && Quadrant(inst) == 1 && CFunct3(inst) == 4 && AluKind(inst) == 2
      modifies xregs.xregs
      ensures (View(), r) == ExecCompressed(old(View()), inst)
    {
      hide ReadMem, WriteMem;
      EffectAndi(View(), inst);
      var rd := DecodeReg7(inst);
      var imm := Decode6(inst);
      var a := ReadX(rd);
      WriteX(rd, And(a, imm));
      r := Ok(());
    }

    // c.sub: sub rd, rd, rs2
    method CSub(inst: bv64) returns (r: Outcome<()>)
      requires Valid() && Quadrant(inst) == 1 && CFunct3(inst) == 4
      requires AluKind(inst) == 3 && Bit12(inst) == 0 && AluSub(inst) == 0
      modifies xregs.xregs
      ensures (View(), r) == ExecCompressed(old(View()), inst)
    {
      hide ReadMem, WriteMem;
      EffectSub(View(), inst);
      var rd := DecodeReg7(inst);
      var rs2 := DecodeReg2(inst);
      var a := ReadX(rd);
      var b := ReadX(rs2);
      WriteX(rd, Sub(a, b));
      r := Ok(());
    }

    // c.xor: xor rd, rd, rs2
    method CXor(inst: bv64) returns (r: Outcome<()>)
      requires Valid() && Quadrant(inst) == 1 && CFunct3(inst) == 4
      requires AluKind(inst) == 3 && Bit12(inst) == 0 && AluSub(inst) == 1
      modifies xregs.xregs
      ensures (View(), r) == ExecCompressed(old(View()), inst)
    {
      hide ReadMem, WriteMem;
      EffectXor(View(), inst);
      var rd := DecodeReg7(inst);
      var rs2 := DecodeReg2(inst);
      var a := ReadX(rd);
      var b := ReadX(rs2);
      WriteX(rd, Xor(a, b));
      r := Ok(());
    }

    // c.or: or rd, rd, rs2
    method COr(inst: bv64) returns (r: Outcome<()>)
      requires Valid() && Quadrant(inst) == 1 && CFunct3(inst) == 4
      requires AluKind(inst) == 3 && Bit12(inst) == 0 && AluSub(inst) == 2
      modifies xregs.xregs
      ensures (View(), r) == ExecCompressed(old(View()), inst)
    {
      hide ReadMem, WriteMem;
      EffectOr(View(), inst);
      var rd := DecodeReg7(inst);
      var rs2 := DecodeReg2(inst);
      var a := ReadX(rd);
      var b := ReadX(rs2);
      WriteX(rd, Or(a, b));
      r := Ok(());
    }

    // c.and: and rd, rd, rs2
    method CAnd(inst: bv64) returns (r: Outcome<()>)
      requires Valid() && Quadrant(inst) == 1 && CFunct3(inst) == 4
      requires AluKind(inst) == 3 && Bit12(inst) == 0 && AluSub(inst) == 3
      modifies xregs.xregs
      ensures (View(), r) == ExecCompressed(old(View()), inst)
    {
      hide ReadMem, WriteMem;
      EffectAnd(View(), inst);
      var rd := DecodeReg7(inst);
      var rs2 := DecodeReg2(inst);
      var a := ReadX(rd);
      var b := ReadX(rs2);
      WriteX(rd, And(a, b));
      r := Ok(());
    }

    // c.subw: subw rd, rd, rs2
    method CSubw(inst: bv64) returns (r: Outcome<()>)
      requires Valid() && Quadrant(inst) == 1 && CFunct3(inst) == 4
      requires AluKind(inst) == 3 && Bit12(inst) == 1 && AluSub(inst) == 0
      modifies xregs.xregs
      ensures (View(), r) == ExecCompressed(old(View()), inst)
    {
      hide ReadMem, WriteMem;
      EffectSubw(View(), inst);
      var rd := DecodeReg7(inst);
      var rs2 := DecodeReg2(inst);
      var a := ReadX(rd);
      var b := ReadX(rs2);
      WriteX(rd, Sext32(Sub(a, b)));
      r := Ok(());
    }

    // c.addw: addw rd, rd, rs2
    method CAddw(inst: bv64) returns (r: Outcome<()>)
      requires Valid() && Quadrant(inst) == 1 && CFunct3(inst) == 4
      requires AluKind(inst) == 3 && Bit12(inst) == 1 && AluSub(inst) == 1
      modifies xregs.xregs
      ensures (View(), r) == ExecCompressed(old(View()), inst)
    {
      hide ReadMem, WriteMem;
      EffectAddw(View(), inst);
      var rd := DecodeReg7(inst);
      var rs2 := DecodeReg2(inst);
      var a := ReadX(rd);
      var b := ReadX(rs2);
      WriteX(rd, Sext32(Add(a, b)));
      r := Ok(());
    }

    // c.j: jal x0, offset
    method CJ(inst: bv64) returns (r: Outcome<()>)
      requires Valid() && Quadrant(inst) == 1 && CFunct3(inst) == 5
      modifies this`pc
      ensures (View(), r) == ExecCompressed(old(View()), inst)
    {
      hide ReadMem, WriteMem;
      EffectJ(View(), inst);
      var offset := DecodeCj(inst);
      JumpTo(offset, 2);
      r := Ok(());
    }

    // c.beqz: beq rs1, x0, offset
    method CBeqz(inst: bv64) returns (r: Outcome<()>)
      requires Valid() && Quadrant(inst) == 1 && CFunct3(inst) == 6
      requires GetX(View(), 0) == 0
      modifies this`pc
      ensures (View(), r) == ExecCompressed(old(View()), inst)
    {
      hide ReadMem, WriteMem;
      EffectBeqz(View(), inst);
      var rs1 := DecodeReg7(inst);
      var offset := DecodeCb(inst);
      var a := ReadX(rs1);
      if a == 0 {
        JumpTo(offset, 2);
      }
      r := Ok(());
    }

    // c.bnez: bne rs1, x0, offset
    method CBnez(inst: bv64) returns (r: Outcome<()>)
      requires Valid() && Quadrant(inst) == 1 && CFunct3(inst) == 7
      requires GetX(View(), 0) == 0
      modifies this`pc
      ensures (View(), r) == ExecCompressed(old(View()), inst)
    {
      hide ReadMem, WriteMem;
      EffectBnez(View(), inst);
      var rs1 := DecodeReg7(inst);
      var offset := DecodeCb(inst);
      var a := ReadX(rs1);
      if a != 0 {
        JumpTo(offset, 2);
      }
      r := Ok(());
    }

    // c.slli: slli rd, rd, shamt
    method CSlli(inst: bv64) returns (r: Outcome<()>)
      requires Valid() && Quadrant(inst) == 2 && CFunct3(inst) == 0
      modifies xregs.xregs
      ensures (View(), r) == ExecCompressed(old(View()), inst)
    {
      hide ReadMem, WriteMem;
      EffectSlli(View(), inst);
      var rd := CRd(inst);
      var shamt := DecodeShamt(inst);
      var a := ReadX(rd);
      IgnoreZero(View(), rd, Shl(a, Low6(shamt)));
      if rd != 0 {
        WriteX(rd, Shl(a, Low6(shamt)));
      }
      r := Ok(());
    }

    // c.fldsp: fld rd, offset(x2)
    method CFldsp(inst: bv64) returns (r: Outcome<()>)
      requires Valid() && Quadrant(inst) == 2 && CFunct3(inst) == 1
      modifies fregs.fregs
      ensures (View(), r) == ExecCompressed(old(View()), inst)
    {
      hide ReadMem, WriteMem;
      EffectFldsp(View(), inst);
      var rd := CRd(inst);
      var offset := DecodeLdsp(inst);
      var a := ReadX(SP);
      var val :- Read(Add(a, offset), DoubleWord);
      WriteF(rd, val);
      r := Ok(());
    }

    // c.lwsp: lw rd, offset(x2)
    method CLwsp(inst: bv64) returns (r: Outcome<()>)
      requires Valid() && Quadrant(inst) == 2 && CFunct3(inst) == 2
      modifies xregs.xregs
      ensures (View(), r) == ExecCompressed(old(View()), inst)
    {
      hide ReadMem, WriteMem;
      EffectLwsp(View(), inst);
      var rd := CRd(inst);
      var offset := DecodeLwsp(inst);
      var a := ReadX(SP);
      var val :- Read(Add(a, offset), Word);
      WriteX(rd, Sext32(val));
      r := Ok(());
    }

    // c.ldsp: ld rd, offset(x2)
    method CLdsp(inst: bv64) returns (r: Outcome<()>)
      requires Valid() && Quadrant(inst) == 2 && CFunct3(inst) == 3
      modifies xregs.xregs
      ensures (View(), r) == ExecCompressed(old(View()), inst)
    {
      hide ReadMem, WriteMem;
      EffectLdsp(View(), inst);
      var rd := CRd(inst);
      var offset := DecodeLdsp(inst);
      var a := ReadX(SP);
      var val :- Read(Add(a, offset), DoubleWord);
      WriteX(rd, val);
      r := Ok(());
    }

    // c.jr: jalr x0, 0(rs1), without clearing the low bit of the target
    method CJr(inst: bv64) returns (r: Outcome<()>)
      requires Valid() && Quadrant(inst) == 2 && CFunct3(inst) == 4
      requires Bit12(inst) == 0 && CRs2(inst) == 0 && CRd(inst) != 0
      modifies this`pc
      ensures (View(), r) == ExecCompressed(old(View()), inst)
    {
      hide ReadMem, WriteMem;
      EffectJr(View(), inst);
      var target := ReadX(CRd(inst));
      pc := target;
      r := Ok(());
    }

    // c.mv: add rd, x0, rs2
    method CMv(inst: bv64) returns (r: Outcome<()>)
      requires Valid() && Quadrant(inst) == 2 && CFunct3(inst) == 4 && Bit12(inst) == 0 && CRs2(inst) != 0
      requires GetX(View(), 0) == 0
      modifies xregs.xregs
      ensures (View(), r) == ExecCompressed(old(View()), inst)
    {
      hide ReadMem, WriteMem;
      EffectMv(View(), inst);
      var v := ReadX(CRs2(inst));
      WriteX(CRd(inst), v);
      r := Ok(());
    }

    // c.jalr: jalr x1, 0(rs1), without clearing the low bit of the target
    method CJalr(inst: bv64) returns (r: Outcome<()>)
      requires Valid() && Quadrant(inst) == 2 && CFunct3(inst) == 4
      requires Bit12(inst) == 1 && CRs2(inst) == 0 && CRd(inst) != 0
      modifies this`pc, xregs.xregs
      ensures (View(), r) == ExecCompressed(old(View()), inst)
    {
      hide ReadMem, WriteMem;
      EffectJalr(View(), inst);
      // The link is the pc as it stands.
      var t := pc;
      var target := ReadX(CRd(inst));
      pc := target;
      WriteX(RA, t);
      r := Ok(());
    }

    // c.add: add rd, rd, rs2
    method CAdd(inst: bv64) returns (r: Outcome<()>)
      requires Valid() && Quadrant(inst) == 2 && CFunct3(inst) == 4 && Bit12(inst) == 1 && CRs2(inst) != 0
      modifies xregs.xregs
      ensures (View(), r) == ExecCompressed(old(View()), inst)
    {
      hide ReadMem, WriteMem;
      EffectAdd(View(), inst);
      var rd := CRd(inst);
      var a := ReadX(rd);
      var b := ReadX(CRs2(inst));
      WriteX(rd, Add(a, b));
      r := Ok(());
    }

    // c.fsdsp: fsd rs2, offset(x2)
    method CFsdsp(inst: bv64) returns (r: Outcome<()>)
      requires Valid() && Quadrant(inst) == 2 && CFunct3(inst) == 5
      modifies this`reservationSet, bus.dram.dram, bus.clint, bus.virtio
      ensures (View(), r) == ExecCompressed(old(View()), inst)
    {
      hide ReadMem, WriteMem;
      EffectFsdsp(View(), inst);
      var offset := DecodeSdsp(inst);
      var a := ReadX(SP);
      var v := ReadF(CRs2(inst));
      r := Write(Add(a, offset), v, DoubleWord);
    }

    // c.swsp: sw rs2, offset(x2)
    method CSwsp(inst: bv64) returns (r: Outcome<()>)
      requires Valid() && Quadrant(inst) == 2 && CFunct3(inst) == 6
      modifies this`reservationSet, bus.dram.dram, bus.clint, bus.virtio
      ensures (View(), r) == ExecCompressed(old(View()), inst)
    {
      hide ReadMem, WriteMem;
      EffectSwsp(View(), inst);
      var offset := DecodeSwsp(inst);
      var a := ReadX(SP);
      var v := ReadX(CRs2(inst));
      r := Write(Add(a, offset), v, Word);
    }

    // c.sdsp: sd rs2, offset(x2)
    method CSdsp(inst: bv64) returns (r: Outcome<()>)
      requires Valid() && Quadrant(inst) == 2 && CFunct3(inst) == 7
      modifies this`reservationSet, bus.dram.dram, bus.clint, bus.virtio
      ensures (View(), r) == ExecCompressed(old(View()), inst)
    {
      hide ReadMem, WriteMem;
      EffectSdsp(View(), inst);
      var offset := DecodeSdsp(inst);
      var a := ReadX(SP);
      var v := ReadX(CRs2(inst));
      r := Write(Add(a, offset), v, DoubleWord);
    }

    // The reserved words have no expansion.
    method CReserved0(inst: bv64) returns (r: Outcome<()>)
      requires Valid() && Quadrant(inst) == 0 && CFunct3(inst) == 0 && ImmAddi4spn(inst) == 0
      ensures (View(), r) == ExecCompressed(View(), inst)
    {
      hide Executor.Execute;
      r := Err(IllegalInstruction);
    }

    method CReserved4(inst: bv64) returns (r: Outcome<()>)
      requires Valid() && Quadrant(inst) == 0 && CFunct3(inst) == 4
      ensures (View(), r) == ExecCompressed(View(), inst)
    {
      hide Executor.Execute;
      r := Panic;
    }

    method CReservedLui(inst: bv64) returns (r: Outcome<()>)
      requires Valid() && Quadrant(inst) == 1 && CFunct3(inst) == 3
      requires if CRd(inst) == SP then ImmAddi16sp(inst) == 0 else ImmLui(inst) == 0
      ensures (View(), r) == ExecCompressed(View(), inst)
    {
      hide Executor.Execute;
      r := Ok(());
    }

    method CReservedAlu(inst: bv64) returns (r: Outcome<()>)
      requires Valid() && Quadrant(inst) == 1 && CFunct3(inst) == 4 && AluKind(inst) == 3 && Bit12(inst) == 1
      requires AluSub(inst) != 0 && AluSub(inst) != 1
      ensures (View(), r) == ExecCompressed(View(), inst)
    {
      hide Executor.Execute;
      r := Err(IllegalInstruction);
    }

    method CReservedJr(inst: bv64) returns (r: Outcome<()>)
      requires Valid() && Quadrant(inst) == 2 && CFunct3(inst) == 4 && Bit12(inst) == 0
      requires CRs2(inst) == 0 && CRd(inst) == 0
      ensures (View(), r) == ExecCompressed(View(), inst)
    {
      hide Executor.Execute;
      r := Ok(());
    }

    method Quadrant0(inst: bv64) returns (r: Outcome<()>)
      requires Valid() && Quadrant(inst) == 0
      modifies this`reservationSet, xregs.xregs, fregs.fregs, bus.dram.dram, bus.clint, bus.virtio
      ensures (View(), r) == ExecCompressed(old(View()), inst)
    {
      if CFunct3(inst) == 0 && ImmAddi4spn(inst) == 0 {
        r := CReserved0(inst);
      } else if CFunct3(inst) == 0 {
        r := CAddi4spn(inst);
      } else if CFunct3(inst) == 1 {
        r := CFld(inst);
      } else if CFunct3(inst) == 2 {
        r := CLw(inst);
      } else if CFunct3(inst) == 3 {
        r := CLd(inst);
      } else if CFunct3(inst) == 4 {
        r := CReserved4(inst);
      } else if CFunct3(inst) == 5 {
        r := CFsd(inst);
      } else if CFunct3(inst) == 6 {
        r := CSw(inst);
      } else {
        CFunct3IsSmall(inst);
        r := CSd(inst);
      }
    }

    method QuadrantAlu(inst: bv64) returns (r: Outcome<()>)
      requires Valid() && Quadrant(inst) == 1 && CFunct3(inst) == 4
      modifies xregs.xregs
      ensures (View(), r) == ExecCompressed(old(View()), inst)
    {
      if AluKind(inst) == 0 {
        r := CSrli(inst);
      } else if AluKind(inst) == 1 {
        r := CSrai(inst);
      } else if AluKind(inst) == 2 {
        r := CAndi(inst);
      } else {
        AluFieldsAreSmall(inst);
        r := QuadrantAluReg(inst);
      }
    }

    method QuadrantAluReg(inst: bv64) returns (r: Outcome<()>)
      requires Valid() && Quadrant(inst) == 1 && CFunct3(inst) == 4 && AluKind(inst) == 3
      modifies xregs.xregs
      ensures (View(), r) == ExecCompressed(old(View()), inst)
    {
      if Bit12(inst) == 0 && AluSub(inst) == 0 {
        r := CSub(inst);
      } else if Bit12(inst) == 0 && AluSub(inst) == 1 {
        r := CXor(inst);
      } else if Bit12(inst) == 0 && AluSub(inst) == 2 {
        r := COr(inst);
      } else if Bit12(inst) == 0 {
        SubFieldsAreSmall(inst);
        r := CAnd(inst);
      } else if AluSub(inst) == 0 {
        SubFieldsAreSmall(inst);
        r := CSubw(inst);
      } else if AluSub(inst) == 1 {
        SubFieldsAreSmall(inst);
        r := CAddw(inst);
      } else {
        SubFieldsAreSmall(inst);
        r := CReservedAlu(inst);
      }
    }

    method Quadrant1(inst: bv64) returns (r: Outcome<()>)
      requires Valid() && Quadrant(inst) == 1
      requires GetX(View(), 0) == 0
      modifies this`pc, xregs.xregs
      ensures (View(), r) == ExecCompressed(old(View()), inst)
    {
      if CFunct3(inst) == 0 {
        r := CAddi(inst);
      } else if CFunct3(inst) == 1 {
        r := CAddiw(inst);
      } else if CFunct3(inst) == 2 {
        r := CLi(inst);
      } else if CFunct3(inst) == 3 && (if CRd(inst) == SP then ImmAddi16sp(inst) == 0 else ImmLui(inst) == 0) {
        r := CReservedLui(inst);
      } else if CFunct3(inst) == 3 && CRd(inst) == SP {
        r := CAddi16sp(inst);
      } else if CFunct3(inst) == 3 {
        r := CLui(inst);
      } else if CFunct3(inst) == 4 {
        r := QuadrantAlu(inst);
      } else if CFunct3(inst) == 5 {
        r := CJ(inst);
      } else if CFunct3(inst) == 6 {
        r := CBeqz(inst);
      } else {
        CFunct3IsSmall(inst);
        r := CBnez(inst);
      }
    }

    method QuadrantCr(inst: bv64) returns (r: Outcome<()>)
      requires Valid() && Quadrant(inst) == 2 && CFunct3(inst) == 4
      requires GetX(View(), 0) == 0
      modifies this`pc, xregs.xregs
      ensures (View(), r) == ExecCompressed(old(View()), inst)
    {
      if Bit12(inst) == 0 && CRs2(inst) != 0 {
        r := CMv(inst);
      } else if Bit12(inst) == 0 && CRd(inst) != 0 {
        r := CJr(inst);
      } else if Bit12(inst) == 0 {
        r := CReservedJr(inst);
      } else if CRs2(inst) != 0 {
        SubFieldsAreSmall(inst);
        r := CAdd(inst);
      } else if CRd(inst) != 0 {
        SubFieldsAreSmall(inst);
        r := CJalr(inst);
      } else {
        // c.ebreak
        SubFieldsAreSmall(inst);
        EffectEbreak(View(), inst);
        r := Err(Breakpoint);
      }
    }

    method Quadrant2(inst: bv64) returns (r: Outcome<()>)
      requires Valid() && Quadrant(inst) == 2
      requires GetX(View(), 0) == 0
      modifies this`pc, this`reservationSet, xregs.xregs, fregs.fregs, bus.dram.dram, bus.clint, bus.virtio
      ensures (View(), r) == ExecCompressed(old(View()), inst)
    {
      if CFunct3(inst) == 0 {
        r := CSlli(inst);
      } else if CFunct3(inst) == 1 {
        r := CFldsp(inst);
      } else if CFunct3(inst) == 2 {
        r := CLwsp(inst);
      } else if CFunct3(inst) == 3 {
        r := CLdsp(inst);
      } else if CFunct3(inst) == 4 {
        r := QuadrantCr(inst);
      } else if CFunct3(inst) == 5 {
        r := CFsdsp(inst);
      } else if CFunct3(inst) == 6 {
        r := CSwsp(inst);
      } else {
        CFunct3IsSmall(inst);
        r := CSdsp(inst);
      }
    }

    /** Execute a compressed instruction and step over 2 bytes. */
    method ExecuteCompressed() returns (r: Outcome<bv64>)
      requires Valid() && GetX(View(), 0) == 0
      modifies Footprint()
      ensures (View(), r) == StepCompressed(old(View()))
      ensures unchanged(bus`env)
    {
      hide HartState.Fetch;
      var inst :- Fetch(HalfWord);
      ZeroAfterAdvance(View(), Add(pc, 2));
      pc := Add(pc, 2);
      var done := Decompress(inst);
      var _ :- done;
      r := Ok(inst);
    }

    method Decompress(inst: bv64) returns (r: Outcome<()>)
      requires Valid() && GetX(View(), 0) == 0
      modifies Footprint()
      ensures (View(), r) == ExecCompressed(old(View()), inst)
      ensures unchanged(bus`env)
    {
      if Quadrant(inst) == 0 {
        r := Quadrant0(inst);
      } else if Quadrant(inst) == 1 {
        r := Quadrant1(inst);
      } else if Quadrant(inst) == 2 {
        r := Quadrant2(inst);
      } else {
        NoQuadrant(View(), inst);
        r := Err(IllegalInstruction);
      }
    }

    /** Execute one instruction, compressed or not. */
    method ExecuteInstruction() returns (r: Outcome<bv64>)
      requires Valid() && GetX(View(), 0) == 0
      modifies Footprint()
      ensures (View(), r) == StepInstruction(old(View()))
      ensures unchanged(bus`env)
    {
      hide StepGeneral, StepCompressed, HartState.Fetch;
      // Asleep until an interrupt is taken.
      if idle {
        return Ok(0);
      }
      var inst16 :- Fetch(HalfWord);
      if Quadrant(inst16) == 3 {
        r := ExecuteGeneral();
      } else if inst16 == 0 {
        // The all-zero half word is no instruction.
        r := Err(IllegalInstruction);
      } else {
        r := ExecuteCompressed();
      }
    }

    // -------------------------------------------------------------------------
    // Devices and pending interrupts

    /** One step of the timer and of TIME. */
    method DevicesIncrement()
      requires Valid()
      modifies bus.clint, state.csrs
      ensures View() == Tick(old(View()))
    {
      hide ClintTick;
      bus.clint.Increment(state);
      state.IncrementTime();
    }

    method IsGated() returns (b: bool)
      requires Valid()
      ensures b == Gated(View())
    {
      hide Csr.Read, BitIsClear;
      match mode
      case Machine =>
        var mstatus := state.Read(MSTATUS);
        b := BitIsClear(mstatus, 3);
      case Supervisor =>
        var sstatus := state.Read(SSTATUS);
        b := BitIsClear(sstatus, 1);
      case _ =>
        b := false;
    }

    method PostPending(bit: bv64)
      requires Valid()
      modifies state.csrs
      ensures View() == Pend(old(View()), bit)
    {
      hide Csr.Read, Csr.Write;
      var mip := state.Read(MIP);
      state.Write(MIP, Or(mip, bit));
    }

    method DropPending(bit: bv64)
      requires Valid()
      modifies state.csrs
      ensures View() == Drop(old(View()), bit)
    {
      hide Csr.Read, Csr.Write, Clear;
      var mip := state.Read(MIP);
      state.Write(MIP, Clear(mip, bit));
    }

    /** Check the external interrupts of the UART and of the disk, which is then accessed. */
    method PollExternal() returns (r: Outcome<()>)
      requires Valid()
      modifies state.csrs, bus.dram.dram, bus.clint, bus.virtio
      ensures var spec := PollDevices(old(View())); if r.Ok? then spec == Ok(View()) else r.Panic? && spec.Panic?
    {
      hide Pend, DiskAccess;
      r := Ok(());
      if bus.env.uart {
        PostPending(SEIP_BIT);
        return;
      }
      var interrupting := bus.virtio.IsInterrupting();
      if interrupting {
        var done := VirtioBlk.DiskAccess(bus);
        if !done.Ok? {
          return Panic;
        }
        PostPending(SEIP_BIT);
      }
    }

    method ChoosePending() returns (r: Option<Interrupt>)
      requires Valid()
      modifies state.csrs
      ensures (View(), r) == Choose(old(View()))
    {
      hide Csr.Read, HasBit, Drop;
      var mie := state.Read(MIE);
      var mip := state.Read(MIP);
      var pending := And(mie, mip);
      if HasBit(pending, MEIP_BIT) {
        DropPending(MEIP_BIT);
        return Some(MachineExternal);
      }
      if HasBit(pending, MSIP_BIT) {
        DropPending(MSIP_BIT);
        return Some(MachineSoftware);
      }
      if HasBit(pending, MTIP_BIT) {
        DropPending(MTIP_BIT);
        return Some(MachineTimer);
      }
      if HasBit(pending, SEIP_BIT) {
        DropPending(SEIP_BIT);
        return Some(SupervisorExternal);
      }
      if HasBit(pending, SSIP_BIT) {
        DropPending(SSIP_BIT);
        return Some(SupervisorSoftware);
      }
      if HasBit(pending, STIP_BIT) {
        DropPending(STIP_BIT);
        return Some(SupervisorTimer);
      }
      r := None;
    }

    /** The interrupt to take, if any. */
    method CheckPendingInterrupt() returns (r: Outcome<Option<Interrupt>>)
      requires Valid()
      modifies state.csrs, bus.dram.dram, bus.clint, bus.virtio
      ensures var spec := CheckPending(old(View()));
              if r.Ok? then spec == Ok((View(), r.value)) else r.Panic? && spec.Panic?
    {
      hide Gated, PollDevices, Choose;
      var gated := IsGated();
      if gated {
        return Ok(None);
      }
      var _ :- PollExternal();
      var chosen := ChoosePending();
      r := Ok(chosen);
    }

    // -------------------------------------------------------------------------
    // Steps of the table walk

    /** The flag tests of steps 3 and 4. */
    static method TestEntry(pte: bv64) returns (usable: bool, leaf: bool)
      ensures usable == IsUsable(pte) && leaf == IsLeaf(pte)
    {
      hide IsUsable, IsLeaf;
      var v, r, w, x := pte & 1, (pte >> 1) & 1, (pte >> 2) & 1, (pte >> 3) & 1;
      UsableForm(pte, v, r, w);
      LeafForm(pte, r, x);
      usable, leaf := !(v == 0 || (r == 0 && w == 1)), r == 1 || x == 1;
    }

    static method NextTable(pte: bv64) returns (a: bv64)
      ensures a == PageBase(pte)
    {
      hide PageBase;
      var ppn := (pte >> 10) & 0x0fff_ffff_ffff;
      a := ppn * PAGE_SIZE;
      BaseForm(pte, ppn, a);
    }

    /** Steps 6 and 8. */
    static method ResolveLeaf(pte: bv64, i: Level, addr: bv64, accessType: AccessType) returns (r: Outcome<bv64>)
      ensures r == Resolve(Leaf(pte, i), addr, accessType)
    {
      if i == 0 {
        r := Resolve0(pte, addr, accessType);
      } else if i == 1 {
        r := Resolve1(pte, addr, accessType);
      } else {
        r := Resolve2(pte, addr, accessType);
      }
    }

    static method Resolve0(pte: bv64, addr: bv64, accessType: AccessType) returns (r: Outcome<bv64>)
      ensures r == Resolve(Leaf(pte, 0), addr, accessType)
    {
      hide IsAligned, PageAddress, SourceAddress0;
      AlignedForm0(pte);
      AddressForm0(pte, addr);
      r := Ok(SourceAddress0(pte, addr));
    }

    static method Resolve1(pte: bv64, addr: bv64, accessType: AccessType) returns (r: Outcome<bv64>)
      ensures r == Resolve(Leaf(pte, 1), addr, accessType)
    {
      hide IsAligned, PageAddress, SourceAddress1;
      var ppn0 := (pte >> 10) & 0x1ff;
      AlignedForm1(pte, ppn0);
      if ppn0 != 0 {
        // A misaligned superpage.
        return Err(PageFault(accessType));
      }
      AddressForm1(pte, addr);
      r := Ok(SourceAddress1(pte, addr));
    }

    static method Resolve2(pte: bv64, addr: bv64, accessType: AccessType) returns (r: Outcome<bv64>)
      ensures r == Resolve(Leaf(pte, 2), addr, accessType)
    {
      hide IsAligned, PageAddress, SourceAddress2;
      var ppn0, ppn1 := (pte >> 10) & 0x1ff, (pte >> 19) & 0x1ff;
      AlignedForm2(pte, ppn0, ppn1);
      if ppn1 != 0 || ppn0 != 0 {
        // A misaligned superpage.
        return Err(PageFault(accessType));
      }
      AddressForm2(pte, addr);
      r := Ok(SourceAddress2(pte, addr));
    }
  }

  /** The state that `new` makes. */
  ghost predicate IsReset(m: Hart) {
    m.x == seq(32, i => if i == 2 then SP_RESET else if i == 11 then A1_RESET else 0)
    && m.f == seq(32, _ => 0)
    && m.pc == 0 && m.csr == Csr.Reset() && m.mode == Machine && m.prevMode == Machine
    && m.bus.clint == Clint(0, 0, 0) && m.bus.virtio == Virtio(0, 0, 0, NO_NOTIFY, 0, [])
    && (forall i | 0 <= i < |m.bus.dram| :: m.bus.dram[i] == 0)
    && !m.paging && m.pageTable == 0 && m.reserved == [] && !m.idle
  }
}
