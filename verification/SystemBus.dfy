/** The devices as objects that are updated in place. */
module SystemBus {
  import opened Types
  import opened Words
  import opened ByteStore
  import opened Csr
  import opened CsrState
  import opened Devices
  import opened Interrupts
  import opened Memory

  class ClintDevice {
    var msip: bv64
    var mtimecmp: bv64
    var mtime: bv64

    ghost function Value(): Clint
      reads this
    {
      Clint(msip, mtimecmp, mtime)
    }

    constructor ()
      ensures Value() == Clint(0, 0, 0)
    {
      msip, mtimecmp, mtime := 0, 0, 0;
    }

    /** Post the software interrupt if `msip` asks for it. */
    method PostSoftwareInterrupt(state: State)
      requires state.Valid()
      modifies state.csrs
      ensures state.Value() == PostSoftware(old(state.Value()), msip)
    {
      hide Csr.Read, Csr.Write, Or, SoftwarePending;
      if SoftwarePending(msip) {
        var mip := state.Read(MIP);
        state.Write(MIP, Or(mip, MSIP_BIT));
      }
    }

    /** Set or clear the timer interrupt by the comparison of the two registers. */
    method SyncTimerInterrupt(state: State)
      requires state.Valid()
      modifies state.csrs
      ensures state.Value() == SyncTimer(old(state.Value()), mtimecmp, mtime)
    {
      hide Csr.Read, Csr.Write, Or, Clear, Exceeds, Reached;
      if Exceeds(mtimecmp, mtime) {
        var mip := state.Read(MIP);
        state.Write(MIP, Clear(mip, MTIP_BIT));
      }
      if Reached(mtime, mtimecmp) {
        var mip := state.Read(MIP);
        state.Write(MIP, Or(mip, MTIP_BIT));
      }
    }

    /** Increment the timer, and set or clear the machine's pending bits accordingly. */
    method Increment(state: State)
      requires state.Valid()
      modifies this, state.csrs
      ensures (Value(), state.Value()) == ClintTick(old(Value()), old(state.Value()))
    {
      hide PostSoftware, SyncTimer, Add;
      mtime := Add(mtime, 1);
      PostSoftwareInterrupt(state);
      SyncTimerInterrupt(state);
    }

    method Read(addr: Addr, size: Size) returns (r: Outcome<bv64>)
      ensures r == ClintRead(Value(), addr, size)
    {
      hide DropBytes, CutTo;
      var reg, offset;
      if CLINT_MSIP <= addr <= CLINT_MSIP + 4 {
        reg, offset := msip, addr - CLINT_MSIP;
      } else if CLINT_MTIMECMP <= addr <= CLINT_MTIMECMP + 8 {
        reg, offset := mtimecmp, addr - CLINT_MTIMECMP;
      } else if CLINT_MTIME <= addr <= CLINT_MTIME + 8 {
        reg, offset := mtime, addr - CLINT_MTIME;
      } else {
        return Err(LoadAccessFault);
      }
      if size == DoubleWord {
        r := Ok(reg);
      } else {
        r := Ok(CutTo(DropBytes(reg, offset % 8), size));
      }
    }

    method Write(addr: Addr, value: bv64, size: Size) returns (r: Outcome<()>)
      modifies this
      ensures (Value(), r) == ClintWrite(old(Value()), addr, value, size)
    {
      hide PadBytes, CutTo, Overwrite, Low32;
      var reg, offset;
      if CLINT_MSIP <= addr <= CLINT_MSIP + 4 {
        reg, offset := msip, addr - CLINT_MSIP;
      } else if CLINT_MTIMECMP <= addr <= CLINT_MTIMECMP + 8 {
        reg, offset := mtimecmp, addr - CLINT_MTIMECMP;
      } else if CLINT_MTIME <= addr <= CLINT_MTIME + 8 {
        reg, offset := mtime, addr - CLINT_MTIME;
      } else {
        return Err(StoreAMOAccessFault);
      }
      // The bytes of the access are replaced, the others kept.
      if size == DoubleWord {
        reg := value;
      } else {
        reg := Overwrite(reg, PadBytes(size.Mask(), offset % 8), PadBytes(CutTo(value, size), offset % 8));
      }
      // The register that answered takes the result.
      if CLINT_MSIP <= addr <= CLINT_MSIP + 4 {
        msip := Low32(reg);
      } else if CLINT_MTIMECMP <= addr <= CLINT_MTIMECMP + 8 {
        mtimecmp := reg;
      } else {
        mtime := reg;
      }
      r := Ok(());
    }
  }

  class VirtioDevice {
    var id: Addr
    var guestPageSize: bv64
    var queuePfn: bv64
    var queueNotify: bv64
    var interruptStatus: bv64
    var disk: seq<bv8>

    ghost function Value(): Virtio
      reads this
    {
      Virtio(id, guestPageSize, queuePfn, queueNotify, interruptStatus, disk)
    }

    constructor ()
      ensures Value() == Virtio(0, 0, 0, NO_NOTIFY, 0, [])
    {
      id, guestPageSize, queuePfn, queueNotify, interruptStatus, disk := 0, 0, 0, NO_NOTIFY, 0, [];
    }

    /** True if an interrupt is pending, which is then no longer so. */
    method IsInterrupting() returns (b: bool)
      modifies this
      ensures b == (old(queueNotify) != NO_NOTIFY)
      ensures Value() == old(Value()).(queueNotify := NO_NOTIFY)
    {
      if queueNotify != NO_NOTIFY {
        queueNotify := NO_NOTIFY;
        return true;
      }
      return false;
    }

    method Initialize(binary: seq<bv8>)
      modifies this
      ensures Value() == old(Value()).(disk := old(disk) + binary)
    {
      disk := disk + binary;
    }

    method Read(env: Env, addr: Addr, size: Size) returns (r: Outcome<bv64>)
      ensures r == VirtioRead(Value(), env, addr, size)
    {
      if size == DoubleWord {
        return Err(LoadAccessFault);
      }
      if addr == VIRTIO_QUEUE_PFN {
        r := Ok(queuePfn);
      } else if addr == VIRTIO_INTERRUPT_STATUS {
        r := Ok(interruptStatus);
      } else {
        r := env.Read(addr, size);
      }
    }

    method Write(env: Env, addr: Addr, value: bv64, size: Size) returns (r: Outcome<()>)
      modifies this
      ensures (Value(), r) == VirtioWrite(old(Value()), env, addr, value, size)
    {
      hide Low32, IsOdd, Acknowledged;
      if size == DoubleWord {
        return Err(StoreAMOAccessFault);
      }
      r := Ok(());
      if addr == VIRTIO_GUEST_PAGE_SIZE {
        guestPageSize := Low32(value);
      } else if addr == VIRTIO_QUEUE_PFN {
        queuePfn := Low32(value);
      } else if addr == VIRTIO_QUEUE_NOTIFY {
        queueNotify := Low32(value);
      } else if addr == VIRTIO_INTERRUPT_ACK {
        if IsOdd(value) {
          interruptStatus := Acknowledged(interruptStatus);
        } else {
          return Panic;
        }
      } else {
        r := env.Write(addr, size);
      }
    }
  }

  class SystemBus {
    const dram: Dram
    const clint: ClintDevice
    const virtio: VirtioDevice
    var env: Env

    ghost function Footprint(): set<object> { {this, dram.dram, clint, virtio} }

    ghost function Value(): Bus
      reads Footprint()
    {
      Bus(dram.Contents(), clint.Value(), virtio.Value(), env)
    }

    constructor (dramSize: nat, env: Env)
      ensures fresh(Footprint())
      ensures Value().clint == Clint(0, 0, 0) && Value().virtio == Virtio(0, 0, 0, NO_NOTIFY, 0, [])
      ensures Value().env == env && |Value().dram| == dramSize
      ensures forall i | 0 <= i < dramSize :: Value().dram[i] == 0
    {
      dram := new Dram(dramSize);
      clint := new ClintDevice();
      virtio := new VirtioDevice();
      this.env := env;
    }

    method Read(addr: Addr, size: Size) returns (r: Outcome<bv64>)
      ensures r == BusRead(Value(), addr, size)
    {
      hide LoadBytes, ClintRead, VirtioRead;
      if MROM_BASE <= addr <= MROM_END {
        r := env.Read(addr, size);
      } else if CLINT_BASE <= addr <= CLINT_END {
        r := clint.Read(addr, size);
      } else if PLIC_BASE <= addr <= PLIC_END {
        r := env.Read(addr, size);
      } else if UART_BASE <= addr <= UART_END {
        r := env.Read(addr, size);
      } else if VIRTIO_BASE <= addr <= VIRTIO_END {
        r := virtio.Read(env, addr, size);
      } else if DRAM_BASE <= addr <= DRAM_END {
        r := dram.Read(addr, size);
      } else {
        r := Err(LoadAccessFault);
      }
    }

    method Write(addr: Addr, value: bv64, size: Size) returns (r: Outcome<()>)
      modifies dram.dram, clint, virtio
      ensures (Value(), r) == BusWrite(old(Value()), addr, value, size)
    {
      hide StoreBytes, ClintWrite, VirtioWrite;
      if CLINT_BASE <= addr <= CLINT_END {
        r := clint.Write(addr, value, size);
      } else if PLIC_BASE <= addr <= PLIC_END {
        r := env.Write(addr, size);
      } else if UART_BASE <= addr <= UART_END {
        r := env.Write(addr, size);
      } else if VIRTIO_BASE <= addr <= VIRTIO_END {
        r := virtio.Write(env, addr, value, size);
      } else if DRAM_BASE <= addr <= DRAM_END {
        r := dram.Write(addr, value, size);
      } else {
        r := Err(StoreAMOAccessFault);
      }
    }
  }
}
