/** The disk access of the emulator: it updates guest memory and the disk in place. */
module VirtioBlk {
  import opened Types
  import opened Words
  import opened Devices
  import opened SystemBus
  import opened Disk

  method ReadAddress(bus: SystemBus, addr: Addr, size: Size) returns (r: Outcome<Addr>)
    ensures r == ReadAddr(bus.Value(), addr, size)
  {
    hide BusRead;
    var w :- bus.Read(addr, size);
    r := Ok(Phys(w));
  }

  method ReadFlags(bus: SystemBus, addr: Addr) returns (r: Outcome<bool>)
    ensures r == ReadDirection(bus.Value(), addr)
  {
    hide BusRead, DeviceWrites;
    var flags :- bus.Read(addr, HalfWord);
    r := Ok(DeviceWrites(flags));
  }

  /** A descriptor, from the address that stores it. */
  method NewDesc(bus: SystemBus, addr: Addr) returns (r: Outcome<Desc>)
    ensures r == ReadDesc(bus.Value(), addr)
  {
    hide ReadAddr, ReadDirection, At;
    var descAddr :- ReadAddress(bus, addr, DoubleWord);
    var len :- ReadAddress(bus, At(addr, 8), Word);
    var toMemory :- ReadFlags(bus, At(addr, 12));
    var next :- ReadAddress(bus, At(addr, 14), HalfWord);
    r := Ok(Desc(descAddr, len, toMemory, next));
  }

  method FindHead(bus: SystemBus, queue: Addr) returns (r: Outcome<nat>)
    ensures r == HeadIndex(bus.Value(), queue)
  {
    hide ReadAddr, At;
    var availAddr := At(queue, 0x40);
    var offset :- ReadAddress(bus, At(availAddr, 1), HalfWord);
    var index :- ReadAddress(bus, At(At(availAddr, offset % QUEUE_SIZE), 2), HalfWord);
    r := Ok(index);
  }

  method FindRequest(bus: SystemBus, queue: Addr) returns (r: Outcome<Request>)
    requires queue == DescAddr(bus.Value().virtio)
    ensures r == ReadRequest(bus.Value())
  {
    hide HeadIndex, ReadAddr, At, DescAddr, ReadDesc;
    var index :- FindHead(bus, queue);
    var desc0 :- NewDesc(bus, At(queue, VRING_DESC_SIZE * index));
    var desc1 :- NewDesc(bus, At(queue, VRING_DESC_SIZE * desc0.next));
    var status :- ReadAddress(bus, At(queue, VRING_DESC_SIZE * desc1.next), DoubleWord);
    r := Ok(Request(desc0.addr, desc1, status));
  }

  /** Read memory data and write it to the disk directly. */
  method WriteDisk(bus: SystemBus, src: Addr, dst: Addr, len: nat) returns (r: Outcome<()>)
    modifies bus.virtio
    ensures var spec := CopyToDisk(old(bus.Value()), src, dst, 0, len);
            if r.Ok? then spec == Ok(bus.Value()) else !spec.Ok?
  {
    hide BusRead, At, Low8;
    ghost var b := bus.Value();
    var i := 0;
    while i < len
      invariant 0 <= i <= len
      invariant CopyToDisk(b, src, dst, 0, len) == CopyToDisk(bus.Value(), src, dst, i, len)
    {
      var data :- bus.Read(At(src, i), Byte);
      var d := At(dst, i);
      if d >= |bus.virtio.disk| {
        return Panic;
      }
      bus.virtio.disk := bus.virtio.disk[d := Low8(data)];
      i := i + 1;
    }
    r := Ok(());
  }

  method WriteMemory(bus: SystemBus, a: Addr, v: bv64, size: Size) returns (r: Outcome<()>)
    modifies bus.dram.dram, bus.clint, bus.virtio
    ensures var spec := Put(old(bus.Value()), a, v, size);
            if r.Ok? then spec == Ok(bus.Value()) else !spec.Ok?
  {
    hide BusWrite;
    r := bus.Write(a, v, size);
  }

  /** One byte from the disk to memory. */
  method ReadByte(bus: SystemBus, s: Addr, d: Addr) returns (r: Outcome<()>)
    modifies bus.dram.dram, bus.clint, bus.virtio
    ensures var b := old(bus.Value());
            var spec := if s >= |b.virtio.disk| then Panic else Put(b, d, b.virtio.disk[s] as bv64, Byte);
            if r.Ok? then spec == Ok(bus.Value()) else !spec.Ok?
  {
    hide Put;
    if s >= |bus.virtio.disk| {
      return Panic;
    }
    r := WriteMemory(bus, d, bus.virtio.disk[s] as bv64, Byte);
  }

  /** Read disk data and write it to memory directly. */
  method ReadDisk(bus: SystemBus, src: Addr, dst: Addr, len: nat) returns (r: Outcome<()>)
    modifies bus.dram.dram, bus.clint, bus.virtio
    ensures var spec := CopyToMemory(old(bus.Value()), src, dst, 0, len);
            if r.Ok? then spec == Ok(bus.Value()) else !spec.Ok?
  {
    hide Put, At;
    ghost var b := bus.Value();
    var i := 0;
    while i < len
      invariant 0 <= i <= len
      invariant CopyToMemory(b, src, dst, 0, len) == CopyToMemory(bus.Value(), src, dst, i, len)
    {
      var _ :- ReadByte(bus, At(src, i), At(dst, i));
      i := i + 1;
    }
    r := Ok(());
  }

  method TransferData(bus: SystemBus, q: Request) returns (r: Outcome<()>)
    modifies bus.dram.dram, bus.clint, bus.virtio
    ensures var spec := Transfer(old(bus.Value()), q);
            if r.Ok? then spec == Ok(bus.Value()) else !spec.Ok?
  {
    hide BusRead, Put, At, DiskOffset, CopyToDisk, CopyToMemory;
    // Tell success.
    var _ :- WriteMemory(bus, q.status, 0, Byte);
    var sector :- bus.Read(At(q.header, 8), DoubleWord);
    if !q.buffer.toMemory {
      r := WriteDisk(bus, q.buffer.addr, DiskOffset(Phys(sector)), q.buffer.len);
    } else {
      r := ReadDisk(bus, DiskOffset(Phys(sector)), q.buffer.addr, q.buffer.len);
    }
  }

  /** One request of the driver. A failure ends the emulator, so the state it leaves is not specified. */
  method DiskAccess(bus: SystemBus) returns (r: Outcome<()>)
    modifies bus.dram.dram, bus.clint, bus.virtio
    ensures var spec := Disk.DiskAccess(old(bus.Value()));
            if r.Ok? then spec == Ok(bus.Value()) else !spec.Ok?
  {
    hide ReadRequest, Transfer, Put, At, DescAddr, Asserted, RingIndex, UsedAddr;
    bus.virtio.interruptStatus := Asserted(bus.virtio.interruptStatus);
    var descAddr := QueueAddr(bus);
    var q :- FindRequest(bus, descAddr);
    var _ :- TransferData(bus, q);
    bus.virtio.id := At(bus.virtio.id, 1);
    var _ :- WriteMemory(bus, UsedAddr(descAddr), RingIndex(bus.virtio.id), HalfWord);
    r := Ok(());
  }

  method QueueAddr(bus: SystemBus) returns (a: Addr)
    ensures a == DescAddr(bus.Value().virtio)
    ensures forall status :: DescAddr(bus.Value().virtio.(interruptStatus := status)) == a
  {
    a := (Phys(bus.virtio.queuePfn) * Phys(bus.virtio.guestPageSize)) % TWO64;
  }
}
