/** The virtio block device: one request, read from the descriptor chain in guest memory, copied
    between memory and the disk, and reported in the used ring. */
module Disk {
  import opened Types
  import opened Words
  import opened ByteStore
  import opened Devices

  const VRING_DESC_SIZE := 16
  const QUEUE_SIZE := 8
  const SECTOR_SIZE := 512

  /** Address arithmetic wraps at 64 bits. */
  function At(base: Addr, offset: nat): Addr { (base + offset) % TWO64 }

  function DescAddr(v: Virtio): Addr { (Phys(v.queuePfn) * Phys(v.guestPageSize)) % TWO64 }

  function ReadAddr(b: Bus, a: Addr, size: Size): Outcome<Addr> {
    var w :- BusRead(b, a, size);
    Ok(Phys(w))
  }

  datatype Desc = Desc(addr: Addr, len: nat, toMemory: bool, next: nat)

  /** The flag that marks a buffer as written by the device. */
  predicate DeviceWrites(flags: bv64) { flags & 2 != 0 }

  function ReadDirection(b: Bus, a: Addr): Outcome<bool> {
    var flags :- BusRead(b, a, HalfWord);
    Ok(DeviceWrites(flags))
  }

  function ReadDesc(b: Bus, a: Addr): Outcome<Desc> {
    var addr :- ReadAddr(b, a, DoubleWord);
    var len :- ReadAddr(b, At(a, 8), Word);
    var toMemory :- ReadDirection(b, At(a, 12));
    var next :- ReadAddr(b, At(a, 14), HalfWord);
    Ok(Desc(addr, len, toMemory, next))
  }

  /** The head of the chain, as the source computes it from the available ring. */
  function HeadIndex(b: Bus, queue: Addr): Outcome<nat> {
    var avail := At(queue, 0x40);
    var offset :- ReadAddr(b, At(avail, 1), HalfWord);
    ReadAddr(b, At(At(avail, offset % QUEUE_SIZE), 2), HalfWord)
  }

  datatype Request = Request(header: Addr, buffer: Desc, status: Addr)

  function ReadRequest(b: Bus): Outcome<Request> {
    var queue := DescAddr(b.virtio);
    var index :- HeadIndex(b, queue);
    var desc0 :- ReadDesc(b, At(queue, VRING_DESC_SIZE * index));
    var desc1 :- ReadDesc(b, At(queue, VRING_DESC_SIZE * desc0.next));
    var status :- ReadAddr(b, At(queue, VRING_DESC_SIZE * desc1.next), DoubleWord);
    Ok(Request(desc0.addr, desc1, status))
  }

  /** A bus write whose failure ends the request. */
  function Put(b: Bus, a: Addr, v: bv64, size: Size): Outcome<Bus> {
    var (b', r) := BusWrite(b, a, v, size);
    match r
    case Ok(_) => Ok(b')
    case Err(e) => Err(e)
    case Panic => Panic
  }

  /** `v as u8` */
  function Low8(v: bv64): bv8 { ByteOf(v, 0) }

  /** Bytes `i..n` from memory at `src` to the disk at `dst`. A disk index out of range panics. */
  function CopyToDisk(b: Bus, src: Addr, dst: Addr, i: nat, n: nat): Outcome<Bus>
    requires i <= n
    decreases n - i
  {
    if i == n then Ok(b)
    else
      var data :- BusRead(b, At(src, i), Byte);
      var d := At(dst, i);
      if d >= |b.virtio.disk| then Panic
      else CopyToDisk(b.(virtio := b.virtio.(disk := b.virtio.disk[d := Low8(data)])), src, dst, i + 1, n)
  }

  /** Bytes `i..n` from the disk at `src` to memory at `dst`. */
  function CopyToMemory(b: Bus, src: Addr, dst: Addr, i: nat, n: nat): Outcome<Bus>
    requires i <= n
    decreases n - i
  {
    if i == n then Ok(b)
    else
      var s := At(src, i);
      if s >= |b.virtio.disk| then Panic
      else
        var b' :- Put(b, At(dst, i), b.virtio.disk[s] as bv64, Byte);
        CopyToMemory(b', src, dst, i + 1, n)
  }

  function DiskOffset(sector: Addr): Addr { (sector * SECTOR_SIZE) % TWO64 }

  function Transfer(b: Bus, q: Request): Outcome<Bus> {
    var b1 :- Put(b, q.status, 0, Byte);
    var sector :- ReadAddr(b1, At(q.header, 8), DoubleWord);
    if q.buffer.toMemory then CopyToMemory(b1, DiskOffset(sector), q.buffer.addr, 0, q.buffer.len)
    else CopyToDisk(b1, q.buffer.addr, DiskOffset(sector), 0, q.buffer.len)
  }

  function UsedAddr(queue: Addr): Addr { At(At(queue, 4096), 2) }

  /** The id of a request in the ring. */
  function RingIndex(id: Addr): bv64 { (id % QUEUE_SIZE) as bv64 }

  /** Count the request and report it in the used ring found before the request ran. */
  function Complete(b: Bus, queue: Addr): Outcome<Bus> {
    var id := At(b.virtio.id, 1);
    Put(b.(virtio := b.virtio.(id := id)), UsedAddr(queue), RingIndex(id), HalfWord)
  }

  function Asserted(status: bv64): bv64 { status | 1 }

  function DiskAccess(b: Bus): Outcome<Bus> {
    var b1 := b.(virtio := b.virtio.(interruptStatus := Asserted(b.virtio.interruptStatus)));
    var q :- ReadRequest(b1);
    var b2 :- Transfer(b1, q);
    Complete(b2, DescAddr(b.virtio))
  }
}
