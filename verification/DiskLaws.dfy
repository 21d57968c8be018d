/** A disk request has exactly its specified effect, and requests are counted. */
module DiskLaws {
  import opened Types
  import opened Words
  import opened ByteStore
  import opened Devices
  import opened Disk
  import Alu

  /** `n` bytes of DRAM from address `a` on. */
  predicate InMemory(b: Bus, a: Addr, n: nat) {
    DRAM_BASE <= a && a + n <= DRAM_END + 1 && a - DRAM_BASE + n <= |b.dram|
  }

  predicate OnDisk(b: Bus, a: Addr, n: nat) { a + n <= |b.virtio.disk| && a + n <= TWO64 }

  function Bytes(b: Bus, a: Addr, n: nat): seq<bv8>
    requires InMemory(b, a, n)
  {
    b.dram[a - DRAM_BASE..a - DRAM_BASE + n]
  }

  function DiskBytes(b: Bus, a: Addr, n: nat): seq<bv8>
    requires OnDisk(b, a, n)
  {
    b.virtio.disk[a..a + n]
  }

  predicate ApartRanges(a: Addr, n: nat, p: Addr, m: nat) { a + n <= p || p + m <= a }

  // ---------------------------------------------------------------------------
  // Bytes

  lemma LowByteOfWide(x: bv8)
    ensures Low8(x as bv64) == x
  {
  }

  lemma LoadOneByte(d: seq<bv8>, i: nat)
    requires i < |d|
    ensures Low8(LoadBytes(d, i, Byte)) == d[i]
  {
    hide LittleEndian, Low8;
    LoadForm1(d[i..i + 1]);
    LowByteOfWide(d[i]);
  }

  lemma StoreOneByte(d: seq<bv8>, i: nat, v: bv64)
    requires i < |d|
    ensures StoreBytes(d, i, v, Byte) == d[i := Low8(v)]
  {
    hide ToBytes, ByteOf;
    BytesOf1(v);
  }

  // ---------------------------------------------------------------------------
  // The copy loops

  lemma SpliceStep(d: seq<bv8>, k: nat, bs: seq<bv8>, i: nat)
    requires i < |bs| && k + |bs| <= |d|
    ensures Splice(d[k + i := bs[i]], k + i + 1, bs[i + 1..]) == Splice(d, k + i, bs[i..])
  {
  }

  lemma SpliceNothing(d: seq<bv8>, k: nat)
    requires k <= |d|
    ensures Splice(d, k, []) == d
  {
  }

  lemma NoWrap(a: Addr, i: nat)
    requires a + i < TWO64
    ensures At(a, i) == a + i
  {
  }

  /** Reading a byte of DRAM through the bus. */
  lemma ReadsByte(b: Bus, src: Addr, n: nat, i: nat)
    requires InMemory(b, src, n) && i < n
    ensures var r := BusRead(b, At(src, i), Byte); r.Ok? && Low8(r.value) == Bytes(b, src, n)[i]
  {
    hide LoadBytes, Low8, At;
    NoWrap(src, i);
    LoadOneByte(b.dram, src + i - DRAM_BASE);
  }

  lemma PutsInMemory(b: Bus, a: Addr, v: bv64, size: Size)
    requires InMemory(b, a, size.Bytes())
    ensures Put(b, a, v, size) == Ok(b.(dram := StoreBytes(b.dram, a - DRAM_BASE, v, size)))
  {
    hide StoreBytes;
  }

  lemma PutsByte(b: Bus, dst: Addr, n: nat, i: nat, x: bv8)
    requires InMemory(b, dst, n) && i < n
    ensures Put(b, At(dst, i), x as bv64, Byte) == Ok(b.(dram := b.dram[dst + i - DRAM_BASE := x]))
  {
    hide StoreBytes, Low8, At, Put;
    NoWrap(dst, i);
    PutsInMemory(b, dst + i, x as bv64, Byte);
    StoreOneByte(b.dram, dst + i - DRAM_BASE, x as bv64);
    LowByteOfWide(x);
  }

  /** Copying to the disk replaces exactly the bytes of the sector range by the bytes of the buffer. */
  lemma {:induction false} CopyToDiskExact(b: Bus, src: Addr, dst: Addr, i: nat, n: nat, bs: seq<bv8>)
    requires i <= n && InMemory(b, src, n) && OnDisk(b, dst, n) && bs == Bytes(b, src, n)
    ensures CopyToDisk(b, src, dst, i, n)
            == Ok(b.(virtio := b.virtio.(disk := Splice(b.virtio.disk, dst + i, bs[i..]))))
    decreases n - i
  {
    hide BusRead, Low8, At, Splice;
    var disk := b.virtio.disk;
    if i == n {
      assert bs[i..] == [];
      SpliceNothing(disk, dst + i);
    } else {
      ReadsByte(b, src, n, i);
      NoWrap(dst, i);
      CopyToDiskExact(b.(virtio := b.virtio.(disk := disk[dst + i := bs[i]])), src, dst, i + 1, n, bs);
      SpliceStep(disk, dst, bs, i);
    }
  }

  /** Copying to memory replaces exactly the bytes of the buffer by the bytes of the sector range. */
  lemma {:induction false} CopyToMemoryExact(b: Bus, src: Addr, dst: Addr, i: nat, n: nat, bs: seq<bv8>)
    requires i <= n && OnDisk(b, src, n) && InMemory(b, dst, n) && bs == DiskBytes(b, src, n)
    ensures CopyToMemory(b, src, dst, i, n) == Ok(b.(dram := Splice(b.dram, dst + i - DRAM_BASE, bs[i..])))
    decreases n - i
  {
    hide Put, At, Splice;
    if i == n {
      assert bs[i..] == [];
      SpliceNothing(b.dram, dst + i - DRAM_BASE);
    } else {
      NoWrap(src, i);
      PutsByte(b, dst, n, i, bs[i]);
      CopyToMemoryExact(b.(dram := b.dram[dst + i - DRAM_BASE := bs[i]]), src, dst, i + 1, n, bs);
      SpliceStep(b.dram, dst - DRAM_BASE, bs, i);
    }
  }

  // ---------------------------------------------------------------------------
  // One request

  /** The bus as the request finds it. */
  function Notified(b: Bus): Bus {
    b.(virtio := b.virtio.(interruptStatus := Asserted(b.virtio.interruptStatus)))
  }

  /** What the request writes lies in memory, apart from one another, and what it copies on the disk. */
  predicate InPlace(b: Bus, q: Request, sector: Addr) {
    var used, buf, n := UsedAddr(DescAddr(b.virtio)), q.buffer.addr, q.buffer.len;
    && InMemory(b, q.status, 1) && InMemory(b, buf, n) && InMemory(b, used, 2) && OnDisk(b, DiskOffset(sector), n)
    && ApartRanges(q.status, 1, buf, n) && ApartRanges(used, 2, buf, n) && ApartRanges(used, 2, q.status, 1)
  }

  /** The request is in place, and its header lies in memory apart from the status byte and names the sector. */
  predicate WellPlaced(b: Bus, q: Request, sector: Addr) {
    && InPlace(b, q, sector)
    && InMemory(b, At(q.header, 8), 8) && LittleEndian(Bytes(b, At(q.header, 8), 8)) as int == sector
    && ApartRanges(q.status, 1, At(q.header, 8), 8)
  }

  /** What the request's buffer holds when it is done. */
  function Delivered(b: Bus, q: Request, sector: Addr): (r: seq<bv8>)
    requires InPlace(b, q, sector)
    ensures |r| == q.buffer.len
  {
    if q.buffer.toMemory then DiskBytes(b, DiskOffset(sector), q.buffer.len) else Bytes(b, q.buffer.addr, q.buffer.len)
  }

  lemma NotifiedIsPlaced(b: Bus, q: Request, sector: Addr)
    requires WellPlaced(b, q, sector)
    ensures WellPlaced(Notified(b), q, sector) && DescAddr(Notified(b).virtio) == DescAddr(b.virtio)
  {
    hide LittleEndian, Asserted, At, DiskOffset, Phys;
  }

  /** Memory once success is told. */
  function Told(b: Bus, q: Request): Bus
    requires InMemory(b, q.status, 1)
  {
    b.(dram := b.dram[q.status - DRAM_BASE := 0])
  }

  lemma TellsSuccess(b: Bus, q: Request)
    requires InMemory(b, q.status, 1)
    ensures Put(b, q.status, 0, Byte) == Ok(Told(b, q))
  {
    hide Put, Low8, StoreBytes;
    PutsInMemory(b, q.status, 0, Byte);
    StoreOneByte(b.dram, q.status - DRAM_BASE, 0);
    LowByteOfZero();
  }

  /** The status byte disturbs neither the sector number nor the buffer. */
  lemma ToldKeeps(b: Bus, q: Request, a: Addr, n: nat)
    requires InMemory(b, q.status, 1) && InMemory(b, a, n) && ApartRanges(q.status, 1, a, n)
    ensures InMemory(Told(b, q), a, n) && Bytes(Told(b, q), a, n) == Bytes(b, a, n)
  {
  }

  lemma SectorAfterTelling(b: Bus, q: Request, sector: Addr)
    requires WellPlaced(b, q, sector)
    ensures ReadAddr(Told(b, q), At(q.header, 8), DoubleWord) == Ok(sector)
  {
    hide LittleEndian, At, ReadAddr, UsedAddr, DescAddr, DiskOffset, Told;
    var h := At(q.header, 8);
    ToldKeeps(b, q, h, 8);
    ReadsSector(Told(b, q), h, sector);
  }

  /** What the transfer leaves: the status byte and the copied bytes. */
  lemma TransferExact(b: Bus, q: Request, sector: Addr)
    requires WellPlaced(b, q, sector)
    ensures var b1, off, n := Told(b, q), DiskOffset(sector), q.buffer.len;
            Transfer(b, q)
            == Ok(if q.buffer.toMemory
                  then b1.(dram := Splice(b1.dram, q.buffer.addr - DRAM_BASE, DiskBytes(b, off, n)))
                  else b1.(virtio := b.virtio.(disk := Splice(b.virtio.disk, off, Bytes(b, q.buffer.addr, n)))))
  {
    hide LittleEndian, CopyToDisk, CopyToMemory, Put, At, DiskOffset, ReadAddr, UsedAddr, DescAddr, Splice;
    TellsSuccess(b, q);
    SectorAfterTelling(b, q, sector);
    ToldKeeps(b, q, q.buffer.addr, q.buffer.len);
    var b1, n, off := Told(b, q), q.buffer.len, DiskOffset(sector);
    if q.buffer.toMemory {
      CopyToMemoryExact(b1, off, q.buffer.addr, 0, n, DiskBytes(b1, off, n));
      assert DiskBytes(b1, off, n)[0..] == DiskBytes(b, off, n);
    } else {
      CopyToDiskExact(b1, q.buffer.addr, off, 0, n, Bytes(b, q.buffer.addr, n));
      assert Bytes(b, q.buffer.addr, n)[0..] == Bytes(b, q.buffer.addr, n);
    }
  }

  lemma ReadsSector(b: Bus, h: Addr, sector: Addr)
    requires InMemory(b, h, 8) && LittleEndian(Bytes(b, h, 8)) as int == sector
    ensures ReadAddr(b, h, DoubleWord) == Ok(sector)
  {
    hide LittleEndian;
  }

  lemma LowByteOfZero()
    ensures Low8(0) == 0
  {
  }

  /** Three writes apart from one another: the status byte, the buffer and the used index. */
  lemma ThreeWrites(d: seq<bv8>, st: nat, buf: nat, data: seq<bv8>, used: nat, tail: seq<bv8>, d3: seq<bv8>)
    requires st < |d| && buf + |data| <= |d| && used + |tail| <= |d|
    requires (st + 1 <= buf || buf + |data| <= st) && (used + |tail| <= buf || buf + |data| <= used)
    requires used + |tail| <= st || st + 1 <= used
    requires d3 == Splice(Splice(d[st := 0], buf, data), used, tail)
    ensures d3[buf..buf + |data|] == data && d3[st..st + 1] == [0] && d3[used..used + |tail|] == tail
  {
    hide Splice;
    var d1 := d[st := 0];
    var d2 := Splice(d1, buf, data);
    SpliceInside(d1, buf, data);
    SpliceOutside(d1, buf, data, st, 1);
    SpliceInside(d2, used, tail);
    SpliceOutside(d2, used, tail, buf, |data|);
    SpliceOutside(d2, used, tail, st, 1);
    assert d1[st..st + 1] == [0];
  }

  lemma ThreeWritesMiss(d: seq<bv8>, st: nat, buf: nat, data: seq<bv8>, used: nat, tail: seq<bv8>, d3: seq<bv8>, i: nat)
    requires st < |d| && buf + |data| <= |d| && used + |tail| <= |d| && i < |d|
    requires d3 == Splice(Splice(d[st := 0], buf, data), used, tail)
    requires i != st && (i < buf || buf + |data| <= i) && (i < used || used + |tail| <= i)
    ensures d3[i..i + 1] == d[i..i + 1]
  {
    hide Splice;
    var d1 := d[st := 0];
    SpliceOutside(d1, buf, data, i, 1);
    SpliceOutside(Splice(d1, buf, data), used, tail, i, 1);
    assert d1[i..i + 1] == d[i..i + 1];
  }

  lemma TransferDelivers(b: Bus, q: Request, sector: Addr)
    requires WellPlaced(b, q, sector)
    ensures Transfer(b, q).Ok?
    ensures Transfer(b, q).value.dram
            == Splice(b.dram[q.status - DRAM_BASE := 0], q.buffer.addr - DRAM_BASE, Delivered(b, q, sector))
  {
    hide Transfer, Splice, DiskOffset, UsedAddr, DescAddr, At, LittleEndian;
    TransferExact(b, q, sector);
    if !q.buffer.toMemory {
      var d1, i, n := b.dram[q.status - DRAM_BASE := 0], q.buffer.addr - DRAM_BASE, q.buffer.len;
      SpliceSelf(d1, i, n);
      assert d1[i..i + n] == b.dram[i..i + n];
    }
  }

  /** The memory after a request: the status byte, the buffer and the used index written one after the other. */
  function Written(b: Bus, q: Request, sector: Addr): (r: seq<bv8>)
    requires InPlace(b, q, sector)
    ensures |r| == |b.dram|
  {
    var d2 := Splice(b.dram[q.status - DRAM_BASE := 0], q.buffer.addr - DRAM_BASE, Delivered(b, q, sector));
    Splice(d2, UsedAddr(DescAddr(b.virtio)) - DRAM_BASE, ToBytes(RingIndex(At(b.virtio.id, 1)), 2))
  }

  /** The disk after a request. */
  function Recorded(b: Bus, q: Request, sector: Addr): seq<bv8>
    requires InPlace(b, q, sector)
  {
    if q.buffer.toMemory then b.virtio.disk
    else Splice(b.virtio.disk, DiskOffset(sector), Bytes(b, q.buffer.addr, q.buffer.len))
  }

  lemma RequestOutcome(b: Bus, q: Request, sector: Addr)
    requires ReadRequest(Notified(b)) == Ok(q) && WellPlaced(b, q, sector)
    ensures DiskAccess(b) == Ok(b.(
              dram := Written(b, q, sector),
              virtio := Notified(b).virtio.(id := At(b.virtio.id, 1), disk := Recorded(b, q, sector))))
  {
    hide LittleEndian, ToBytes, ReadRequest, Transfer, RingIndex, Asserted, UsedAddr, DescAddr, At, DiskOffset, Put;
    hide Splice, Delivered;
    var b1, used, id := Notified(b), UsedAddr(DescAddr(b.virtio)), At(b.virtio.id, 1);
    NotifiedIsPlaced(b, q, sector);
    NotifiedDelivers(b, q, sector);
    TransferExact(b1, q, sector);
    TransferDelivers(b1, q, sector);
    var b2 := Transfer(b1, q).value;
    PutsInMemory(b2.(virtio := b2.virtio.(id := id)), used, RingIndex(id), HalfWord);
  }

  lemma NotifiedDelivers(b: Bus, q: Request, sector: Addr)
    requires InPlace(b, q, sector) && InPlace(Notified(b), q, sector)
    ensures Delivered(Notified(b), q, sector) == Delivered(b, q, sector)
  {
    hide InPlace, DiskOffset, Asserted;
  }

  /** What a request does to the device: the disk bytes, the id and the interrupt flag. The size of the
      memory, the timer and every other register are as they were. */
  lemma RequestOnDevice(b: Bus, q: Request, sector: Addr)
    requires ReadRequest(Notified(b)) == Ok(q) && WellPlaced(b, q, sector)
    ensures DiskAccess(b).Ok?
    ensures var b' := DiskAccess(b).value;
            && |b'.dram| == |b.dram| && b'.clint == b.clint && b'.env == b.env
            && b'.virtio == Notified(b).virtio.(id := At(b.virtio.id, 1), disk := b'.virtio.disk)
            && b'.virtio.disk == (if q.buffer.toMemory then b.virtio.disk
                                  else Splice(b.virtio.disk, DiskOffset(sector), Bytes(b, q.buffer.addr, q.buffer.len)))
  {
    hide ReadRequest, DiskAccess, Written, Asserted, At, Splice, DiskOffset, UsedAddr, DescAddr, LittleEndian;
    RequestOutcome(b, q, sector);
  }

  /** What a request does to memory: exactly `len` bytes of the buffer in the direction given by the flags,
      the status byte and the used index. */
  lemma RequestInMemory(b: Bus, q: Request, sector: Addr, after: Bus)
    requires ReadRequest(Notified(b)) == Ok(q) && WellPlaced(b, q, sector) && DiskAccess(b) == Ok(after)
    ensures var used, buf, n := UsedAddr(DescAddr(b.virtio)), q.buffer.addr, q.buffer.len;
            && InMemory(after, used, 2) && InMemory(after, buf, n) && InMemory(after, q.status, 1)
            && Bytes(after, buf, n) == Delivered(b, q, sector)
            && Bytes(after, q.status, 1) == [0]
            && Bytes(after, used, 2) == ToBytes(RingIndex(At(b.virtio.id, 1)), 2)
  {
    hide ReadRequest, DiskAccess, UsedAddr, DescAddr, At, DiskOffset, Delivered, Recorded, Splice, ToBytes, RingIndex;
    hide LittleEndian;
    RequestOutcome(b, q, sector);
    ThreeWrites(b.dram, q.status - DRAM_BASE, q.buffer.addr - DRAM_BASE, Delivered(b, q, sector),
      UsedAddr(DescAddr(b.virtio)) - DRAM_BASE, ToBytes(RingIndex(At(b.virtio.id, 1)), 2), after.dram);
  }

  /** A request changes no byte of memory but those of the buffer, the status byte and the used index. */
  lemma RequestSparesTheRest(b: Bus, q: Request, sector: Addr, after: Bus, k: Addr)
    requires ReadRequest(Notified(b)) == Ok(q) && WellPlaced(b, q, sector) && DiskAccess(b) == Ok(after)
    requires InMemory(b, k, 1) && ApartRanges(k, 1, q.buffer.addr, q.buffer.len) && k != q.status
    requires ApartRanges(k, 1, UsedAddr(DescAddr(b.virtio)), 2)
    ensures InMemory(after, k, 1) && Bytes(after, k, 1) == Bytes(b, k, 1)
  {
    hide ReadRequest, DiskAccess, UsedAddr, DescAddr, At, DiskOffset, Delivered, Recorded, Splice, ToBytes, RingIndex;
    hide LittleEndian;
    RequestOutcome(b, q, sector);
    ThreeWritesMiss(b.dram, q.status - DRAM_BASE, q.buffer.addr - DRAM_BASE, Delivered(b, q, sector),
      UsedAddr(DescAddr(b.virtio)) - DRAM_BASE, ToBytes(RingIndex(At(b.virtio.id, 1)), 2), after.dram, k - DRAM_BASE);
  }

  // ---------------------------------------------------------------------------
  // Two requests

  /** What a write request put on the disk, a read request of the same sector brings back, wherever
      its buffer is, as long as the disk was left alone in between. */
  lemma WriteThenRead(b: Bus, q: Request, after: Bus, b': Bus, q': Request, after': Bus, sector: Addr)
    requires ReadRequest(Notified(b)) == Ok(q) && WellPlaced(b, q, sector) && !q.buffer.toMemory
    requires DiskAccess(b) == Ok(after) && b'.virtio.disk == after.virtio.disk
    requires ReadRequest(Notified(b')) == Ok(q') && WellPlaced(b', q', sector) && q'.buffer.toMemory
    requires DiskAccess(b') == Ok(after') && q'.buffer.len == q.buffer.len
    ensures InMemory(after', q'.buffer.addr, q.buffer.len)
    ensures Bytes(after', q'.buffer.addr, q.buffer.len) == Bytes(b, q.buffer.addr, q.buffer.len)
  {
    hide ReadRequest, DiskAccess, UsedAddr, DescAddr, At, DiskOffset, LittleEndian, ToBytes, Splice, RingIndex;
    RequestOnDevice(b, q, sector);
    RequestInMemory(b', q', sector, after');
    SpliceInside(b.virtio.disk, DiskOffset(sector), Bytes(b, q.buffer.addr, q.buffer.len));
  }

  // ---------------------------------------------------------------------------
  // Counting requests

  lemma {:induction false} CopyToDiskKeepsId(b: Bus, src: Addr, dst: Addr, i: nat, n: nat)
    requires i <= n && CopyToDisk(b, src, dst, i, n).Ok?
    ensures CopyToDisk(b, src, dst, i, n).value.virtio.id == b.virtio.id
    decreases n - i
  {
    hide BusRead, Low8, At;
    if i < n {
      var d := At(dst, i);
      var data := BusRead(b, At(src, i), Byte).value;
      CopyToDiskKeepsId(b.(virtio := b.virtio.(disk := b.virtio.disk[d := Low8(data)])), src, dst, i + 1, n);
    }
  }

  lemma {:induction false} CopyToMemoryKeepsId(b: Bus, src: Addr, dst: Addr, i: nat, n: nat)
    requires i <= n && CopyToMemory(b, src, dst, i, n).Ok?
    ensures CopyToMemory(b, src, dst, i, n).value.virtio.id == b.virtio.id
    decreases n - i
  {
    hide BusWrite, At;
    if i < n {
      var x := b.virtio.disk[At(src, i)] as bv64;
      WriteKeepsShape(b, At(dst, i), x, Byte);
      CopyToMemoryKeepsId(Put(b, At(dst, i), x, Byte).value, src, dst, i + 1, n);
    }
  }

  lemma TransferKeepsId(b: Bus, q: Request)
    requires Transfer(b, q).Ok?
    ensures Transfer(b, q).value.virtio.id == b.virtio.id
  {
    hide BusWrite, ReadAddr, At, DiskOffset, CopyToDisk, CopyToMemory;
    WriteKeepsShape(b, q.status, 0, Byte);
    var b1 := Put(b, q.status, 0, Byte).value;
    var off := DiskOffset(ReadAddr(b1, At(q.header, 8), DoubleWord).value);
    if q.buffer.toMemory {
      CopyToMemoryKeepsId(b1, off, q.buffer.addr, 0, q.buffer.len);
    } else {
      CopyToDiskKeepsId(b1, q.buffer.addr, off, 0, q.buffer.len);
    }
  }

  /** The used index in memory. */
  function UsedIndex(b: Bus, queue: Addr): Outcome<bv64> { BusRead(b, UsedAddr(queue), HalfWord) }

  /** A successful access takes the next id and reports it in the used ring. */
  lemma AccessCounts(b: Bus)
    requires DiskAccess(b).Ok?
    ensures DiskAccess(b).value.virtio.id == At(b.virtio.id, 1)
    ensures InMemory(b, UsedAddr(DescAddr(b.virtio)), 2) ==>
              UsedIndex(DiskAccess(b).value, DescAddr(b.virtio)) == Ok(RingIndex(At(b.virtio.id, 1)))
  {
    hide ReadRequest, Transfer, BusWrite, BusRead, UsedAddr, DescAddr, At, RingIndex, Asserted;
    var q := ReadRequest(Notified(b)).value;
    var b2 := Transfer(Notified(b), q).value;
    var queue, id := DescAddr(b.virtio), At(b.virtio.id, 1);
    TransferKeepsId(Notified(b), q);
    TransferKeepsSize(Notified(b), q);
    var b3 := b2.(virtio := b2.virtio.(id := id));
    WriteKeepsShape(b3, UsedAddr(queue), RingIndex(id), HalfWord);
    if InMemory(b, UsedAddr(queue), 2) {
      StoreIsReadBack(b3, UsedAddr(queue), RingIndex(id), HalfWord);
      RingIndexFits(id);
    }
  }

  lemma RingIndexFits(id: Addr)
    ensures RingIndex(id) & HalfWord.Mask() == RingIndex(id)
  {
    SmallFits(RingIndex(id));
  }

  lemma SmallFits(v: bv64)
    requires v < 8
    ensures v & 0xffff == v
  {
  }

  lemma {:induction false} CopyToMemoryKeepsSize(b: Bus, src: Addr, dst: Addr, i: nat, n: nat)
    requires i <= n && CopyToMemory(b, src, dst, i, n).Ok?
    ensures |CopyToMemory(b, src, dst, i, n).value.dram| == |b.dram|
    decreases n - i
  {
    hide BusWrite, At;
    if i < n {
      var x := b.virtio.disk[At(src, i)] as bv64;
      WriteKeepsShape(b, At(dst, i), x, Byte);
      CopyToMemoryKeepsSize(Put(b, At(dst, i), x, Byte).value, src, dst, i + 1, n);
    }
  }

  lemma {:induction false} CopyToDiskKeepsDram(b: Bus, src: Addr, dst: Addr, i: nat, n: nat)
    requires i <= n && CopyToDisk(b, src, dst, i, n).Ok?
    ensures CopyToDisk(b, src, dst, i, n).value.dram == b.dram
    decreases n - i
  {
    hide BusRead, Low8, At;
    if i < n {
      var d := At(dst, i);
      var data := BusRead(b, At(src, i), Byte).value;
      CopyToDiskKeepsDram(b.(virtio := b.virtio.(disk := b.virtio.disk[d := Low8(data)])), src, dst, i + 1, n);
    }
  }

  lemma TransferKeepsSize(b: Bus, q: Request)
    requires Transfer(b, q).Ok?
    ensures |Transfer(b, q).value.dram| == |b.dram|
  {
    hide BusWrite, ReadAddr, At, DiskOffset, CopyToDisk, CopyToMemory;
    WriteKeepsShape(b, q.status, 0, Byte);
    var b1 := Put(b, q.status, 0, Byte).value;
    var off := DiskOffset(ReadAddr(b1, At(q.header, 8), DoubleWord).value);
    if q.buffer.toMemory {
      CopyToMemoryKeepsSize(b1, off, q.buffer.addr, 0, q.buffer.len);
    } else {
      CopyToDiskKeepsDram(b1, q.buffer.addr, off, 0, q.buffer.len);
    }
  }

  /** Successful accesses one after another, with anything in between that leaves the id alone. */
  ghost predicate IsHistory(first: Addr, bs: seq<Bus>) {
    && (forall i | 0 <= i < |bs| :: DiskAccess(bs[i]).Ok?)
    && (|bs| > 0 ==> bs[0].virtio.id == first)
    && (forall i | 0 < i < |bs| :: bs[i].virtio.id == DiskAccess(bs[i - 1]).value.virtio.id)
  }

  /** After `n` accesses from a new device the id is `n`, wrapped at 64 bits, and the used index just
      written is `n` modulo the queue size. */
  lemma {:induction false} AccessesAreCounted(bs: seq<Bus>)
    requires IsHistory(0, bs) && |bs| > 0
    ensures var last := bs[|bs| - 1]; var after := DiskAccess(last).value;
            && after.virtio.id == |bs| % TWO64
            && (InMemory(last, UsedAddr(DescAddr(last.virtio)), 2) ==>
                  UsedIndex(after, DescAddr(last.virtio)) == Ok((|bs| % QUEUE_SIZE) as bv64))
    decreases |bs|
  {
    hide DiskAccess, UsedIndex, UsedAddr, DescAddr, InMemory;
    var n := |bs|;
    AccessCounts(bs[n - 1]);
    if n > 1 {
      AccessesAreCounted(bs[..n - 1]);
      NextCount(n - 1);
    }
  }

  lemma NextCount(k: nat)
    ensures At(k % TWO64, 1) == (k + 1) % TWO64 && ((k + 1) % TWO64) % QUEUE_SIZE == (k + 1) % QUEUE_SIZE
  {
    Alu.ModPeriod(k + 1, -(k / TWO64), TWO64);
    var q := (k + 1) / TWO64;
    Alu.ModPeriod(k + 1, -q * (TWO64 / QUEUE_SIZE), QUEUE_SIZE);
  }
}
