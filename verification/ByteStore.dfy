/** Little-endian loads and stores over a sequence of bytes. */
module ByteStore {
  import opened Types

  /** The value of a byte string, least significant byte first. */
  function LittleEndian(bs: seq<bv8>): bv64 {
    if bs == [] then 0 else (bs[0] as bv64) | (LittleEndian(bs[1..]) << 8)
  }

  /** The low `n` bytes of a word, least significant byte first. */
  function ToBytes(v: bv64, n: nat): (bs: seq<bv8>)
    ensures |bs| == n
  {
    if n == 0 then [] else [(v & 0xff) as bv8] + ToBytes(v >> 8, n - 1)
  }

  function LowMask(n: nat): bv64 {
    if n == 0 then 0 else 0xff | (LowMask(n - 1) << 8)
  }

  function LoadBytes(d: seq<bv8>, i: nat, size: Size): bv64
    requires i + size.Bytes() <= |d|
  {
    LittleEndian(d[i..i + size.Bytes()])
  }

  /** The bytes from index `i` on replaced by `bs`. */
  function Splice(d: seq<bv8>, i: nat, bs: seq<bv8>): (r: seq<bv8>)
    requires i + |bs| <= |d|
    ensures |r| == |d|
    ensures forall k | 0 <= k < |d| :: r[k] == if i <= k < i + |bs| then bs[k - i] else d[k]
  {
    d[..i] + bs + d[i + |bs|..]
  }

  lemma SpliceInside(d: seq<bv8>, i: nat, bs: seq<bv8>)
    requires i + |bs| <= |d|
    ensures Splice(d, i, bs)[i..i + |bs|] == bs
  {
  }

  lemma SpliceOutside(d: seq<bv8>, i: nat, bs: seq<bv8>, j: nat, n: nat)
    requires i + |bs| <= |d| && j + n <= |d| && (j + n <= i || i + |bs| <= j)
    ensures Splice(d, i, bs)[j..j + n] == d[j..j + n]
  {
    hide Splice;
  }

  lemma SpliceSelf(d: seq<bv8>, i: nat, n: nat)
    requires i + n <= |d|
    ensures Splice(d, i, d[i..i + n]) == d
  {
  }

  lemma SpliceTwice(d: seq<bv8>, i: nat, a: seq<bv8>, b: seq<bv8>)
    requires i + |a| + |b| <= |d|
    ensures Splice(Splice(d, i, a), i + |a|, b) == Splice(d, i, a + b)
  {
  }

  function StoreBytes(d: seq<bv8>, i: nat, v: bv64, size: Size): (r: seq<bv8>)
    requires i + size.Bytes() <= |d|
    ensures |r| == |d|
  {
    Splice(d, i, ToBytes(v, size.Bytes()))
  }

  // The steps of the round trip, named so that the recursion can be followed without looking at bits.
  function CutBy(v: bv64, mask: bv64): bv64 { v & mask }

  function Prepend(x: bv8, t: bv64): bv64 { (x as bv64) | (t << 8) }

  function GrowMask(m: bv64): bv64 { 0xff | (m << 8) }

  function FirstByte(v: bv64): bv8 { (v & 0xff) as bv8 }

  function Shift8(v: bv64): bv64 { v >> 8 }

  lemma PrependCut(v: bv64, m: bv64)
    ensures Prepend(FirstByte(v), CutBy(Shift8(v), m)) == CutBy(v, GrowMask(m))
  {
    var t, x, g := CutBy(Shift8(v), m), FirstByte(v), GrowMask(m);
    PrependBits(v, m, t, x, g);
  }

  lemma PrependBits(v: bv64, m: bv64, t: bv64, x: bv8, g: bv64)
    requires t == (v >> 8) & m && x == (v & 0xff) as bv8 && g == 0xff | (m << 8)
    ensures (x as bv64) | (t << 8) == v & g
  {
  }

  lemma CutByNothing(v: bv64)
    ensures CutBy(v, 0) == 0
  {
  }

  lemma ToBytesUnfold(v: bv64, n: nat)
    requires n > 0
    ensures ToBytes(v, n) == [FirstByte(v)] + ToBytes(Shift8(v), n - 1)
  {
  }

  lemma LittleEndianUnfold(bs: seq<bv8>)
    requires bs != []
    ensures LittleEndian(bs) == Prepend(bs[0], LittleEndian(bs[1..]))
  {
  }

  lemma LowMaskUnfold(n: nat)
    requires n > 0
    ensures LowMask(n) == GrowMask(LowMask(n - 1))
  {
  }

  lemma {:induction false} BytesRoundTripCut(v: bv64, n: nat)
    ensures LittleEndian(ToBytes(v, n)) == CutBy(v, LowMask(n))
    decreases n
  {
    hide CutBy, Prepend, GrowMask, FirstByte, Shift8;
    if n > 0 {
      hide ToBytes, LittleEndian, LowMask;
      BytesRoundTripCut(Shift8(v), n - 1);
      ToBytesUnfold(v, n);
      LittleEndianUnfold(ToBytes(v, n));
      assert ToBytes(v, n)[1..] == ToBytes(Shift8(v), n - 1);
      LowMaskUnfold(n);
      PrependCut(v, LowMask(n - 1));
    } else {
      CutByNothing(v);
    }
  }

  /** The bytes of a word give back the word, cut to their number. */
  lemma BytesRoundTrip(v: bv64, n: nat)
    ensures LittleEndian(ToBytes(v, n)) == v & LowMask(n)
  {
    hide LittleEndian, ToBytes, LowMask;
    BytesRoundTripCut(v, n);
  }

  lemma MaskOfSize(size: Size)
    ensures LowMask(size.Bytes()) == size.Mask()
  {
    assert LowMask(2) == 0xffff && LowMask(4) == 0xffff_ffff;
    assert LowMask(6) == 0xffff_ffff_ffff && LowMask(8) == 0xffff_ffff_ffff_ffff;
  }

  /** A store is read back, cut to its size. */
  lemma LoadStoreSame(d: seq<bv8>, i: nat, v: bv64, size: Size)
    requires i + size.Bytes() <= |d|
    ensures LoadBytes(StoreBytes(d, i, v, size), i, size) == v & size.Mask()
  {
    assert StoreBytes(d, i, v, size)[i..i + size.Bytes()] == ToBytes(v, size.Bytes());
    BytesRoundTrip(v, size.Bytes());
    MaskOfSize(size);
  }

  /** A store outside the bytes of a load does not change what it reads. */
  lemma LoadStoreDisjoint(d: seq<bv8>, i: nat, v: bv64, size: Size, j: nat, other: Size)
    requires i + size.Bytes() <= |d| && j + other.Bytes() <= |d|
    requires j + other.Bytes() <= i || i + size.Bytes() <= j
    ensures LoadBytes(StoreBytes(d, i, v, size), j, other) == LoadBytes(d, j, other)
  {
    hide LittleEndian, ToBytes;
    var r := StoreBytes(d, i, v, size);
    var n := other.Bytes();
    var s, t := r[j..j + n], d[j..j + n];
    forall k | 0 <= k < n
      ensures s[k] == t[k]
    {
      assert s[k] == r[j + k] && t[k] == d[j + k];
    }
    assert s == t;
  }

  // ---------------------------------------------------------------------------
  // The source's own forms of the four sizes

  /** The byte that starts at bit `k`. */
  function ByteOf(v: bv64, k: bv64): bv8
    requires k < 64
  {
    ((v >> k) & 0xff) as bv8
  }

  lemma BytesUnroll(v: bv64, n: nat)
    requires n > 0
    ensures ToBytes(v, n) == [ByteOf(v, 0)] + ToBytes(Shift8(v), n - 1)
  {
  }

  lemma NextByte0(v: bv64)
    ensures ByteOf(Shift8(v), 0) == ByteOf(v, 8)
  {
  }

  lemma NextByte1(v: bv64)
    ensures ByteOf(Shift8(v), 8) == ByteOf(v, 16)
  {
  }

  lemma NextByte2(v: bv64)
    ensures ByteOf(Shift8(v), 16) == ByteOf(v, 24)
  {
  }

  lemma NextByte3(v: bv64)
    ensures ByteOf(Shift8(v), 24) == ByteOf(v, 32)
  {
  }

  lemma NextByte4(v: bv64)
    ensures ByteOf(Shift8(v), 32) == ByteOf(v, 40)
  {
  }

  lemma NextByte5(v: bv64)
    ensures ByteOf(Shift8(v), 40) == ByteOf(v, 48)
  {
  }

  lemma NextByte6(v: bv64)
    ensures ByteOf(Shift8(v), 48) == ByteOf(v, 56)
  {
  }

  lemma BytesOf1(v: bv64)
    ensures ToBytes(v, 1) == [ByteOf(v, 0)]
  {
    hide ByteOf, Shift8;
    BytesUnroll(v, 1);
  }

  lemma BytesOf2(v: bv64)
    ensures ToBytes(v, 2) == [ByteOf(v, 0), ByteOf(v, 8)]
  {
    hide ByteOf, Shift8, ToBytes;
    BytesUnroll(v, 2);
    BytesOf1(Shift8(v));
    NextByte0(v);
  }

  lemma BytesOf3(v: bv64)
    ensures ToBytes(v, 3) == [ByteOf(v, 0), ByteOf(v, 8), ByteOf(v, 16)]
  {
    hide ByteOf, Shift8, ToBytes;
    BytesUnroll(v, 3);
    BytesOf2(Shift8(v));
    NextByte0(v);
    NextByte1(v);
  }

  lemma BytesOf4(v: bv64)
    ensures ToBytes(v, 4) == [ByteOf(v, 0), ByteOf(v, 8), ByteOf(v, 16), ByteOf(v, 24)]
  {
    hide ByteOf, Shift8, ToBytes;
    BytesUnroll(v, 4);
    BytesOf3(Shift8(v));
    NextByte0(v);
    NextByte1(v);
    NextByte2(v);
  }

  lemma BytesOf5(v: bv64)
    ensures ToBytes(v, 5) == [ByteOf(v, 0), ByteOf(v, 8), ByteOf(v, 16), ByteOf(v, 24), ByteOf(v, 32)]
  {
    hide ByteOf, Shift8, ToBytes;
    BytesUnroll(v, 5);
    BytesOf4(Shift8(v));
    NextByte0(v);
    NextByte1(v);
    NextByte2(v);
    NextByte3(v);
  }

  lemma BytesOf6(v: bv64)
    ensures ToBytes(v, 6) == [ByteOf(v, 0), ByteOf(v, 8), ByteOf(v, 16), ByteOf(v, 24), ByteOf(v, 32), ByteOf(v, 40)]
  {
    hide ByteOf, Shift8, ToBytes;
    BytesUnroll(v, 6);
    BytesOf5(Shift8(v));
    NextByte0(v);
    NextByte1(v);
    NextByte2(v);
    NextByte3(v);
    NextByte4(v);
  }

  lemma BytesOf7(v: bv64)
    ensures ToBytes(v, 7)
            == [ByteOf(v, 0), ByteOf(v, 8), ByteOf(v, 16), ByteOf(v, 24),
                ByteOf(v, 32), ByteOf(v, 40), ByteOf(v, 48)]
  {
    hide ByteOf, Shift8, ToBytes;
    BytesUnroll(v, 7);
    BytesOf6(Shift8(v));
    NextByte0(v);
    NextByte1(v);
    NextByte2(v);
    NextByte3(v);
    NextByte4(v);
    NextByte5(v);
  }

  lemma BytesOf8(v: bv64)
    ensures ToBytes(v, 8)
            == [ByteOf(v, 0), ByteOf(v, 8), ByteOf(v, 16), ByteOf(v, 24),
                ByteOf(v, 32), ByteOf(v, 40), ByteOf(v, 48), ByteOf(v, 56)]
  {
    hide ByteOf, Shift8, ToBytes;
    BytesUnroll(v, 8);
    BytesOf7(Shift8(v));
    NextByte0(v);
    NextByte1(v);
    NextByte2(v);
    NextByte3(v);
    NextByte4(v);
    NextByte5(v);
    NextByte6(v);
  }

  lemma PeelByte(bs: seq<bv8>)
    requires bs != []
    ensures LittleEndian(bs) == (bs[0] as bv64) | (LittleEndian(bs[1..]) << 8)
  {
  }

  lemma LoadForm1(bs: seq<bv8>)
    requires |bs| == 1
    ensures LittleEndian(bs) == bs[0] as bv64
  {
    assert LittleEndian(bs[1..]) == 0;
  }

  function Flat2(bs: seq<bv8>): bv64
    requires |bs| == 2
  {
    (bs[0] as bv64) | ((bs[1] as bv64) << 8)
  }

  function Flat4(bs: seq<bv8>): bv64
    requires |bs| == 4
  {
    (bs[0] as bv64) | ((bs[1] as bv64) << 8) | ((bs[2] as bv64) << 16) | ((bs[3] as bv64) << 24)
  }

  function Flat8(bs: seq<bv8>): bv64
    requires |bs| == 8
  {
    (bs[0] as bv64) | ((bs[1] as bv64) << 8) | ((bs[2] as bv64) << 16) | ((bs[3] as bv64) << 24)
    | ((bs[4] as bv64) << 32) | ((bs[5] as bv64) << 40) | ((bs[6] as bv64) << 48) | ((bs[7] as bv64) << 56)
  }

  lemma LoadForm2(bs: seq<bv8>)
    requires |bs| == 2
    ensures LittleEndian(bs) == Flat2(bs)
  {
    hide LittleEndian;
    PeelByte(bs);
    LoadForm1(bs[1..]);
  }

  lemma Double2(a: seq<bv8>, b: seq<bv8>, bs: seq<bv8>)
    requires |a| == |b| == 2 && bs == a + b
    ensures Flat4(bs) == Flat2(a) | (Flat2(b) << 16)
  {
  }

  lemma Double4(a: seq<bv8>, b: seq<bv8>, bs: seq<bv8>)
    requires |a| == |b| == 4 && bs == a + b
    ensures Flat8(bs) == Flat4(a) | (Flat4(b) << 32)
  {
  }

  lemma SplitTwo(bs: seq<bv8>, tail: bv64)
    requires |bs| >= 2 && tail == LittleEndian(bs[2..])
    ensures LittleEndian(bs) == Flat2(bs[..2]) | (tail << 16)
  {
    PeelByte(bs);
    PeelByte(bs[1..]);
    assert bs[1..][1..] == bs[2..];
  }

  lemma LoadForm4(bs: seq<bv8>)
    requires |bs| == 4
    ensures LittleEndian(bs) == Flat4(bs)
  {
    hide LittleEndian;
    SplitTwo(bs, LittleEndian(bs[2..]));
    LoadForm2(bs[2..]);
    assert bs == bs[..2] + bs[2..];
    Double2(bs[..2], bs[2..], bs);
  }

  lemma SplitFour(bs: seq<bv8>, tail: bv64)
    requires |bs| >= 4 && tail == LittleEndian(bs[4..])
    ensures LittleEndian(bs) == Flat4(bs[..4]) | (tail << 32)
  {
    hide LittleEndian, Flat2, Flat4;
    var x, y, middle := Flat2(bs[..2]), Flat2(bs[2..][..2]), LittleEndian(bs[2..]);
    var whole, low := LittleEndian(bs), Flat4(bs[..4]);
    assert bs[2..][2..] == bs[4..] && bs[..4] == bs[..2] + bs[2..][..2];
    SplitTwoNamed(bs, x, middle, whole);
    SplitTwoNamed(bs[2..], y, tail, middle);
    Double2Named(bs[..2], bs[2..][..2], bs[..4], x, y, low);
    JoinFour(x, y, tail, middle, whole, low);
  }

  lemma SplitTwoNamed(bs: seq<bv8>, head: bv64, tail: bv64, whole: bv64)
    requires |bs| >= 2 && head == Flat2(bs[..2]) && tail == LittleEndian(bs[2..]) && whole == LittleEndian(bs)
    ensures whole == head | (tail << 16)
  {
    hide LittleEndian, Flat2;
    SplitTwo(bs, tail);
  }

  lemma Double2Named(a: seq<bv8>, b: seq<bv8>, bs: seq<bv8>, x: bv64, y: bv64, low: bv64)
    requires |a| == |b| == 2 && bs == a + b && x == Flat2(a) && y == Flat2(b) && low == Flat4(bs)
    ensures low == x | (y << 16)
  {
    hide Flat2, Flat4;
    Double2(a, b, bs);
  }

  lemma JoinFour(x: bv64, y: bv64, tail: bv64, middle: bv64, whole: bv64, low: bv64)
    requires whole == x | (middle << 16) && middle == y | (tail << 16) && low == x | (y << 16)
    ensures whole == low | (tail << 32)
  {
  }

  lemma LoadForm8(bs: seq<bv8>)
    requires |bs| == 8
    ensures LittleEndian(bs) == Flat8(bs)
  {
    hide LittleEndian, Flat4, Flat8;
    SplitFour(bs, LittleEndian(bs[4..]));
    LoadForm4(bs[4..]);
    assert bs == bs[..4] + bs[4..];
    Double4(bs[..4], bs[4..], bs);
  }
}
