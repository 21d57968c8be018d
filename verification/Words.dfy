/** Fixed-width words: the casts and shifts of the emulator's u64 arithmetic. */
module Words {
  const TWO64 := 0x1_0000_0000_0000_0000

  // The operations are named, so that proofs can hide them and reason by congruence.
  function Add(a: bv64, b: bv64): bv64 { a + b }
  function Sub(a: bv64, b: bv64): bv64 { a - b }
  function And(a: bv64, b: bv64): bv64 { a & b }
  function Or(a: bv64, b: bv64): bv64 { a | b }
  function Xor(a: bv64, b: bv64): bv64 { a ^ b }
  function Shl(w: bv64, n: bv6): bv64 { w << n }
  function Shr(w: bv64, n: bv6): bv64 { w >> n }

  // `v as i8 as i64 as u64`
  function Sext8(v: bv64): bv64 {
    if v & 0x80 != 0 then v | 0xffff_ffff_ffff_ff00 else v & 0xff
  }

  // `v as i16 as i64 as u64`
  function Sext16(v: bv64): bv64 {
    if v & 0x8000 != 0 then v | 0xffff_ffff_ffff_0000 else v & 0xffff
  }

  // `v as i32 as i64 as u64`
  function Sext32(v: bv64): bv64 {
    if v & 0x8000_0000 != 0 then v | 0xffff_ffff_0000_0000 else v & 0xffff_ffff
  }

  // `v as u32 as u64`
  function Zext32(v: bv64): bv64 { v & 0xffff_ffff }

  // The shift counts taken from the low bits of a word.
  function Low6(v: bv64): bv6 { (v & 0x3f) as bv6 }
  function Low5(v: bv64): bv6 { (v & 0x1f) as bv6 }

  // `(v as i64 >> n) as u64`
  function Asr(v: bv64, n: bv6): bv64 {
    (v >> n) | (if v & 0x8000_0000_0000_0000 != 0 then !(0xffff_ffff_ffff_ffff >> n) else 0)
  }

  predicate Below(a: bv64, b: bv64) { a < b }

  predicate IsNegative(v: bv64) { v & 0x8000_0000_0000_0000 != 0 }

  // `(a as i64) < (b as i64)`
  predicate SignedLess(a: bv64, b: bv64) {
    if IsNegative(a) == IsNegative(b) then Below(a, b) else IsNegative(a)
  }

  lemma ZeroAdd(v: bv64)
    ensures Add(0, v) == v
  {
  }

  lemma AddZero(v: bv64)
    ensures Add(v, 0) == v
  {
  }

  lemma BackTwo(v: bv64)
    ensures Sub(Add(v, 2), 2) == v
  {
  }

  lemma BackFour(v: bv64)
    ensures Sub(Add(v, 4), 4) == v
  {
  }
}
