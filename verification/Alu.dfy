/** Register-register and register-immediate arithmetic of RV64I and RV64M. */
module Alu {
  import opened Types
  import opened Words

  const TWO31 := 0x8000_0000
  const TWO32 := 0x1_0000_0000
  const TWO63 := 0x8000_0000_0000_0000
  const TWO128 := 0x1_0000_0000_0000_0000_0000_0000_0000_0000

  // ---------------------------------------------------------------------------
  // Words as integers

  /** A register as an unsigned number. */
  function U(v: bv64): (n: int)
    ensures 0 <= n < TWO64
  {
    v as int
  }

  /** The two's-complement reading of a number below 2^64. */
  function Signed64(n: int): int { if n >= TWO63 then n - TWO64 else n }

  /** A register as a signed number. */
  function S(v: bv64): int { Signed64(U(v)) }

  /** The low 64 bits of a number. */
  function Wrap(n: int): bv64 { (n % TWO64) as bv64 }

  /** The low half of a register as an unsigned and as a signed number. */
  function U32(v: bv64): int { U(v) % TWO32 }
  function Signed32(n: int): int { if n >= TWO31 then n - TWO32 else n }
  function S32(v: bv64): int { Signed32(U32(v)) }

  /** A 32-bit result, sign-extended into a register. */
  function Wrap32(n: int): bv64 { Wrap(Signed32(n % TWO32)) }

  // ---------------------------------------------------------------------------
  // RV64M

  function Mul(a: bv64, b: bv64): bv64 { Wrap(S(a) * S(b)) }

  function Mulh(a: bv64, b: bv64): bv64 { Wrap(S(a) * S(b) / TWO64) }

  /** The signed operand is widened to 128 bits and the product wraps there. */
  function Mulhsu(a: bv64, b: bv64): bv64 { Wrap(((S(a) % TWO128) * U(b)) % TWO128 / TWO64) }

  function Mulhu(a: bv64, b: bv64): bv64 { Wrap(U(a) * U(b) / TWO64) }

  function Abs(n: int): int { if n < 0 then -n else n }

  /** Division towards zero, as in Rust. */
  function Quot(a: int, b: int): int
    requires b != 0
  {
    if (a < 0) == (b < 0) then Abs(a) / Abs(b) else -(Abs(a) / Abs(b))
  }

  function Rem(a: int, b: int): int
    requires b != 0
  {
    if a >= 0 then Abs(a) % Abs(b) else -(Abs(a) % Abs(b))
  }

  function Div(a: bv64, b: bv64): bv64 {
    if S(b) == 0 then Wrap(-1) else if S(a) == -TWO63 && S(b) == -1 then a else Wrap(Quot(S(a), S(b)))
  }

  function Divu(a: bv64, b: bv64): bv64 {
    if U(b) == 0 then Wrap(-1) else Wrap(U(a) / U(b))
  }

  function Remainder(a: bv64, b: bv64): bv64 {
    if S(b) == 0 then a else if S(a) == -TWO63 && S(b) == -1 then Wrap(0) else Wrap(Rem(S(a), S(b)))
  }

  function Remu(a: bv64, b: bv64): bv64 {
    if U(b) == 0 then a else Wrap(U(a) % U(b))
  }

  function Divw(a: bv64, b: bv64): bv64 {
    if S32(b) == 0 then Wrap(-1)
    else if S32(a) == -TWO31 && S32(b) == -1 then Wrap(S32(a))
    else Wrap32(Quot(S32(a), S32(b)))
  }

  function Divuw(a: bv64, b: bv64): bv64 {
    if U32(b) == 0 then Wrap(-1) else Wrap32(U32(a) / U32(b))
  }

  /** A remainder by zero gives back the whole register, not its low half. */
  function Remw(a: bv64, b: bv64): bv64 {
    if S32(b) == 0 then a else if S32(a) == -TWO31 && S32(b) == -1 then Wrap(0) else Wrap32(Rem(S32(a), S32(b)))
  }

  function Remuw(a: bv64, b: bv64): bv64 {
    if U32(b) == 0 then a else Wrap32(U32(a) % U32(b))
  }

  // ---------------------------------------------------------------------------
  // Instruction tables

  function Flag(b: bool): bv64 { if b then 1 else 0 }

  /** OP: register-register on 64 bits. */
  function Op(f3: bv64, f7: bv64, a: bv64, b: bv64): Outcome<bv64> {
    if f7 == 0x00 then
      if f3 == 0 then Ok(Add(a, b))
      else if f3 == 1 then Ok(Shl(a, Low6(b)))
      else if f3 == 2 then Ok(Flag(SignedLess(a, b)))
      else if f3 == 3 then Ok(Flag(Below(a, b)))
      else if f3 == 4 then Ok(Xor(a, b))
      else if f3 == 5 then Ok(Shr(a, Low6(b)))
      else if f3 == 6 then Ok(Or(a, b))
      else Ok(And(a, b))
    else if f7 == 0x01 then
      if f3 == 0 then Ok(Mul(a, b))
      else if f3 == 1 then Ok(Mulh(a, b))
      else if f3 == 2 then Ok(Mulhsu(a, b))
      else if f3 == 3 then Ok(Mulhu(a, b))
      else if f3 == 4 then Ok(Div(a, b))
      else if f3 == 5 then Ok(Divu(a, b))
      else if f3 == 6 then Ok(Remainder(a, b))
      else Ok(Remu(a, b))
    else if f7 == 0x20 && f3 == 0 then Ok(Sub(a, b))
    else if f7 == 0x20 && f3 == 5 then Ok(Asr(a, Low6(b)))
    else Err(IllegalInstruction)
  }

  /** OP-32: register-register on the low 32 bits. */
  function Op32(f3: bv64, f7: bv64, a: bv64, b: bv64): Outcome<bv64> {
    if f7 == 0x00 then
      if f3 == 0 then Ok(Sext32(Add(a, b)))
      else if f3 == 1 then Ok(Sext32(Shl(a, Low5(b))))
      else if f3 == 5 then Ok(Sext32(Shr(Zext32(a), Low5(b))))
      else Err(IllegalInstruction)
    else if f7 == 0x01 then
      if f3 == 0 then Ok(Wrap32(S32(a) * S32(b)))
      else if f3 == 4 then Ok(Divw(a, b))
      else if f3 == 5 then Ok(Divuw(a, b))
      else if f3 == 6 then Ok(Remw(a, b))
      else if f3 == 7 then Ok(Remuw(a, b))
      else Err(IllegalInstruction)
    else if f7 == 0x20 && f3 == 0 then Ok(Sext32(Sub(a, b)))
    else if f7 == 0x20 && f3 == 5 then Ok(Asr(Sext32(a), Low5(b)))
    else Err(IllegalInstruction)
  }

  /** OP-IMM; a shift takes its amount and its kind from the immediate. */
  function OpImm(f3: bv64, f6: bv64, a: bv64, imm: bv64, shamt: bv6): Outcome<bv64> {
    if f3 == 0 then Ok(Add(a, imm))
    else if f3 == 1 then Ok(Shl(a, shamt))
    else if f3 == 2 then Ok(Flag(SignedLess(a, imm)))
    else if f3 == 3 then Ok(Flag(Below(a, imm)))
    else if f3 == 4 then Ok(Xor(a, imm))
    else if f3 == 5 then
      if f6 == 0x00 then Ok(Shr(a, shamt)) else if f6 == 0x10 then Ok(Asr(a, shamt)) else Err(IllegalInstruction)
    else if f3 == 6 then Ok(Or(a, imm))
    else Ok(And(a, imm))
  }

  /** OP-IMM-32. */
  function OpImm32(f3: bv64, f7: bv64, a: bv64, imm: bv64, shamt: bv6): Outcome<bv64> {
    if f3 == 0 then Ok(Sext32(Add(a, imm)))
    else if f3 == 1 then Ok(Sext32(Shl(a, shamt)))
    else if f3 == 5 && f7 == 0x00 then Ok(Sext32(Shr(Zext32(a), shamt)))
    else if f3 == 5 && f7 == 0x20 then Ok(Asr(Sext32(a), shamt))
    else Err(IllegalInstruction)
  }

  predicate Divides(f3: bv64, f7: bv64) { f7 == 0x01 && (f3 == 4 || f3 == 5) }

  /** BRANCH: whether a conditional branch is taken. */
  function Taken(f3: bv64, a: bv64, b: bv64): Outcome<bool> {
    if f3 == 0 then Ok(a == b)
    else if f3 == 1 then Ok(a != b)
    else if f3 == 4 then Ok(SignedLess(a, b))
    else if f3 == 5 then Ok(!SignedLess(a, b))
    else if f3 == 6 then Ok(Below(a, b))
    else if f3 == 7 then Ok(!Below(a, b))
    else Err(IllegalInstruction)
  }

  /** AMO: the word that an atomic operation stores, from the old word and the operand. */
  function AmoWord(f5: bv64, t: bv64, b: bv64): Outcome<bv64> {
    if f5 == 0x00 then Ok(t + b)
    else if f5 == 0x01 then Ok(b)
    else if f5 == 0x04 then Ok(Sext32(t ^ b))
    else if f5 == 0x08 then Ok(Sext32(t | b))
    else if f5 == 0x0c then Ok(Zext32(t & b))
    else if f5 == 0x10 then Ok(if SignedLess(Sext32(b), Sext32(t)) then Sext32(b) else Sext32(t))
    else if f5 == 0x14 then Ok(if SignedLess(Sext32(b), Sext32(t)) then Sext32(t) else Sext32(b))
    else if f5 == 0x18 then Ok(if Below(Zext32(b), Zext32(t)) then Zext32(b) else Zext32(t))
    else if f5 == 0x1c then Ok(if Below(Zext32(b), Zext32(t)) then Zext32(t) else Zext32(b))
    else Err(IllegalInstruction)
  }

  function AmoDouble(f5: bv64, t: bv64, b: bv64): Outcome<bv64> {
    if f5 == 0x00 then Ok(t + b)
    else if f5 == 0x01 then Ok(b)
    else if f5 == 0x04 then Ok(t ^ b)
    else if f5 == 0x08 then Ok(t | b)
    else if f5 == 0x0c then Ok(t & b)
    else if f5 == 0x10 then Ok(if SignedLess(b, t) then b else t)
    else if f5 == 0x14 then Ok(if SignedLess(b, t) then t else b)
    else if f5 == 0x18 then Ok(if Below(b, t) then b else t)
    else if f5 == 0x1c then Ok(if Below(b, t) then t else b)
    else Err(IllegalInstruction)
  }

  // ---------------------------------------------------------------------------
  // Every number below 2^64 is a word: built bit by bit.

  lemma AppendBit(bit: bv1, w: bv64)
    requires w & 0x8000_0000_0000_0000 == 0
    ensures ((bit as bv64) | (w << 1)) as int == (bit as int) + 2 * (w as int)
  {
  }

  lemma TopBitClear(w: bv64)
    requires w as int < TWO63
    ensures w & 0x8000_0000_0000_0000 == 0
  {
  }

  lemma WordFromNumber(v: bv64)
    ensures (v as int) as bv64 == v
  {
  }

  lemma {:induction false} WordExists(k: int) returns (w: bv64)
    requires 0 <= k < TWO64
    ensures w as int == k
  {
    if k == 0 {
      w := 0;
    } else {
      var high := WordExists(k / 2);
      var bit: bv1 := if k % 2 == 0 then 0 else 1;
      TopBitClear(high);
      AppendBit(bit, high);
      w := (bit as bv64) | (high << 1);
    }
  }

  /** A number survives the trip through a word. */
  lemma NumberFromWord(k: int)
    requires 0 <= k < TWO64
    ensures (k as bv64) as int == k
  {
    var w := WordExists(k);
    WordFromNumber(w);
  }

  lemma UWrap(n: int)
    ensures U(Wrap(n)) == n % TWO64
  {
    NumberFromWord(n % TWO64);
  }

  lemma UInjective(v: bv64, w: bv64)
    requires U(v) == U(w)
    ensures v == w
  {
    WordFromNumber(v);
    WordFromNumber(w);
  }

  // ---------------------------------------------------------------------------
  // Multiplication

  /** The two halves of a signed 128-bit number, joined. */
  lemma JoinSigned(n: int)
    requires -TWO63 * TWO64 <= n < TWO63 * TWO64
    ensures S(Wrap(n / TWO64)) * TWO64 + U(Wrap(n)) == n
  {
    hide U, Wrap;
    UWrap(n);
    UWrap(n / TWO64);
  }

  lemma JoinUnsigned(n: int)
    requires 0 <= n < TWO64 * TWO64
    ensures U(Wrap(n / TWO64)) * TWO64 + U(Wrap(n)) == n
  {
    hide U, Wrap;
    UWrap(n);
    UWrap(n / TWO64);
  }

  lemma WrapCongruent(m: int, n: int, k: int)
    requires m == n + k * TWO64
    ensures Wrap(m) == Wrap(n)
  {
    hide Wrap;
    ModPeriod(n, k, TWO64);
    WrapOfMod(m);
    WrapOfMod(n);
  }

  lemma WrapOfMod(n: int)
    ensures Wrap(n) == Wrap(n % TWO64)
  {
    assert n % TWO64 % TWO64 == n % TWO64;
  }

  lemma ModPeriod(n: int, k: int, d: int)
    requires d > 0
    ensures (n + k * d) % d == n % d
  {
    var q, r := n / d, n % d;
    assert n + k * d == (q + k) * d + r;
    DivModUnique(n + k * d, d, q + k, r);
  }

  lemma DivModUnique(n: int, d: int, q: int, r: int)
    requires d > 0 && n == q * d + r && 0 <= r < d
    ensures n / d == q && n % d == r
  {
    var q', r' := n / d, n % d;
    assert (q' - q) * d == r - r';
    if q' > q {
      MulAtLeast(q' - q, d);
      assert false;
    } else if q' < q {
      MulAtLeast(q - q', d);
      assert false;
    }
  }

  lemma MulAtLeast(x: int, d: int)
    requires x >= 1 && d >= 1
    ensures x * d >= d
  {
  }

  lemma ProductBounds(a: int, b: int, m: int, n: int)
    requires -m <= a <= m && 0 <= b <= n && 0 <= m
    ensures -m * n <= a * b <= m * n
  {
    assert (m - a) * b >= 0 && (m + a) * b >= 0;
    assert m * (n - b) >= 0;
  }

  lemma SignedVsUnsigned(v: bv64)
    ensures S(v) == U(v) || S(v) == U(v) - TWO64
    ensures -TWO63 <= S(v) < TWO63
    ensures 0 <= U(v) < TWO64
  {
    hide U;
    UBounds(v);
  }

  lemma UBounds(v: bv64)
    ensures 0 <= U(v) < TWO64
  {
  }

  lemma ShiftedQuotient(n: int, k: int, d: int)
    requires d > 0
    ensures (n + k * d) / d == n / d + k
  {
    assert n + k * d == (n / d + k) * d + n % d;
    DivModUnique(n + k * d, d, n / d + k, n % d);
  }

  /** The low half is the same whether the operands are read as signed or as unsigned. */
  lemma MulIsSignBlind(a: bv64, b: bv64)
    ensures Mul(a, b) == Wrap(S(a) * U(b)) && Mul(a, b) == Wrap(U(a) * U(b))
  {
    hide U, S, Wrap;
    SignedVsUnsigned(a);
    SignedVsUnsigned(b);
    var i, j := (U(a) - S(a)) / TWO64, (U(b) - S(b)) / TWO64;
    assert U(a) == S(a) + i * TWO64 && U(b) == S(b) + j * TWO64;
    ShiftOperand(S(a), S(b), j);
    WrapCongruent(S(a) * U(b), S(a) * S(b), S(a) * j);
    ShiftOperand(U(b), S(a), i);
    WrapCongruent(U(a) * U(b), S(a) * U(b), U(b) * i);
  }

  lemma ShiftOperand(x: int, y: int, k: int)
    ensures x * (y + k * TWO64) == x * y + (x * k) * TWO64
  {
  }

  lemma SignedProductBounds(a: bv64, b: bv64)
    ensures -TWO63 * TWO64 <= S(a) * S(b) < TWO63 * TWO64
  {
    hide U, S;
    SignedVsUnsigned(a);
    SignedVsUnsigned(b);
    if S(b) >= 0 {
      ProductBounds(S(a), S(b), TWO63, TWO63);
    } else {
      ProductBounds(S(a), -S(b), TWO63, TWO63);
      assert S(a) * -S(b) == -(S(a) * S(b));
    }
  }

  lemma MixedProductBounds(a: bv64, b: bv64)
    ensures -TWO63 * TWO64 <= S(a) * U(b) < TWO63 * TWO64
  {
    hide U, S;
    SignedVsUnsigned(a);
    SignedVsUnsigned(b);
    ProductBounds(S(a), U(b), TWO63, TWO64 - 1);
  }

  lemma UnsignedProductBounds(a: bv64, b: bv64)
    ensures 0 <= U(a) * U(b) < TWO64 * TWO64
  {
    hide U, S;
    SignedVsUnsigned(a);
    SignedVsUnsigned(b);
    ProductBounds(U(a), U(b), TWO64 - 1, TWO64 - 1);
    assert U(a) * U(b) >= 0;
  }

  /** mulh above mul is the exact signed product. */
  lemma MulhIsExact(a: bv64, b: bv64)
    ensures S(Mulh(a, b)) * TWO64 + U(Mul(a, b)) == S(a) * S(b)
  {
    hide U, S, Wrap;
    SignedProductBounds(a, b);
    JoinSigned(S(a) * S(b));
  }

  /** mulhu above mul is the exact unsigned product. */
  lemma MulhuIsExact(a: bv64, b: bv64)
    ensures U(Mulhu(a, b)) * TWO64 + U(Mul(a, b)) == U(a) * U(b)
  {
    hide U, S, Wrap, Mul;
    UnsignedProductBounds(a, b);
    MulIsSignBlind(a, b);
    JoinUnsigned(U(a) * U(b));
  }

  /** The wrapping 128-bit product of the source has the high half of the exact product. */
  lemma MulhsuHighHalf(a: bv64, b: bv64)
    ensures Mulhsu(a, b) == Wrap(S(a) * U(b) / TWO64)
  {
    hide U, S, Wrap;
    var n := S(a) * U(b);
    var j := S(a) / TWO128;
    assert S(a) % TWO128 == S(a) - j * TWO128;
    ShiftOperand128(U(b), S(a), -j);
    var p := (S(a) % TWO128) * U(b);
    assert p == n + (U(b) * -j) * TWO128;
    var k := p / TWO128;
    assert p % TWO128 == n + (U(b) * -j - k) * TWO128;
    var e := (U(b) * -j - k) * TWO64;
    assert p % TWO128 == n + e * TWO64;
    ShiftedQuotient(n, e, TWO64);
    WrapCongruent(n / TWO64 + e, n / TWO64, U(b) * -j - k);
  }

  lemma ShiftOperand128(x: int, y: int, k: int)
    ensures (y + k * TWO128) * x == x * y + (x * k) * TWO128
  {
  }

  /** mulhsu above mul is the exact product of a signed and an unsigned factor. */
  lemma MulhsuIsExact(a: bv64, b: bv64)
    ensures S(Mulhsu(a, b)) * TWO64 + U(Mul(a, b)) == S(a) * U(b)
  {
    hide U, S, Wrap, Mul, Mulhsu;
    MixedProductBounds(a, b);
    MulhsuHighHalf(a, b);
    MulIsSignBlind(a, b);
    JoinSigned(S(a) * U(b));
  }

  /** mulhsu is mulhu less the unsigned factor when the signed one is negative. */
  lemma MulhsuFromMulhu(a: bv64, b: bv64)
    ensures Mulhsu(a, b) == Wrap(U(Mulhu(a, b)) - (if S(a) < 0 then U(b) else 0))
  {
    hide U, S, Wrap, Mulhsu;
    var less := if S(a) < 0 then U(b) else 0;
    MulhsuHighHalf(a, b);
    SignBorrow(a, b);
    HighHalfLess(U(a) * U(b), less);
  }

  lemma SignBorrow(a: bv64, b: bv64)
    ensures S(a) * U(b) == U(a) * U(b) - (if S(a) < 0 then U(b) else 0) * TWO64
  {
    hide U;
    UBounds(a);
    assert (U(a) - TWO64) * U(b) == U(a) * U(b) - U(b) * TWO64;
  }

  lemma HighHalfLess(n: int, less: int)
    ensures Wrap((n - less * TWO64) / TWO64) == Wrap(U(Wrap(n / TWO64)) - less)
  {
    hide U, Wrap;
    var q := n / TWO64;
    ShiftedQuotient(n, -less, TWO64);
    UWrap(q);
    WrapCongruent(q - less, q % TWO64 - less, q / TWO64);
  }

  // ---------------------------------------------------------------------------
  // Division

  /** What a division instruction promises of dividend, divisor, quotient and remainder. */
  predicate Divided(a: int, b: int, q: int, r: int) {
    a == q * b + r && -Abs(b) < r < Abs(b) && (a >= 0 ==> r >= 0) && (a <= 0 ==> r <= 0)
  }

  /** Truncating division: the remainder is smaller than the divisor and takes the dividend's sign. */
  lemma QuotRem(a: int, b: int)
    requires b != 0
    ensures Divided(a, b, Quot(a, b), Rem(a, b))
  {
    var q, r := Abs(a) / Abs(b), Abs(a) % Abs(b);
    assert Abs(a) == q * Abs(b) + r;
    SignedDivision(a, b, q, r);
  }

  lemma SignedDivision(a: int, b: int, q: int, r: int)
    requires b != 0 && Abs(a) == q * Abs(b) + r && 0 <= r < Abs(b)
    ensures Divided(a, b, if (a < 0) == (b < 0) then q else -q, if a >= 0 then r else -r)
  {
    assert q * -b == -(q * b) && -q * b == -(q * b);
    NoRemainderOfZero(a, b, q, r);
  }

  lemma NoRemainderOfZero(a: int, b: int, q: int, r: int)
    requires b != 0 && Abs(a) == q * Abs(b) + r && 0 <= r < Abs(b)
    ensures a == 0 ==> r == 0
  {
    QuotientBounds(Abs(a), Abs(b), q, r);
  }

  lemma NaturalDivision(x: int, y: int)
    requires x >= 0 && y > 0
    ensures Quot(x, y) == x / y && Rem(x, y) == x % y && 0 <= x / y <= x && 0 <= x % y <= x
  {
    QuotientBounds(x, y, x / y, x % y);
  }

  lemma QuotientBounds(x: int, y: int, q: int, r: int)
    requires x >= 0 && 0 <= r < y && x == q * y + r
    ensures 0 <= q <= x && r <= x
  {
    if q < 0 {
      MulAtLeast(-q, y);
    } else {
      assert q <= q * y;
    }
  }

  /** A quotient is as large as its dividend only for divisor 1 or -1. */
  lemma QuotientShrinks(a: int, b: int)
    requires b != 0
    ensures Abs(Quot(a, b)) <= Abs(a)
    ensures a != 0 && b != 1 && b != -1 ==> Abs(Quot(a, b)) < Abs(a)
  {
    var x, y := Abs(a), Abs(b);
    var q := x / y;
    NaturalDivision(x, y);
    assert q * y + x % y == x;
    if y >= 2 {
      assert q * 2 <= q * y;
    }
  }

  lemma SignedRoundTrip(n: int)
    requires -TWO63 <= n < TWO63
    ensures S(Wrap(n)) == n
  {
    hide U, Wrap;
    UWrap(n);
    ModPeriod(n, 1, TWO64);
  }

  lemma UnsignedRoundTrip(n: int)
    requires 0 <= n < TWO64
    ensures U(Wrap(n)) == n
  {
    hide U, Wrap;
    UWrap(n);
  }

  predicate Overflows(a: int, b: int, min: int) { a == min && b == -1 }

  lemma QuotFits(a: int, b: int, min: int)
    requires b != 0 && min < 0 && min <= a < -min && !Overflows(a, b, min)
    ensures min <= Quot(a, b) < -min
  {
    QuotientShrinks(a, b);
    if b == 1 || b == -1 {
      assert Abs(a) / 1 == Abs(a);
    }
  }

  lemma RemFits(a: int, b: int, min: int)
    requires b != 0 && min < 0 && min <= b < -min
    ensures min <= Rem(a, b) < -min
  {
    QuotRem(a, b);
  }

  /** div and rem, unless the quotient overflows. */
  lemma DivRem(a: bv64, b: bv64)
    requires S(b) != 0 && !Overflows(S(a), S(b), -TWO63)
    ensures Divided(S(a), S(b), S(Div(a, b)), S(Remainder(a, b)))
  {
    hide U, S, Wrap, Quot, Rem, Divided;
    SignedVsUnsigned(a);
    SignedVsUnsigned(b);
    QuotRem(S(a), S(b));
    QuotFits(S(a), S(b), -TWO63);
    RemFits(S(a), S(b), -TWO63);
    SignedRoundTrip(Quot(S(a), S(b)));
    SignedRoundTrip(Rem(S(a), S(b)));
  }

  /** The overflowing division still divides modulo 2^64. */
  lemma DivRemOverflow(a: bv64, b: bv64)
    requires Overflows(S(a), S(b), -TWO63)
    ensures S(Div(a, b)) == -TWO63 && S(Remainder(a, b)) == 0
    ensures Wrap(S(Div(a, b)) * S(b) + S(Remainder(a, b))) == Wrap(S(a))
  {
    hide U, S, Wrap;
    SignedRoundTrip(0);
    WrapCongruent(TWO63, -TWO63, 1);
  }

  lemma DivuRemu(a: bv64, b: bv64)
    requires U(b) != 0
    ensures Divided(U(a), U(b), U(Divu(a, b)), U(Remu(a, b)))
  {
    hide U, Wrap, Quot, Rem, Divided;
    UBounds(a);
    UBounds(b);
    QuotRem(U(a), U(b));
    NaturalDivision(U(a), U(b));
    UnsignedRoundTrip(U(a) / U(b));
    UnsignedRoundTrip(U(a) % U(b));
  }

  /** Division by zero gives all ones and the dividend back. */
  lemma DivisionByZero(a: bv64, b: bv64)
    requires U(b) == 0
    ensures Div(a, b) == 0xffff_ffff_ffff_ffff && Divu(a, b) == 0xffff_ffff_ffff_ffff
    ensures Remainder(a, b) == a && Remu(a, b) == a
  {
    hide U, Wrap;
    AllOnes();
  }

  lemma AllOnes()
    ensures Wrap(-1) == 0xffff_ffff_ffff_ffff
  {
    NumberFromWord(TWO64 - 1);
    assert U(0xffff_ffff_ffff_ffff) == TWO64 - 1;
    UWrap(-1);
    UInjective(Wrap(-1), 0xffff_ffff_ffff_ffff);
  }

  // The 32-bit forms.

  lemma HalfBounds(v: bv64)
    ensures 0 <= U32(v) < TWO32 && -TWO31 <= S32(v) < TWO31
  {
    hide U;
  }

  lemma Signed32RoundTrip(n: int)
    requires -TWO31 <= n < TWO31
    ensures Wrap32(n) == Wrap(n) && S(Wrap(n)) == n && S32(Wrap(n)) == n
  {
    hide U, Wrap;
    SignedRoundTrip(n);
    UWrap(n);
    ModPeriod(n, 1, TWO32);
    ModPeriod(n, 1, TWO64);
    ModPeriod(n, TWO32, TWO32);
  }

  /** divw and remw leave sign-extended 32-bit results. */
  lemma DivwRemw(a: bv64, b: bv64)
    requires S32(b) != 0 && !Overflows(S32(a), S32(b), -TWO31)
    ensures Divided(S32(a), S32(b), S(Divw(a, b)), S(Remw(a, b)))
  {
    hide U, S32, Wrap, Wrap32, S, Quot, Rem, Divided;
    HalfBounds(a);
    HalfBounds(b);
    QuotRem(S32(a), S32(b));
    QuotFits(S32(a), S32(b), -TWO31);
    RemFits(S32(a), S32(b), -TWO31);
    Signed32RoundTrip(Quot(S32(a), S32(b)));
    Signed32RoundTrip(Rem(S32(a), S32(b)));
  }

  lemma DivwOverflow(a: bv64, b: bv64)
    requires Overflows(S32(a), S32(b), -TWO31)
    ensures S(Divw(a, b)) == -TWO31 && S(Remw(a, b)) == 0
    ensures Wrap32(S(Divw(a, b)) * S32(b) + S(Remw(a, b))) == Wrap32(S32(a))
  {
    hide U, S32, Wrap, S;
    Signed32RoundTrip(-TWO31);
    Signed32RoundTrip(0);
  }

  /** divuw and remuw: the results are unsigned 32-bit numbers, sign-extended into the register. */
  lemma DivuwRemuw(a: bv64, b: bv64)
    requires U32(b) != 0
    ensures Divided(U32(a), U32(b), U32(Divuw(a, b)), U32(Remuw(a, b)))
    ensures S(Divuw(a, b)) == S32(Divuw(a, b)) && S(Remuw(a, b)) == S32(Remuw(a, b))
  {
    hide U, U32, Wrap, Wrap32, Quot, Rem, Divided, S, S32;
    HalfBounds(a);
    HalfBounds(b);
    QuotRem(U32(a), U32(b));
    NaturalDivision(U32(a), U32(b));
    Unsigned32RoundTrip(U32(a) / U32(b));
    Unsigned32RoundTrip(U32(a) % U32(b));
    Wrap32IsExtended(U32(a) / U32(b));
    Wrap32IsExtended(U32(a) % U32(b));
  }

  /** A 32-bit result fills the upper half with its sign. */
  lemma Wrap32IsExtended(n: int)
    ensures S(Wrap32(n)) == S32(Wrap32(n))
  {
    hide U, Wrap, S, S32;
    Signed32RoundTrip(Signed32(n % TWO32));
  }

  lemma Unsigned32RoundTrip(n: int)
    requires 0 <= n < TWO32
    ensures U32(Wrap32(n)) == n
  {
    hide U, Wrap;
    UWrap(Signed32(n));
    ModPeriod(Signed32(n), TWO32, TWO32);
    ModPeriod(n, -1, TWO32);
    ModPeriod(Signed32(n), 1, TWO64);
  }

  lemma WrapOfSigned(a: bv64)
    ensures Wrap(S(a)) == a
  {
    hide U, Wrap;
    UWrap(S(a));
    UBounds(a);
    ModPeriod(U(a), -1, TWO64);
    UInjective(Wrap(S(a)), a);
  }

  lemma HalfIsWhole(a: bv64)
    ensures S32(a) == S(a) <==> -TWO31 <= S(a) < TWO31
  {
    hide U;
    HalfBounds(a);
    UBounds(a);
    if -TWO31 <= S(a) < 0 {
      ModPeriod(S(a), TWO32, TWO32);
      ModPeriod(S(a), 1, TWO32);
    }
  }

  /** remw and remuw by zero return the whole dividend: the sign-extended low half that section 7.2 of
      the Unprivileged ISA asks for, exactly when the dividend is a 32-bit number already. */
  lemma WordDivisionByZero(a: bv64, b: bv64)
    requires U32(b) == 0
    ensures Divw(a, b) == 0xffff_ffff_ffff_ffff && Divuw(a, b) == 0xffff_ffff_ffff_ffff
    ensures Remw(a, b) == a && Remuw(a, b) == a
    ensures Remw(a, b) == Wrap32(S32(a)) <==> -TWO31 <= S(a) < TWO31
  {
    hide U, Wrap, U32, S;
    AllOnes();
    HalfBounds(a);
    Signed32RoundTrip(S32(a));
    WrapOfSigned(a);
    HalfIsWhole(a);
  }
}
