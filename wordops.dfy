/**
 * The word-level result of each arithmetic, comparison and bitwise opcode
 * (the value an opcode handler pushes), with the laws that characterise them.
 */
module WordOps {
  import opened Words

  // ---------------------------------------------------------------------
  // Arithmetic, wrapping modulo 2^256 (`overflowing_*(..).0`)
  // ---------------------------------------------------------------------

  function Add(a: Word, b: Word): Word { (a + b) % WORD_MODULUS }

  function Mul(a: Word, b: Word): Word { (a * b) % WORD_MODULUS }

  function Sub(a: Word, b: Word): Word { (a - b) % WORD_MODULUS }

  /** Unsigned division; a zero divisor gives 0 instead of trapping. */
  function Div(a: Word, b: Word): Word
  {
    if b == 0 then 0 else DivAtMost(a, b); a / b
  }

  /** Unsigned remainder; a zero divisor gives 0 instead of trapping. */
  function Mod(a: Word, b: Word): Word { if b == 0 then 0 else a % b }

  /** Mathematical power on naturals. */
  function Pow(x: nat, e: nat): nat
  {
    if e == 0 then 1 else x * Pow(x, e - 1)
  }

  /** EXP: the exact power reduced modulo 2^256. */
  function Exp(base: Word, exponent: Word): Word { Pow(base, exponent) % WORD_MODULUS }

  // ---------------------------------------------------------------------
  // Comparisons: 1 for true, 0 for false
  // ---------------------------------------------------------------------

  function Lt(a: Word, b: Word): Word { if a < b then 1 else 0 }

  function Gt(a: Word, b: Word): Word { if a > b then 1 else 0 }

  function Eq(a: Word, b: Word): Word { if a == b then 1 else 0 }

  function IsZero(a: Word): Word { if a == 0 then 1 else 0 }

  // ---------------------------------------------------------------------
  // Bitwise operations over the low `bits` bits of naturals
  // ---------------------------------------------------------------------

  function BitAnd(a: nat, b: nat, bits: nat): (r: nat)
    ensures r < Pow2(bits)
  {
    if bits == 0 then 0
    else 2 * BitAnd(a / 2, b / 2, bits - 1) + (if a % 2 == 1 && b % 2 == 1 then 1 else 0)
  }

  function BitOr(a: nat, b: nat, bits: nat): (r: nat)
    ensures r < Pow2(bits)
  {
    if bits == 0 then 0
    else 2 * BitOr(a / 2, b / 2, bits - 1) + (if a % 2 == 1 || b % 2 == 1 then 1 else 0)
  }

  function BitXor(a: nat, b: nat, bits: nat): (r: nat)
    ensures r < Pow2(bits)
  {
    if bits == 0 then 0
    else 2 * BitXor(a / 2, b / 2, bits - 1) + (if a % 2 != b % 2 then 1 else 0)
  }

  function BitNot(a: nat, bits: nat): (r: nat)
    ensures r < Pow2(bits)
  {
    if bits == 0 then 0 else 2 * BitNot(a / 2, bits - 1) + (1 - a % 2)
  }

  function And(a: Word, b: Word): Word { BitAnd(a, b, 256) }

  function Or(a: Word, b: Word): Word { BitOr(a, b, 256) }

  function Xor(a: Word, b: Word): Word { BitXor(a, b, 256) }

  function Not(a: Word): Word { BitNot(a, 256) }

  // ---------------------------------------------------------------------
  // Laws
  // ---------------------------------------------------------------------

  /** Wrapping subtraction undoes wrapping addition. */
  lemma AddSubInverse(a: Word, b: Word)
    ensures Sub(Add(a, b), b) == a
  {
    var m := WORD_MODULUS;
    if a + b < m {
      ModUnique(a + b, 0, a + b, m);
      ModUnique(a, 0, a, m);
    } else {
      ModUnique(a + b, 1, a + b - m, m);
      ModUnique(a - m, -1, a, m);
    }
  }

  /** DIV and MOD agree with Euclid's division whenever the divisor is nonzero, and give 0 otherwise. */
  lemma DivModLaw(a: Word, b: Word)
    ensures b == 0 ==> Div(a, b) == 0 && Mod(a, b) == 0
    ensures b != 0 ==> a == Div(a, b) * b + Mod(a, b) && Mod(a, b) < b
  {
  }

  /** Exactly one of LT, GT, EQ yields 1; ISZERO is EQ against 0. */
  lemma ComparisonTrichotomy(a: Word, b: Word)
    ensures Lt(a, b) + Gt(a, b) + Eq(a, b) == 1
    ensures Lt(a, b) == 1 <==> a < b
    ensures Gt(a, b) == Lt(b, a)
    ensures IsZero(a) == Eq(a, 0)
  {
  }

  /** EXP's two shortcuts agree with the power: x^0 = 1 and 0^e = 0 for e > 0. */
  lemma ExpShortcuts(base: Word, exponent: Word)
    ensures Exp(base, 0) == 1
    ensures exponent != 0 && base == 0 ==> Exp(base, exponent) == 0
  {
    WordModulusAboveOne();
    ModUnique(1, 0, 1, WORD_MODULUS);
    if exponent != 0 && base == 0 {
      assert Pow(base, exponent) == 0;
      ModUnique(0, 0, 0, WORD_MODULUS);
    }
  }

  /** NOT is the bitwise complement: a + NOT(a) is the all-ones word. */
  lemma {:induction false} BitNotComplement(a: nat, bits: nat)
    requires a < Pow2(bits)
    ensures BitNot(a, bits) == Pow2(bits) - 1 - a
  {
    if bits > 0 {
      BitNotComplement(a / 2, bits - 1);
    }
  }

  /** Bit by bit, AND and OR together count each set bit of a and b once. */
  lemma {:induction false} BitAndOrSum(a: nat, b: nat, bits: nat)
    requires a < Pow2(bits) && b < Pow2(bits)
    ensures BitAnd(a, b, bits) + BitOr(a, b, bits) == a + b
  {
    if bits > 0 {
      BitAndOrSum(a / 2, b / 2, bits - 1);
    }
  }

  /** XOR keeps the bits set in exactly one operand: OR minus AND. */
  lemma {:induction false} BitXorOrAnd(a: nat, b: nat, bits: nat)
    ensures BitXor(a, b, bits) == BitOr(a, b, bits) - BitAnd(a, b, bits)
  {
    if bits > 0 {
      BitXorOrAnd(a / 2, b / 2, bits - 1);
    }
  }

  lemma WordBitwiseLaws(a: Word, b: Word)
    ensures Not(a) == WORD_MODULUS - 1 - a
    ensures Not(Not(a)) == a
    ensures And(a, b) + Or(a, b) == a + b
    ensures Xor(a, b) == Or(a, b) - And(a, b)
  {
    BitNotComplement(a, 256);
    BitNotComplement(Not(a), 256);
    BitAndOrSum(a, b, 256);
    BitXorOrAnd(a, b, 256);
  }

  // ---------------------------------------------------------------------
  // Modular arithmetic used by the square-and-multiply proof of EXP
  // ---------------------------------------------------------------------

  lemma ModUnique(x: int, q: int, r: int, m: int)
    requires m > 0 && x == q * m + r && 0 <= r < m
    ensures x % m == r && x / m == q
  {
    var q0, r0 := x / m, x % m;
    assert (q - q0) * m == r0 - r;
    if q > q0 {
      assert (q - q0) * m >= m by { MulAtLeast(q - q0, m); }
    } else if q < q0 {
      assert (q0 - q) * m >= m by { MulAtLeast(q0 - q, m); }
    }
  }

  lemma DivAtMost(a: nat, b: nat)
    requires b > 0
    ensures a / b <= a
  {
    var q := a / b;
    assert a == q * b + a % b;
    if q > 0 {
      MulAtLeast(b, q);
    }
  }

  lemma MulAtLeast(k: int, m: int)
    requires k >= 1 && m > 0
    ensures k * m >= m
  {
  }

  /** Reducing either factor first does not change a product modulo m. */
  lemma MulMod(a: nat, b: nat, m: nat)
    requires m > 0
    ensures (a * b) % m == ((a % m) * b) % m
  {
    var q, r := a / m, a % m;
    assert a * b == (q * b) * m + r * b;
    var q', r' := (r * b) / m, (r * b) % m;
    assert a * b == (q * b + q') * m + r';
    ModUnique(a * b, q * b + q', r', m);
  }

  lemma MulModBoth(a: nat, b: nat, m: nat)
    requires m > 0
    ensures (a * b) % m == ((a % m) * (b % m)) % m
  {
    var ra := a % m;
    MulMod(a, b, m);
    MulMod(b, ra, m);
    assert ra * b == b * ra;
    assert (b % m) * ra == ra * (b % m);
  }

  /** Congruent right factors give congruent products. */
  lemma MulCongruent(a: nat, b: nat, c: nat, m: nat)
    requires m > 0 && b % m == c % m
    ensures (a * b) % m == (a * c) % m
  {
    MulModBoth(a, b, m);
    MulModBoth(a, c, m);
  }

  lemma {:induction false} PowModBase(x: nat, e: nat, m: nat)
    requires m > 0
    ensures Pow(x % m, e) % m == Pow(x, e) % m
  {
    if e > 0 {
      var xr := x % m;
      var p', p := Pow(xr, e - 1), Pow(x, e - 1);
      PowModBase(x, e - 1, m);
      assert Pow(xr, e) == xr * p';
      assert Pow(x, e) == x * p;
      MulCongruent(xr, p', p, m);
      MulMod(x, p, m);
    }
  }

  lemma {:induction false} PowSquare(x: nat, k: nat)
    ensures Pow(x * x, k) == Pow(x, 2 * k)
  {
    if k > 0 {
      PowSquare(x, k - 1);
      var p := Pow(x, 2 * k - 2);
      assert Pow(x * x, k) == (x * x) * p;
      assert Pow(x, 2 * k) == x * (x * p);
    }
  }

  /**
   * One round of square-and-multiply keeps `result * basePow^exp` fixed modulo m:
   * multiply into `result` when the low bit of `exp` is set, square `basePow`, halve `exp`.
   */
  lemma ExpRound(result: nat, basePow: nat, exp: nat, m: nat)
    requires m > 0
    ensures
      var result' := if exp % 2 == 1 then (result * basePow) % m else result;
      (result' * Pow((basePow * basePow) % m, exp / 2)) % m == (result * Pow(basePow, exp)) % m
  {
    var k := exp / 2;
    var sq := basePow * basePow;
    var r1 := if exp % 2 == 1 then (result * basePow) % m else result;
    var q, s := Pow(sq % m, k), Pow(sq, k);
    PowSquare(basePow, k);
    PowModBase(sq, k, m);
    MulCongruent(r1, q, s, m);
    if exp % 2 == 1 {
      var rb := result * basePow;
      assert Pow(basePow, exp) == basePow * s;
      MulMod(rb, s, m);
      assert rb * s == result * (basePow * s);
    }
  }
}
