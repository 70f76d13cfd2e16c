/**
 * Bytes, 256-bit words and the big-endian conversions between them
 * (the parts of `U256` that the interpreter uses: `to_big_endian`,
 * `from_big_endian`).
 */
module Words {

  /** An unsigned 8-bit value (`u8`). */
  type Byte = b: int | 0 <= b < 256

  /** 2 to the power `n`. */
  function Pow2(n: nat): (r: nat)
    ensures r >= 1
  {
    if n == 0 then 1 else 2 * Pow2(n - 1)
  }

  /** The number of distinct 256-bit words; every wrapping operation reduces modulo it. */
  const WORD_MODULUS: nat := Pow2(256)

  /** An unsigned 256-bit word (`U256`). */
  type Word = w: int | 0 <= w < WORD_MODULUS

  lemma WordModulusAboveOne()
    ensures WORD_MODULUS > 1
  {
    Pow2Monotone(1, 256);
  }

  lemma {:induction false} Pow2Add(a: nat, b: nat)
    ensures Pow2(a + b) == Pow2(a) * Pow2(b)
  {
    if a > 0 {
      Pow2Add(a - 1, b);
      assert Pow2(a + b) == 2 * Pow2(a - 1 + b);
    }
  }

  lemma {:induction false} Pow2Monotone(a: nat, b: nat)
    requires a <= b
    ensures Pow2(a) <= Pow2(b)
  {
    if a < b {
      Pow2Monotone(a, b - 1);
    }
  }

  /** Shifting a byte string left by one byte multiplies its range by 256. */
  lemma Pow2NextByte(n: nat)
    ensures Pow2(8 * (n + 1)) == 256 * Pow2(8 * n)
  {
    Pow2Add(8 * n, 8);
  }

  /** `n` zero bytes, the fill value of `Vec::resize(_, 0)` and of zero padding. */
  function Zeros(n: nat): (z: seq<Byte>)
    ensures |z| == n && forall i :: 0 <= i < n ==> z[i] == 0
  {
    seq(n, _ => 0)
  }

  /** The unsigned value of `bs` read most significant byte first (`U256::from_big_endian`). */
  function FromBigEndian(bs: seq<Byte>): (v: nat)
    ensures v < Pow2(8 * |bs|)
  {
    if bs == [] then 0
    else
      var init := bs[..|bs| - 1];
      Pow2NextByte(|init|);
      FromBigEndian(init) * 256 + bs[|bs| - 1]
  }

  /** The low `n` bytes of `v`, most significant first (`U256::to_big_endian` when `n` is 32). */
  function ToBigEndian(v: nat, n: nat): (bs: seq<Byte>)
    ensures |bs| == n
  {
    if n == 0 then [] else ToBigEndian(v / 256, n - 1) + [v % 256]
  }

  /** Decoding an encoding gives back the value, whenever the value fits in `n` bytes. */
  lemma {:induction false} FromToBigEndian(v: nat, n: nat)
    requires v < Pow2(8 * n)
    ensures FromBigEndian(ToBigEndian(v, n)) == v
  {
    if n > 0 {
      Pow2NextByte(n - 1);
      FromToBigEndian(v / 256, n - 1);
      var bs := ToBigEndian(v, n);
      assert bs[..|bs| - 1] == ToBigEndian(v / 256, n - 1);
    }
  }

  /** Encoding a decoded byte string at its own length gives back the bytes. */
  lemma {:induction false} ToFromBigEndian(bs: seq<Byte>)
    ensures ToBigEndian(FromBigEndian(bs), |bs|) == bs
  {
    if bs != [] {
      var init := bs[..|bs| - 1];
      ToFromBigEndian(init);
      assert bs == init + [bs[|bs| - 1]];
    }
  }

  /** Leading zero bytes do not change the decoded value (the 32-byte padding of PUSH3..PUSH8). */
  lemma {:induction false} FromBigEndianLeadingZeros(k: nat, bs: seq<Byte>)
    ensures FromBigEndian(Zeros(k) + bs) == FromBigEndian(bs)
  {
    if bs == [] {
      assert Zeros(k) + bs == Zeros(k);
      ZerosDecodeToZero(k);
    } else {
      var init := bs[..|bs| - 1];
      FromBigEndianLeadingZeros(k, init);
      assert (Zeros(k) + bs)[..|Zeros(k) + bs| - 1] == Zeros(k) + init;
    }
  }

  lemma {:induction false} ZerosDecodeToZero(k: nat)
    ensures FromBigEndian(Zeros(k)) == 0
  {
    if k > 0 {
      ZerosDecodeToZero(k - 1);
      assert Zeros(k)[..k - 1] == Zeros(k - 1);
    }
  }
}
