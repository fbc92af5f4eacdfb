/** SHA-256 as FIPS 180-4 defines it, on messages that are bit strings of any length. */
module Fips180 {
  import opened Words

  // ----- section 4.1.2: the six logical functions -----

  function Ch(x: Word, y: Word, z: Word): Word { Xor(And(x, y), And(Not(x), z)) }
  function Maj(x: Word, y: Word, z: Word): Word { Xor(Xor(And(x, y), And(x, z)), And(y, z)) }
  function UpperSigma0(x: Word): Word { Xor(Xor(RotR(2, x), RotR(13, x)), RotR(22, x)) }
  function UpperSigma1(x: Word): Word { Xor(Xor(RotR(6, x), RotR(11, x)), RotR(25, x)) }
  function LowerSigma0(x: Word): Word { Xor(Xor(RotR(7, x), RotR(18, x)), Shr(3, x)) }
  function LowerSigma1(x: Word): Word { Xor(Xor(RotR(17, x), RotR(19, x)), Shr(10, x)) }

  // ----- sections 4.2.2 and 5.3.3: constants by what they mean -----

  /** The first sixty-four prime numbers, in rows of eight. */
  const PRIMES0: seq<nat> := [2, 3, 5, 7, 11, 13, 17, 19]
  const PRIMES1: seq<nat> := [23, 29, 31, 37, 41, 43, 47, 53]
  const PRIMES2: seq<nat> := [59, 61, 67, 71, 73, 79, 83, 89]
  const PRIMES3: seq<nat> := [97, 101, 103, 107, 109, 113, 127, 131]
  const PRIMES4: seq<nat> := [137, 139, 149, 151, 157, 163, 167, 173]
  const PRIMES5: seq<nat> := [179, 181, 191, 193, 197, 199, 211, 223]
  const PRIMES6: seq<nat> := [227, 229, 233, 239, 241, 251, 257, 263]
  const PRIMES7: seq<nat> := [269, 271, 277, 281, 283, 293, 307, 311]

  /** `k` is the first thirty-two bits of the fractional part of the square root of `p`. */
  predicate SquareRootFraction(p: nat, whole: nat, k: Word) {
    var n := whole * MODULUS + k;
    n * n <= p * MODULUS * MODULUS < (n + 1) * (n + 1)
  }

  /** `k` is the first thirty-two bits of the fractional part of the cube root of `p`. */
  predicate CubeRootFraction(p: nat, whole: nat, k: Word) {
    var n := whole * MODULUS + k;
    n * n * n <= p * MODULUS * MODULUS * MODULUS < (n + 1) * (n + 1) * (n + 1)
  }

  // ----- section 5.1.1: padding -----

  /** The least number of zero bits that brings the message, a one bit and sixty-four more to a block boundary. */
  function ZeroCount(length: nat): (k: nat)
    ensures (length + 1 + k) % 512 == 448
  {
    (447 - length) % 512
  }

  function Pad(m: seq<bool>): (p: seq<bool>)
    ensures |p| % 512 == 0
  {
    m + [true] + Zeros(ZeroCount(|m|)) + Bits(|m|, 64)
  }

  /** Padding loses nothing: the length field and the message behind it can be read back. */
  lemma PadIsInjective(m: seq<bool>, n: seq<bool>)
    requires |m| < Pow2(64) && |n| < Pow2(64)
    requires Pad(m) == Pad(n)
    ensures m == n
  {
    var p, q := Pad(m), Pad(n);
    assert p[|p| - 64..] == Bits(|m|, 64);
    assert q[|q| - 64..] == Bits(|n|, 64);
    NumOfBits(|m|, 64);
    NumOfBits(|n|, 64);
    assert p[..|m|] == m;
    assert q[..|n|] == n;
  }

  /** No shorter string of whole blocks has room for the message, the one bit and the length. */
  lemma PadIsShortest(m: seq<bool>, size: nat)
    requires size % 512 == 0 && |m| + 65 <= size
    ensures |Pad(m)| <= size
  {
    var zeros := size - |m| - 65;
    assert (|m| + 1 + zeros) % 512 == 448;
    assert zeros % 512 == ZeroCount(|m|);
  }

  // ----- section 6.2.2: the hash computation -----

  /** The eight working variables, and the eight words of a hash value. */
  datatype Vars = Vars(a: Word, b: Word, c: Word, d: Word, e: Word, f: Word, g: Word, h: Word)

  /** Word `t` of a block. */
  function BlockWord(block: seq<bool>, t: nat): Word
    requires |block| == 512 && t < 16
  {
    OfBits(block[32 * t..32 * t + 32])
  }

  function Schedule(block: seq<bool>, t: nat): Word
    requires |block| == 512
  {
    if t < 16 then BlockWord(block, t)
    else Add(Add(LowerSigma1(Schedule(block, t - 2)), Schedule(block, t - 7)),
             Add(LowerSigma0(Schedule(block, t - 15)), Schedule(block, t - 16)))
  }

  function Temporary1(v: Vars, k: Word, w: Word): Word {
    Add(Add(Add(Add(v.h, UpperSigma1(v.e)), Ch(v.e, v.f, v.g)), k), w)
  }

  function Temporary2(v: Vars): Word {
    Add(UpperSigma0(v.a), Maj(v.a, v.b, v.c))
  }

  function Round(v: Vars, k: Word, w: Word): Vars {
    var t1 := Temporary1(v, k, w);
    Vars(Add(t1, Temporary2(v)), v.a, v.b, v.c, Add(v.d, t1), v.e, v.f, v.g)
  }

  /** The working variables after the first `t` rounds. */
  function Rounds(v: Vars, ks: seq<Word>, block: seq<bool>, t: nat): Vars
    requires |block| == 512 && t <= |ks|
  {
    if t == 0 then v
    else Round(Rounds(v, ks, block, t - 1), ks[t - 1], Schedule(block, t - 1))
  }

  function AddAll(v: Vars, w: Vars): Vars {
    Vars(Add(v.a, w.a), Add(v.b, w.b), Add(v.c, w.c), Add(v.d, w.d),
         Add(v.e, w.e), Add(v.f, w.f), Add(v.g, w.g), Add(v.h, w.h))
  }

  function Compress(v: Vars, ks: seq<Word>, block: seq<bool>): Vars
    requires |block| == 512 && |ks| == 64
  {
    AddAll(Rounds(v, ks, block, |ks|), v)
  }

  /** The hash value after the first `n` blocks of a padded message. */
  function HashBlocks(v: Vars, ks: seq<Word>, p: seq<bool>, n: nat): Vars
    requires |ks| == 64 && 512 * n <= |p|
  {
    if n == 0 then v
    else Compress(HashBlocks(v, ks, p, n - 1), ks, p[512 * (n - 1)..512 * n])
  }

  function Sha256(v: Vars, ks: seq<Word>, m: seq<bool>): Vars
    requires |ks| == 64
  {
    var p := Pad(m);
    HashBlocks(v, ks, p, |p| / 512)
  }
}
