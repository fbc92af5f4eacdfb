/** Bit strings, 32-bit words, and the operations of FIPS 180-4, sections 2.2.2 and 3. */
module Words {
  const MODULUS := 0x1_0000_0000
  type Word = x: int | 0 <= x < MODULUS
  type Byte = x: int | 0 <= x < 256

  function Pow2(n: nat): (p: nat)
    ensures p > 0
  {
    if n == 0 then 1 else 2 * Pow2(n - 1)
  }

  /** The low `n` bits of `x`, most significant first. */
  function Bits(x: nat, n: nat): (b: seq<bool>)
    ensures |b| == n
  {
    if n == 0 then [] else Bits(x / 2, n - 1) + [x % 2 == 1]
  }

  function Num(b: seq<bool>): nat {
    if b == [] then 0 else 2 * Num(b[..|b| - 1]) + if b[|b| - 1] then 1 else 0
  }

  function Zeros(n: nat): (b: seq<bool>)
    ensures |b| == n && forall i :: 0 <= i < n ==> !b[i]
  {
    seq(n, _ => false)
  }

  // ----- bit strings and numbers -----

  lemma {:induction false} Pow2Add(m: nat, n: nat)
    ensures Pow2(m + n) == Pow2(m) * Pow2(n)
  {
    if n > 0 {
      Pow2Add(m, n - 1);
      Doubles(Pow2(m), Pow2(n - 1));
    }
  }

  lemma {:induction false} NumBound(b: seq<bool>)
    ensures Num(b) < Pow2(|b|)
  {
    if b != [] { NumBound(b[..|b| - 1]); }
  }

  lemma {:induction false} BitsOfNum(b: seq<bool>)
    ensures Bits(Num(b), |b|) == b
  {
    if b != [] {
      BitsOfNum(b[..|b| - 1]);
      assert b == b[..|b| - 1] + [b[|b| - 1]];
    }
  }

  lemma {:induction false} NumOfBits(x: nat, n: nat)
    requires x < Pow2(n)
    ensures Num(Bits(x, n)) == x
  {
    if n > 0 {
      NumOfBits(x / 2, n - 1);
      var b := Bits(x, n);
      assert b[..n - 1] == Bits(x / 2, n - 1);
    }
  }

  lemma NumUnfold(b: seq<bool>)
    requires b != []
    ensures Num(b) == 2 * Num(b[..|b| - 1]) + if b[|b| - 1] then 1 else 0
  {
  }

  lemma {:induction false} NumAppend(a: seq<bool>, b: seq<bool>)
    ensures Num(a + b) == Num(a) * Pow2(|b|) + Num(b)
  {
    if b == [] {
      assert a + b == a;
    } else {
      var c := b[..|b| - 1];
      NumAppend(a, c);
      NumUnfold(a + b);
      NumUnfold(b);
      assert (a + b)[..|a + b| - 1] == a + c;
      Doubles(Num(a), Pow2(|c|));
      hide Num;
      assert Num(a + b) == 2 * Num(a + c) + if b[|b| - 1] then 1 else 0;
    }
  }

  lemma Doubles(x: int, y: int)
    ensures 2 * (x * y) == x * (2 * y)
  {
  }

  // ----- words -----

  function ToBits(x: Word): (b: seq<bool>)
    ensures |b| == 32
  {
    Bits(x, 32)
  }

  lemma PowersOfTwo()
    ensures Pow2(8) == 0x100 && Pow2(16) == 0x1_0000 && Pow2(24) == 0x100_0000 && Pow2(32) == MODULUS
    ensures Pow2(64) == MODULUS * MODULUS
  {
    assert Pow2(4) == 16;
    Pow2Add(4, 4);
    Pow2Add(8, 8);
    Pow2Add(8, 16);
    Pow2Add(16, 16);
    Pow2Add(32, 32);
  }

  function OfBits(b: seq<bool>): Word
    requires |b| == 32
  {
    PowersOfTwo();
    NumBound(b);
    Num(b)
  }

  lemma BitsRoundTrip(b: seq<bool>)
    requires |b| == 32
    ensures ToBits(OfBits(b)) == b
  {
    BitsOfNum(b);
  }

  lemma WordRoundTrip(x: Word)
    ensures OfBits(ToBits(x)) == x
  {
    PowersOfTwo();
    NumOfBits(x, 32);
  }

  function XorBits(a: seq<bool>, b: seq<bool>): (r: seq<bool>)
    requires |a| == |b|
    ensures |r| == |a| && forall i :: 0 <= i < |r| ==> r[i] == (a[i] != b[i])
  {
    seq(|a|, i requires 0 <= i < |a| => a[i] != b[i])
  }

  function AndBits(a: seq<bool>, b: seq<bool>): (r: seq<bool>)
    requires |a| == |b|
    ensures |r| == |a| && forall i :: 0 <= i < |r| ==> r[i] == (a[i] && b[i])
  {
    seq(|a|, i requires 0 <= i < |a| => a[i] && b[i])
  }

  function OrBits(a: seq<bool>, b: seq<bool>): (r: seq<bool>)
    requires |a| == |b|
    ensures |r| == |a| && forall i :: 0 <= i < |r| ==> r[i] == (a[i] || b[i])
  {
    seq(|a|, i requires 0 <= i < |a| => a[i] || b[i])
  }

  function NotBits(a: seq<bool>): (r: seq<bool>)
    ensures |r| == |a| && forall i :: 0 <= i < |r| ==> r[i] == !a[i]
  {
    seq(|a|, i requires 0 <= i < |a| => !a[i])
  }

  function Xor(x: Word, y: Word): Word { OfBits(XorBits(ToBits(x), ToBits(y))) }
  function And(x: Word, y: Word): Word { OfBits(AndBits(ToBits(x), ToBits(y))) }
  function Or(x: Word, y: Word): Word { OfBits(OrBits(ToBits(x), ToBits(y))) }
  function Not(x: Word): Word { OfBits(NotBits(ToBits(x))) }

  /** Addition modulo 2^32. */
  function Add(x: Word, y: Word): Word { (x + y) % MODULUS }

  /** SHR: the right-most `n` bits are discarded and zeros come in on the left. */
  function Shr(n: nat, x: Word): Word
    requires n <= 32
  {
    OfBits(Zeros(n) + ToBits(x)[..32 - n])
  }

  /** ROTR: the right-most `n` bits move round to the left. */
  function RotR(n: nat, x: Word): Word
    requires n <= 32
  {
    OfBits(ToBits(x)[32 - n..] + ToBits(x)[..32 - n])
  }
}
