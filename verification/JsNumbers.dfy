/**
 * The ECMAScript number operators that the hash loop uses. A number here is an integer that a double holds exactly;
 * the bit operators work on two's-complement 32-bit values and all but `>>>` yield a signed result.
 */
module JsNumbers {
  import opened Words

  const SAFE := 0x20_0000_0000_0000
  type Number = x: int | -SAFE < x < SAFE

  function ToUint32(x: Number): Word { x % MODULUS }

  function Signed(w: Word): Number {
    if w < 0x8000_0000 then w else w - MODULUS
  }

  function Pattern(x: Number): (b: seq<bool>)
    ensures |b| == 32
  {
    ToBits(ToUint32(x))
  }

  function FromPattern(b: seq<bool>): Number
    requires |b| == 32
  {
    Signed(OfBits(b))
  }

  function BitXor(x: Number, y: Number): Number { FromPattern(XorBits(Pattern(x), Pattern(y))) }
  function BitAnd(x: Number, y: Number): Number { FromPattern(AndBits(Pattern(x), Pattern(y))) }
  function BitOr(x: Number, y: Number): Number { FromPattern(OrBits(Pattern(x), Pattern(y))) }
  function BitNot(x: Number): Number { FromPattern(NotBits(Pattern(x))) }

  /** `x << n` */
  function ShiftLeft(x: Number, n: nat): Number
    requires n < 32
  {
    FromPattern(Pattern(x)[n..] + Zeros(n))
  }

  /** `x >>> n` */
  function ShiftRightUnsigned(x: Number, n: nat): Word
    requires n < 32
  {
    OfBits(Zeros(n) + Pattern(x)[..32 - n])
  }

  /** `x + y`, where the exact sum is still a safe integer, so that the double addition does not round. */
  function Plus(x: Number, y: Number): Number
    requires -SAFE < x + y < SAFE
  {
    x + y
  }

  // ----- signed results stand for the words of the standard -----

  /** The number `x` stands for the word `w`. */
  predicate Means(x: Number, w: Word) {
    -MODULUS < x < MODULUS && ToUint32(x) == w
  }

  lemma PatternMeans(b: seq<bool>)
    requires |b| == 32
    ensures Means(FromPattern(b), OfBits(b))
  {
    var w := OfBits(b);
    assert (w - MODULUS) % MODULUS == w;
  }

  lemma XorMeans(x: Number, y: Number, v: Word, w: Word)
    requires Means(x, v) && Means(y, w)
    ensures Means(BitXor(x, y), Xor(v, w))
  {
    PatternMeans(XorBits(Pattern(x), Pattern(y)));
  }

  lemma AndMeans(x: Number, y: Number, v: Word, w: Word)
    requires Means(x, v) && Means(y, w)
    ensures Means(BitAnd(x, y), And(v, w))
  {
    PatternMeans(AndBits(Pattern(x), Pattern(y)));
  }

  lemma NotMeans(x: Number, v: Word)
    requires Means(x, v)
    ensures Means(BitNot(x), Not(v))
  {
    PatternMeans(NotBits(Pattern(x)));
  }

  /** `>>> 0` reads a signed result back as the word it stands for. */
  lemma ShiftByZero(x: Number)
    ensures ShiftRightUnsigned(x, 0) == ToUint32(x)
  {
    assert Zeros(0) + Pattern(x)[..32] == Pattern(x);
    WordRoundTrip(ToUint32(x));
  }

  lemma ShiftIsShr(w: Word, n: nat)
    requires n < 32
    ensures ShiftRightUnsigned(w, n) == Shr(n, w)
  {
    assert ToUint32(w) == w;
  }

  /** The sum of two numbers stands for the sum of the words modulo 2^32. */
  lemma PlusMeans(x: Number, y: Number, v: Word, w: Word)
    requires ToUint32(x) == v && ToUint32(y) == w
    requires -SAFE < x + y < SAFE
    ensures ToUint32(Plus(x, y)) == Add(v, w)
  {
    var q := x / MODULUS + y / MODULUS;
    assert x + y == MODULUS * q + (v + w);
    AddMultiple(v + w, q);
  }

  lemma {:induction false} AddMultiple(x: int, q: int)
    ensures (x + MODULUS * q) % MODULUS == x % MODULUS
    decreases if q < 0 then -q else q
  {
    if q > 0 {
      AddMultiple(x, q - 1);
      assert (x + MODULUS * (q - 1) + MODULUS) % MODULUS == (x + MODULUS * (q - 1)) % MODULUS;
    } else if q < 0 {
      AddMultiple(x, q + 1);
      assert (x + MODULUS * (q + 1) - MODULUS) % MODULUS == (x + MODULUS * (q + 1)) % MODULUS;
    }
  }
}
