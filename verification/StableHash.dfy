/** `stableAssertionHash`: the hand-written hash loop over ECMAScript numbers computes SHA-256. */
module StableHash {
  import opened Words
  import opened JsNumbers
  import opened ByteStrings
  import F = Fips180

  const INITIAL: seq<Word> := [
    0x6a09e667, 0xbb67ae85, 0x3c6ef372, 0xa54ff53a, 0x510e527f, 0x9b05688c, 0x1f83d9ab, 0x5be0cd19]

  const ROW0: seq<Word> := [0x428a2f98, 0x71374491, 0xb5c0fbcf, 0xe9b5dba5, 0x3956c25b, 0x59f111f1, 0x923f82a4, 0xab1c5ed5]
  const ROW1: seq<Word> := [0xd807aa98, 0x12835b01, 0x243185be, 0x550c7dc3, 0x72be5d74, 0x80deb1fe, 0x9bdc06a7, 0xc19bf174]
  const ROW2: seq<Word> := [0xe49b69c1, 0xefbe4786, 0x0fc19dc6, 0x240ca1cc, 0x2de92c6f, 0x4a7484aa, 0x5cb0a9dc, 0x76f988da]
  const ROW3: seq<Word> := [0x983e5152, 0xa831c66d, 0xb00327c8, 0xbf597fc7, 0xc6e00bf3, 0xd5a79147, 0x06ca6351, 0x14292967]
  const ROW4: seq<Word> := [0x27b70a85, 0x2e1b2138, 0x4d2c6dfc, 0x53380d13, 0x650a7354, 0x766a0abb, 0x81c2c92e, 0x92722c85]
  const ROW5: seq<Word> := [0xa2bfe8a1, 0xa81a664b, 0xc24b8b70, 0xc76c51a3, 0xd192e819, 0xd6990624, 0xf40e3585, 0x106aa070]
  const ROW6: seq<Word> := [0x19a4c116, 0x1e376c08, 0x2748774c, 0x34b0bcb5, 0x391c0cb3, 0x4ed8aa4a, 0x5b9cca4f, 0x682e6ff3]
  const ROW7: seq<Word> := [0x748f82ee, 0x78a5636f, 0x84c87814, 0x8cc70208, 0x90befffa, 0xa4506ceb, 0xbef9a3f7, 0xc67178f2]
  const CONSTANTS: seq<Word> := ROW0 + ROW1 + ROW2 + ROW3 + ROW4 + ROW5 + ROW6 + ROW7

  function VarsOf(s: seq<Word>): F.Vars
    requires |s| == 8
  {
    F.Vars(s[0], s[1], s[2], s[3], s[4], s[5], s[6], s[7])
  }

  /** The `rotate` helper of the source. */
  function Rotate(word: Word, count: nat): Number
    requires 0 < count < 32
  {
    BitOr(ShiftRightUnsigned(word, count), ShiftLeft(word, 32 - count))
  }

  // ----- each expression of the loop stands for a function of the standard -----

  lemma ShiftsMakeRotation(b: seq<bool>, n: nat)
    requires |b| == 32 && 0 < n < 32
    ensures OrBits(Zeros(n) + b[..32 - n], b[32 - n..] + Zeros(32 - n)) == b[32 - n..] + b[..32 - n]
  {
  }

  lemma LeftShiftPattern(w: Word, n: nat)
    requires n < 32
    ensures Pattern(ShiftLeft(w, n)) == ToBits(w)[n..] + Zeros(n)
  {
    assert ToUint32(w) == w;
    var left := ToBits(w)[n..] + Zeros(n);
    PatternMeans(left);
    BitsRoundTrip(left);
  }

  lemma RightShiftPattern(w: Word, n: nat)
    requires n < 32
    ensures Pattern(ShiftRightUnsigned(w, n)) == Zeros(n) + ToBits(w)[..32 - n]
  {
    hide Bits, Num;
    assert ToUint32(w) == w;
    var right := Zeros(n) + ToBits(w)[..32 - n];
    BitsRoundTrip(right);
    assert ToUint32(OfBits(right)) == OfBits(right);
  }

  lemma RotateMeans(w: Word, n: nat)
    requires 0 < n < 32
    ensures Means(Rotate(w, n), RotR(n, w))
  {
    LeftShiftPattern(w, 32 - n);
    RightShiftPattern(w, n);
    ShiftsMakeRotation(ToBits(w), n);
    PatternMeans(OrBits(Pattern(ShiftRightUnsigned(w, n)), Pattern(ShiftLeft(w, 32 - n))));
  }

  lemma LowerSigma0Means(w: Word)
    ensures Means(BitXor(BitXor(Rotate(w, 7), Rotate(w, 18)), ShiftRightUnsigned(w, 3)), F.LowerSigma0(w))
  {
    hide BitXor, Rotate, ShiftRightUnsigned, Xor, RotR, Shr;
    RotateMeans(w, 7);
    RotateMeans(w, 18);
    ShiftIsShr(w, 3);
    XorMeans(Rotate(w, 7), Rotate(w, 18), RotR(7, w), RotR(18, w));
    XorMeans(BitXor(Rotate(w, 7), Rotate(w, 18)), Shr(3, w), Xor(RotR(7, w), RotR(18, w)), Shr(3, w));
  }

  lemma LowerSigma1Means(w: Word)
    ensures Means(BitXor(BitXor(Rotate(w, 17), Rotate(w, 19)), ShiftRightUnsigned(w, 10)), F.LowerSigma1(w))
  {
    hide BitXor, Rotate, ShiftRightUnsigned, Xor, RotR, Shr;
    RotateMeans(w, 17);
    RotateMeans(w, 19);
    ShiftIsShr(w, 10);
    XorMeans(Rotate(w, 17), Rotate(w, 19), RotR(17, w), RotR(19, w));
    XorMeans(BitXor(Rotate(w, 17), Rotate(w, 19)), Shr(10, w), Xor(RotR(17, w), RotR(19, w)), Shr(10, w));
  }

  lemma ThreeRotations(w: Word, i: nat, j: nat, k: nat)
    requires 0 < i < 32 && 0 < j < 32 && 0 < k < 32
    ensures Means(BitXor(BitXor(Rotate(w, i), Rotate(w, j)), Rotate(w, k)), Xor(Xor(RotR(i, w), RotR(j, w)), RotR(k, w)))
  {
    hide BitXor, Rotate, Xor, RotR;
    RotateMeans(w, i);
    RotateMeans(w, j);
    RotateMeans(w, k);
    XorMeans(Rotate(w, i), Rotate(w, j), RotR(i, w), RotR(j, w));
    XorMeans(BitXor(Rotate(w, i), Rotate(w, j)), Rotate(w, k), Xor(RotR(i, w), RotR(j, w)), RotR(k, w));
  }

  lemma ChoiceMeans(e: Word, f: Word, g: Word)
    ensures Means(BitXor(BitAnd(e, f), BitAnd(BitNot(e), g)), F.Ch(e, f, g))
  {
    hide BitXor, BitAnd, BitNot, Xor, And, Not;
    AndMeans(e, f, e, f);
    NotMeans(e, e);
    AndMeans(BitNot(e), g, Not(e), g);
    XorMeans(BitAnd(e, f), BitAnd(BitNot(e), g), And(e, f), And(Not(e), g));
  }

  lemma MajorityMeans(a: Word, b: Word, c: Word)
    ensures Means(BitXor(BitXor(BitAnd(a, b), BitAnd(a, c)), BitAnd(b, c)), F.Maj(a, b, c))
  {
    hide BitXor, BitAnd, Xor, And;
    AndMeans(a, b, a, b);
    AndMeans(a, c, a, c);
    AndMeans(b, c, b, c);
    XorMeans(BitAnd(a, b), BitAnd(a, c), And(a, b), And(a, c));
    XorMeans(BitXor(BitAnd(a, b), BitAnd(a, c)), BitAnd(b, c), Xor(And(a, b), And(a, c)), And(b, c));
  }

  // ----- sums -----

  /** `(x + y) >>> 0` on two numbers that stand for words. */
  lemma SumTwo(x: Number, y: Number, v: Word, w: Word)
    requires Means(x, v) && Means(y, w)
    ensures ShiftRightUnsigned(Plus(x, y), 0) == Add(v, w)
  {
    PlusMeans(x, y, v, w);
    ShiftByZero(Plus(x, y));
  }

  /** The four-term sum of the message schedule, in the order of the source. */
  lemma ScheduleSum(w16: Word, s0: Number, w7: Word, s1: Number, v0: Word, v1: Word)
    requires Means(s0, v0) && Means(s1, v1)
    ensures ShiftRightUnsigned(Plus(Plus(Plus(w16, s0), w7), s1), 0) == Add(Add(v1, w7), Add(v0, w16))
  {
    hide ShiftRightUnsigned;
    PlusMeans(w16, s0, w16, v0);
    PlusMeans(Plus(w16, s0), w7, Add(w16, v0), w7);
    PlusMeans(Plus(Plus(w16, s0), w7), s1, Add(Add(w16, v0), w7), v1);
    ShiftByZero(Plus(Plus(Plus(w16, s0), w7), s1));
    AddAssociates(v1, w7, Add(v0, w16));
    AddAssociates(Add(w16, v0), w7, v1);
  }

  lemma AddAssociates(x: Word, y: Word, z: Word)
    ensures Add(Add(x, y), z) == Add(x, Add(y, z))
  {
  }

  lemma Temporary1Sum(v: F.Vars, sum1: Number, choice: Number, k: Word, w: Word)
    requires Means(sum1, F.UpperSigma1(v.e)) && Means(choice, F.Ch(v.e, v.f, v.g))
    ensures ShiftRightUnsigned(Plus(Plus(Plus(Plus(v.h, sum1), choice), k), w), 0) == F.Temporary1(v, k, w)
  {
    hide ShiftRightUnsigned, F.UpperSigma1, F.Ch, Add;
    var s1 := Plus(v.h, sum1);
    var s2 := Plus(s1, choice);
    var s3 := Plus(s2, k);
    PlusMeans(v.h, sum1, v.h, F.UpperSigma1(v.e));
    PlusMeans(s1, choice, Add(v.h, F.UpperSigma1(v.e)), F.Ch(v.e, v.f, v.g));
    PlusMeans(s2, k, Add(Add(v.h, F.UpperSigma1(v.e)), F.Ch(v.e, v.f, v.g)), k);
    PlusMeans(s3, w, Add(Add(Add(v.h, F.UpperSigma1(v.e)), F.Ch(v.e, v.f, v.g)), k), w);
    ShiftByZero(Plus(s3, w));
  }

  // ----- padding -----

  method SetUint32(bytes: array<Byte>, at: nat, w: Word)
    requires at + 4 <= bytes.Length
    modifies bytes
    ensures bytes[..] == old(bytes[..at]) + BigEndian(w) + old(bytes[at + 4..])
  {
    var field := BigEndian(w);
    bytes[at], bytes[at + 1], bytes[at + 2], bytes[at + 3] := field[0], field[1], field[2], field[3];
  }

  /** The padded length is a whole number of blocks and leaves room for the marker and the length, barely. */
  lemma PaddedLength(n: nat)
    ensures
      var padded := (n + 9 + 63) / 64 * 64;
      n + 9 <= padded && padded % 64 == 0 && 7 + 8 * (padded - n - 9) == F.ZeroCount(8 * n)
  {
  }

  lemma PaddedBits(input: seq<Byte>, zeros: nat, hi: Word, lo: Word)
    requires 7 + 8 * zeros == F.ZeroCount(8 * |input|)
    requires 8 * |input| == hi * MODULUS + lo
    ensures BytesToBits(input + [0x80] + seq(zeros, _ => 0) + BigEndian(hi) + BigEndian(lo)) == F.Pad(BytesToBits(input))
  {
    var z: seq<Byte> := seq(zeros, _ => 0);
    BytesConcat(input + [0x80] + z + BigEndian(hi), BigEndian(lo));
    BytesConcat(input + [0x80] + z, BigEndian(hi));
    BigEndianBits(hi);
    BigEndianBits(lo);
    TwoWords(hi, lo);
    MarkedBits(input, zeros);
    var m := BytesToBits(input);
    Regroup(m + [true] + Zeros(F.ZeroCount(|m|)), ToBits(hi), ToBits(lo));
  }

  lemma Regroup(a: seq<bool>, b: seq<bool>, c: seq<bool>)
    ensures a + b + c == a + (b + c)
  {
  }

  lemma MarkedBits(input: seq<Byte>, zeros: nat)
    ensures BytesToBits(input + [0x80] + seq(zeros, _ => 0)) == BytesToBits(input) + [true] + Zeros(7 + 8 * zeros)
  {
    var z: seq<Byte> := seq(zeros, _ => 0);
    BytesConcat(input + [0x80], z);
    BytesConcat(input, [0x80]);
    MarkerByte();
    ZeroBytes(zeros);
    assert Zeros(7) + Zeros(8 * zeros) == Zeros(7 + 8 * zeros);
    Regroup(BytesToBits(input), [true], Zeros(7));
    Regroup(BytesToBits(input) + [true], Zeros(7), Zeros(8 * zeros));
  }

  method PadInput(input: seq<Byte>) returns (bytes: array<Byte>)
    requires 8 * |input| < SAFE
    ensures fresh(bytes) && bytes.Length % 64 == 0
    ensures BytesToBits(bytes[..]) == F.Pad(BytesToBits(input))
  {
    var bitLength: Number := |input| * 8;
    var paddedLength := (|input| + 9 + 63) / 64 * 64;
    PaddedLength(|input|);
    bytes := new Byte[paddedLength](_ => 0);
    forall i | 0 <= i < |input| { bytes[i] := input[i]; }
    bytes[|input|] := 0x80;
    ghost var zeros := paddedLength - |input| - 9;
    assert bytes[..] == input + [0x80] + seq(zeros, _ => 0) + seq(8, _ => 0);
    SetUint32(bytes, paddedLength - 8, bitLength / MODULUS);
    assert bytes[..] == input + [0x80] + seq(zeros, _ => 0) + BigEndian(bitLength / MODULUS) + seq(4, _ => 0);
    ShiftByZero(bitLength);
    SetUint32(bytes, paddedLength - 4, ShiftRightUnsigned(bitLength, 0));
    assert bytes[..] == input + [0x80] + seq(zeros, _ => 0) + BigEndian(bitLength / MODULUS) + BigEndian(bitLength % MODULUS);
    PaddedBits(input, zeros, bitLength / MODULUS, bitLength % MODULUS);
  }

  // ----- the message schedule of one block -----

  /** `getUint32` at word `t` of the block that starts at byte `offset`. */
  method GetUint32(bytes: array<Byte>, offset: nat, t: nat) returns (w: Word)
    requires offset + 64 <= bytes.Length && t < 16
    ensures w == F.BlockWord(BytesToBits(bytes[..])[8 * offset..8 * (offset + 64)], t)
  {
    hide BytesToBits, FromBigEndian, OfBits, F.Schedule;
    var at := offset + 4 * t;
    w := FromBigEndian(bytes[at..at + 4]);
    FieldBits(bytes[at..at + 4]);
    BytesSlice(bytes[..], at, at + 4);
    assert bytes[..][at..at + 4] == bytes[at..at + 4];
    SliceOfSlice(BytesToBits(bytes[..]), 8 * offset, 512, 32 * t, 32);
  }

  lemma SliceOfSlice(b: seq<bool>, i: nat, n: nat, j: nat, m: nat)
    requires i + n <= |b| && j + m <= n
    ensures b[i..i + n][j..j + m] == b[i + j..i + j + m]
  {
    var block := b[i..i + n];
    var inner, outer := block[j..j + m], b[i + j..i + j + m];
    assert forall k :: 0 <= k < m ==> inner[k] == outer[k];
  }

  method ExpandSchedule(bytes: array<Byte>, offset: nat, schedule: array<Word>)
    requires offset + 64 <= bytes.Length && schedule.Length == 64
    modifies schedule
    ensures var block := BytesToBits(bytes[..])[8 * offset..8 * (offset + 64)];
      forall t :: 0 <= t < 64 ==> schedule[t] == F.Schedule(block, t)
  {
    hide F.LowerSigma0, F.LowerSigma1, F.BlockWord, Rotate, BitXor, ShiftRightUnsigned;
    ghost var block := BytesToBits(bytes[..])[8 * offset..8 * (offset + 64)];
    for index := 0 to 16
      invariant bytes[..] == old(bytes[..])
      invariant forall t :: 0 <= t < index ==> schedule[t] == F.Schedule(block, t)
    {
      schedule[index] := GetUint32(bytes, offset, index);
    }
    for index := 16 to 64
      invariant bytes[..] == old(bytes[..])
      invariant forall t :: 0 <= t < index ==> schedule[t] == F.Schedule(block, t)
    {
      var left, right := schedule[index - 15], schedule[index - 2];
      LowerSigma0Means(left);
      LowerSigma1Means(right);
      var s0 := BitXor(BitXor(Rotate(left, 7), Rotate(left, 18)), ShiftRightUnsigned(left, 3));
      var s1 := BitXor(BitXor(Rotate(right, 17), Rotate(right, 19)), ShiftRightUnsigned(right, 10));
      ScheduleSum(schedule[index - 16], s0, schedule[index - 7], s1, F.LowerSigma0(left), F.LowerSigma1(right));
      schedule[index] := ShiftRightUnsigned(Plus(Plus(Plus(schedule[index - 16], s0), schedule[index - 7]), s1), 0);
    }
  }

  // ----- the sixty-four rounds of one block -----

  method Temporary1(v: F.Vars, k: Word, w: Word) returns (t: Word)
    ensures t == F.Temporary1(v, k, w)
  {
    var sum1 := BitXor(BitXor(Rotate(v.e, 6), Rotate(v.e, 11)), Rotate(v.e, 25));
    var choice := BitXor(BitAnd(v.e, v.f), BitAnd(BitNot(v.e), v.g));
    ThreeRotations(v.e, 6, 11, 25);
    ChoiceMeans(v.e, v.f, v.g);
    Temporary1Sum(v, sum1, choice, k, w);
    t := ShiftRightUnsigned(Plus(Plus(Plus(Plus(v.h, sum1), choice), k), w), 0);
  }

  method Temporary2(v: F.Vars) returns (t: Word)
    ensures t == F.Temporary2(v)
  {
    var sum0 := BitXor(BitXor(Rotate(v.a, 2), Rotate(v.a, 13)), Rotate(v.a, 22));
    var majority := BitXor(BitXor(BitAnd(v.a, v.b), BitAnd(v.a, v.c)), BitAnd(v.b, v.c));
    ThreeRotations(v.a, 2, 13, 22);
    MajorityMeans(v.a, v.b, v.c);
    SumTwo(sum0, majority, F.UpperSigma0(v.a), F.Maj(v.a, v.b, v.c));
    t := ShiftRightUnsigned(Plus(sum0, majority), 0);
  }

  /** One iteration of the round loop on the eight working variables. */
  method RunRound(v: F.Vars, k: Word, w: Word) returns (n: F.Vars)
    ensures n == F.Round(v, k, w)
  {
    hide F.Temporary1, F.Temporary2;
    var a, b, c, d, e, f, g, h := v.a, v.b, v.c, v.d, v.e, v.f, v.g, v.h;
    var temporary1 := Temporary1(v, k, w);
    var temporary2 := Temporary2(v);
    SumTwo(d, temporary1, d, temporary1);
    SumTwo(temporary1, temporary2, temporary1, temporary2);
    h := g;
    g := f;
    f := e;
    e := ShiftRightUnsigned(Plus(d, temporary1), 0);
    d := c;
    c := b;
    b := a;
    a := ShiftRightUnsigned(Plus(temporary1, temporary2), 0);
    n := F.Vars(a, b, c, d, e, f, g, h);
  }

  method AddWord(state: array<Word>, i: nat, x: Word)
    requires i < state.Length
    modifies state
    ensures state[..] == old(state[..])[i := Add(old(state[i]), x)]
  {
    SumTwo(state[i], x, state[i], x);
    state[i] := ShiftRightUnsigned(Plus(state[i], x), 0);
  }

  /** The eight additions that end a block. */
  method AddState(state: array<Word>, v: F.Vars)
    requires state.Length == 8
    modifies state
    ensures VarsOf(state[..]) == F.AddAll(v, old(VarsOf(state[..])))
  {
    AddCommutes(v, VarsOf(state[..]));
    AddWord(state, 0, v.a);
    AddWord(state, 1, v.b);
    AddWord(state, 2, v.c);
    AddWord(state, 3, v.d);
    AddWord(state, 4, v.e);
    AddWord(state, 5, v.f);
    AddWord(state, 6, v.g);
    AddWord(state, 7, v.h);
  }

  method CompressBlock(state: array<Word>, ks: seq<Word>, schedule: array<Word>, ghost block: seq<bool>)
    requires state.Length == 8 && |ks| == 64 && schedule.Length == 64 && state != schedule && |block| == 512
    requires forall t :: 0 <= t < 64 ==> schedule[t] == F.Schedule(block, t)
    modifies state
    ensures VarsOf(state[..]) == F.Compress(old(VarsOf(state[..])), ks, block)
  {
    var v := VarsOf(state[..]);
    for index := 0 to |ks|
      invariant v == F.Rounds(VarsOf(old(state[..])), ks, block, index)
      invariant state[..] == old(state[..])
    {
      v := RunRound(v, ks[index], schedule[index]);
    }
    AddState(state, v);
  }

  lemma AddCommutes(v: F.Vars, w: F.Vars)
    ensures F.AddAll(v, w) == F.AddAll(w, v)
  {
  }

  // ----- the whole hash -----

  /** One iteration of the block loop. */
  method ProcessBlock(bytes: array<Byte>, n: nat, state: array<Word>, ks: seq<Word>, schedule: array<Word>)
    requires 64 * n + 64 <= bytes.Length && state.Length == 8 && |ks| == 64 && schedule.Length == 64 && state != schedule
    modifies state, schedule
    ensures bytes[..] == old(bytes[..])
    ensures VarsOf(state[..]) == F.Compress(old(VarsOf(state[..])), ks, BytesToBits(bytes[64 * n..64 * n + 64]))
  {
    hide F.Compress, F.Schedule;
    BytesSlice(bytes[..], 64 * n, 64 * n + 64);
    assert bytes[..][64 * n..64 * n + 64] == bytes[64 * n..64 * n + 64];
    ExpandSchedule(bytes, 64 * n, schedule);
    CompressBlock(state, ks, schedule, BytesToBits(bytes[64 * n..64 * n + 64]));
  }

  lemma NextBlock(v: F.Vars, ks: seq<Word>, s: seq<Byte>, n: nat)
    requires |ks| == 64 && 64 * n + 64 <= |s|
    ensures F.HashBlocks(v, ks, BytesToBits(s), n + 1)
      == F.Compress(F.HashBlocks(v, ks, BytesToBits(s), n), ks, BytesToBits(s[64 * n..64 * n + 64]))
  {
    hide F.Compress;
    BytesSlice(s, 64 * n, 64 * n + 64);
  }

  lemma FirstBlock(v: F.Vars, ks: seq<Word>, s: seq<Byte>)
    requires |ks| == 64
    ensures F.HashBlocks(v, ks, BytesToBits(s), 0) == v
  {
  }

  lemma LastBlock(v: F.Vars, ks: seq<Word>, s: seq<Byte>, n: nat, m: seq<bool>)
    requires |ks| == 64 && |s| == 64 * n && BytesToBits(s) == F.Pad(m)
    ensures F.HashBlocks(v, ks, BytesToBits(s), n) == F.Sha256(v, ks, m)
  {
    hide F.Compress, F.Pad, F.HashBlocks, BytesToBits;
    assert 8 * |s| / 512 == n;
  }

  method HashWords(input: seq<Byte>, initial: seq<Word>, ks: seq<Word>) returns (words: seq<Word>)
    requires 8 * |input| < SAFE && |initial| == 8 && |ks| == 64
    ensures |words| == 8 && VarsOf(words) == F.Sha256(VarsOf(initial), ks, BytesToBits(input))
  {
    hide *;
    var bytes := PadInput(input);
    ghost var padded := bytes[..];
    var state := new Word[8](i requires 0 <= i < 8 => initial[i]);
    assert state[..] == initial;
    var schedule := new Word[64];
    var offset := 0;
    ghost var v, n := VarsOf(initial), 0;
    FirstBlock(VarsOf(initial), ks, padded);
    while offset < bytes.Length
      invariant offset == 64 * n <= bytes.Length
      invariant bytes[..] == padded
      invariant v == VarsOf(state[..]) == F.HashBlocks(VarsOf(initial), ks, BytesToBits(padded), n)
    {
      NextBlock(VarsOf(initial), ks, padded, n);
      assert bytes[64 * n..64 * n + 64] == padded[64 * n..64 * n + 64];
      ProcessBlock(bytes, offset / 64, state, ks, schedule);
      offset, n, v := offset + 64, n + 1, VarsOf(state[..]);
    }
    words := state[..];
    LastBlock(VarsOf(initial), ks, padded, n, BytesToBits(input));
  }
}
