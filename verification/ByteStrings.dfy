/** Byte strings as bit strings, most significant bit first, and big-endian 32-bit fields inside them. */
module ByteStrings {
  import opened Words

  function BytesToBits(s: seq<Byte>): (b: seq<bool>)
    ensures |b| == 8 * |s|
  {
    if s == [] then [] else BytesToBits(s[..|s| - 1]) + Bits(s[|s| - 1], 8)
  }

  /** The four bytes that `setUint32` writes and `getUint32` reads, most significant first. */
  function BigEndian(w: Word): (s: seq<Byte>)
    ensures |s| == 4
  {
    [w / 0x100_0000, w / 0x1_0000 % 0x100, w / 0x100 % 0x100, w % 0x100]
  }

  function FromBigEndian(s: seq<Byte>): Word
    requires |s| == 4
  {
    s[0] as int * 0x100_0000 + s[1] as int * 0x1_0000 + s[2] as int * 0x100 + s[3]
  }

  lemma {:induction false} BytesConcat(s: seq<Byte>, t: seq<Byte>)
    ensures BytesToBits(s + t) == BytesToBits(s) + BytesToBits(t)
  {
    if t == [] {
      assert s + t == s;
    } else {
      var st := s + t;
      assert st[..|st| - 1] == s + t[..|t| - 1];
      BytesConcat(s, t[..|t| - 1]);
    }
  }

  lemma BytesSlice(s: seq<Byte>, i: nat, j: nat)
    requires i <= j <= |s|
    ensures BytesToBits(s)[8 * i..8 * j] == BytesToBits(s[i..j])
  {
    hide BytesToBits;
    SplitsInThree(s, i, j);
    BytesMiddle(s[..i], s[i..j], s[j..]);
  }

  lemma SplitsInThree(s: seq<Byte>, i: nat, j: nat)
    requires i <= j <= |s|
    ensures s[..i] + s[i..j] + s[j..] == s
  {
  }

  lemma BytesMiddle(x: seq<Byte>, y: seq<Byte>, z: seq<Byte>)
    ensures BytesToBits(x + y + z)[8 * |x|..8 * (|x| + |y|)] == BytesToBits(y)
  {
    hide BytesToBits;
    BytesConcat(x + y, z);
    BytesConcat(x, y);
    var p := BytesToBits(x) + BytesToBits(y) + BytesToBits(z);
    assert p[8 * |x|..8 * (|x| + |y|)] == BytesToBits(y);
  }

  lemma {:induction false} ZeroBytes(n: nat)
    ensures BytesToBits(seq(n, _ => 0)) == Zeros(8 * n)
  {
    if n > 0 {
      var s: seq<Byte> := seq(n, _ => 0);
      assert s[..n - 1] == seq(n - 1, _ => 0);
      ZeroBytes(n - 1);
      ZeroBits(8);
      assert BytesToBits(s) == Zeros(8 * (n - 1)) + Zeros(8);
    }
  }

  lemma {:induction false} ZeroBits(n: nat)
    ensures Bits(0, n) == Zeros(n)
  {
    if n > 0 { ZeroBits(n - 1); }
  }

  lemma MarkerByte()
    ensures BytesToBits([0x80]) == [true] + Zeros(7)
  {
    var s: seq<Byte> := [0x80];
    assert s[..0] == [];
    assert BytesToBits(s[..0]) == [];
    assert Bits(2, 2) == [true, false];
    assert Bits(8, 4) == Bits(4, 3) + [false];
    assert Bits(4, 3) == Bits(2, 2) + [false];
    assert Bits(16, 5) == Bits(8, 4) + [false];
    assert Bits(32, 6) == Bits(16, 5) + [false];
    assert Bits(64, 7) == Bits(32, 6) + [false];
    assert Bits(128, 8) == Bits(64, 7) + [false];
  }

  lemma ByteNum(x: Byte)
    ensures Num(Bits(x, 8)) == x
  {
    PowersOfTwo();
    NumOfBits(x, 8);
  }

  /** Reading four bytes as a number is reading their bits as a number. */
  lemma FieldBits(s: seq<Byte>)
    requires |s| == 4
    ensures OfBits(BytesToBits(s)) == FromBigEndian(s)
  {
    PowersOfTwo();
    ByteNum(s[0]); ByteNum(s[1]); ByteNum(s[2]); ByteNum(s[3]);
    var b0, b1, b2, b3 := Bits(s[0], 8), Bits(s[1], 8), Bits(s[2], 8), Bits(s[3], 8);
    FourBytes(s);
    NumAppend(b0 + b1 + b2, b3);
    NumAppend(b0 + b1, b2);
    NumAppend(b0, b1);
  }

  lemma FourBytes(s: seq<Byte>)
    requires |s| == 4
    ensures BytesToBits(s) == Bits(s[0], 8) + Bits(s[1], 8) + Bits(s[2], 8) + Bits(s[3], 8)
  {
    var s1, s2, s3 := s[..1], s[..2], s[..3];
    assert s1[..0] == [] && s2[..1] == s1 && s3[..2] == s2 && s[..3] == s3;
    assert BytesToBits(s1) == Bits(s[0], 8);
    assert BytesToBits(s2) == Bits(s[0], 8) + Bits(s[1], 8);
  }

  lemma FieldRoundTrip(w: Word)
    ensures FromBigEndian(BigEndian(w)) == w
  {
    var q1, q2, q3 := w / 0x100, w / 0x1_0000, w / 0x100_0000;
    assert q2 == q1 / 0x100;
    assert q3 == q2 / 0x100;
  }

  /** `setUint32` writes exactly the bits of the word. */
  lemma BigEndianBits(w: Word)
    ensures BytesToBits(BigEndian(w)) == ToBits(w)
  {
    FieldRoundTrip(w);
    FieldBits(BigEndian(w));
    BitsRoundTrip(BytesToBits(BigEndian(w)));
  }

  /** Two words make the sixty-four bits of a number. */
  lemma TwoWords(hi: Word, lo: Word)
    ensures Bits(hi * MODULUS + lo, 64) == ToBits(hi) + ToBits(lo)
  {
    PowersOfTwo();
    NumOfBits(hi, 32);
    NumOfBits(lo, 32);
    NumAppend(ToBits(hi), ToBits(lo));
    BitsOfNum(ToBits(hi) + ToBits(lo));
  }
}
