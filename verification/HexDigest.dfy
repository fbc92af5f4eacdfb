/** Rendering the eight words of a hash value: `word.toString(16).padStart(8, "0")`, joined. */
module HexDigest {
  import opened Words
  import F = Fips180
  import StableHash
  import opened ByteStrings
  import JsNumbers

  function Digit(d: nat): (c: char)
    requires d < 16
  {
    "0123456789abcdef"[d]
  }

  /** `n.toString(16)`, which writes no leading zero. */
  function ToString16(n: nat): (s: string)
    ensures s != ""
  {
    if n < 16 then [Digit(n)] else ToString16(n / 16) + [Digit(n % 16)]
  }

  /** `s.padStart(width, "0")` */
  function PadStart(s: string, width: nat): string {
    if |s| >= width then s else seq(width - |s|, _ => '0') + s
  }

  function Pow16(k: nat): (p: nat)
    ensures p > 0
  {
    if k == 0 then 1 else 16 * Pow16(k - 1)
  }

  /** Exactly `k` hexadecimal digits of `n`. */
  function Hex(n: nat, k: nat): (s: string)
    ensures |s| == k
  {
    if k == 0 then "" else Hex(n / 16, k - 1) + [Digit(n % 16)]
  }

  lemma {:induction false} ZeroDigits(k: nat)
    ensures Hex(0, k) == seq(k, _ => '0')
  {
    if k > 0 { ZeroDigits(k - 1); }
  }

  /** Padding a number that fits restores exactly the digits that `toString` left out. */
  lemma {:induction false} PadStartMeans(n: nat, k: nat)
    requires k > 0 && n < Pow16(k)
    ensures PadStart(ToString16(n), k) == Hex(n, k) && |ToString16(n)| <= k
  {
    if n < 16 {
      ZeroDigits(k - 1);
    } else {
      PadStartMeans(n / 16, k - 1);
      hide PadStart;
      PadStartAppends(ToString16(n / 16), Digit(n % 16), k);
    }
  }

  lemma PadStartAppends(s: string, c: char, k: nat)
    requires k > 0
    ensures PadStart(s + [c], k) == PadStart(s, k - 1) + [c]
  {
    if |s| < k - 1 {
      var zeros: string := seq(k - 1 - |s|, _ => '0');
      assert zeros + (s + [c]) == (zeros + s) + [c];
    }
  }

  lemma {:induction false} HexIsInjective(m: nat, n: nat, k: nat)
    requires m < Pow16(k) && n < Pow16(k) && Hex(m, k) == Hex(n, k)
    ensures m == n
  {
    if k > 0 {
      assert Hex(m, k)[..k - 1] == Hex(m / 16, k - 1) && Hex(n, k)[..k - 1] == Hex(n / 16, k - 1);
      HexIsInjective(m / 16, n / 16, k - 1);
      assert Digit(m % 16) == Hex(m, k)[k - 1] == Hex(n, k)[k - 1] == Digit(n % 16);
    }
  }

  lemma EightDigits()
    ensures Pow16(8) == MODULUS
  {
    assert Pow16(4) == 0x1_0000;
  }

  /** The sixty-four digits of a hash value. */
  function Digest(words: seq<Word>): (s: string)
    ensures |s| == 8 * |words|
  {
    if words == [] then "" else Digest(words[..|words| - 1]) + Hex(words[|words| - 1], 8)
  }

  lemma {:induction false} DigestIsInjective(v: seq<Word>, w: seq<Word>)
    requires |v| == |w| && Digest(v) == Digest(w)
    ensures v == w
  {
    if v != [] {
      var n := |v| - 1;
      assert Digest(v)[..8 * n] == Digest(v[..n]) && Digest(w)[..8 * n] == Digest(w[..n]);
      DigestIsInjective(v[..n], w[..n]);
      assert Digest(v)[8 * n..] == Hex(v[n], 8) && Digest(w)[8 * n..] == Hex(w[n], 8);
      EightDigits();
      HexIsInjective(v[n], w[n], 8);
      assert v == v[..n] + [v[n]] && w == w[..n] + [w[n]];
    }
  }

  function WordsOf(v: F.Vars): (s: seq<Word>)
    ensures |s| == 8
  {
    [v.a, v.b, v.c, v.d, v.e, v.f, v.g, v.h]
  }

  /** The hash of an encoded assertion: the hexadecimal SHA-256 of its bytes. */
  method StableAssertionHash(input: seq<Byte>) returns (r: string)
    requires 8 * |input| < JsNumbers.SAFE
    ensures r == Digest(WordsOf(F.Sha256(StableHash.VarsOf(StableHash.INITIAL), StableHash.CONSTANTS, BytesToBits(input))))
  {
    hide F.Sha256, Hex, PadStart, ToString16;
    var words := StableHash.HashWords(input, StableHash.INITIAL, StableHash.CONSTANTS);
    r := "";
    EightDigits();
    for i := 0 to 8
      invariant r == Digest(words[..i])
    {
      PadStartMeans(words[i], 8);
      r := r + PadStart(ToString16(words[i]), 8);
      assert words[..i + 1][..i] == words[..i];
    }
    assert words[..8] == words;
    assert WordsOf(StableHash.VarsOf(words)) == words;
  }
}
