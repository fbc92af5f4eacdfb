/** The tables of the hash loop are the constants that FIPS 180-4 defines, not merely some constants. */
module HashConstants {
  import opened Words
  import F = Fips180
  import StableHash

  function SquareRoot(p: nat): nat { if p < 4 then 1 else if p < 9 then 2 else if p < 16 then 3 else 4 }

  function CubeRoot(p: nat): nat {
    if p < 8 then 1 else if p < 27 then 2 else if p < 64 then 3 else if p < 125 then 4 else if p < 216 then 5 else 6
  }

  /** Section 5.3.3: `h` is the initial value for the prime `p`. */
  predicate IsInitialValue(p: nat, h: Word) { F.SquareRootFraction(p, SquareRoot(p), h) }

  /** Section 4.2.2: `k` is the round constant for the prime `p`. */
  predicate IsRoundConstant(p: nat, k: Word) { F.CubeRootFraction(p, CubeRoot(p), k) }

  predicate IsRow(ps: seq<nat>, ks: seq<Word>) {
    |ps| == |ks| && forall i :: 0 <= i < |ps| ==> IsRoundConstant(ps[i], ks[i])
  }

  /** The first eight primes give the initial hash value. */
  lemma InitialValues()
    ensures |F.PRIMES0| == |StableHash.INITIAL| == 8
    ensures forall i :: 0 <= i < 8 ==> IsInitialValue(F.PRIMES0[i], StableHash.INITIAL[i])
  {
    assert IsInitialValue(2, 0x6a09e667) && IsInitialValue(3, 0xbb67ae85) && IsInitialValue(5, 0x3c6ef372) && IsInitialValue(7, 0xa54ff53a);
    assert IsInitialValue(11, 0x510e527f) && IsInitialValue(13, 0x9b05688c) && IsInitialValue(17, 0x1f83d9ab) && IsInitialValue(19, 0x5be0cd19);
  }

  lemma Row0()
    ensures IsRow(F.PRIMES0, StableHash.ROW0)
  {
    assert IsRoundConstant(2, 0x428a2f98) && IsRoundConstant(3, 0x71374491) && IsRoundConstant(5, 0xb5c0fbcf) && IsRoundConstant(7, 0xe9b5dba5);
    assert IsRoundConstant(11, 0x3956c25b) && IsRoundConstant(13, 0x59f111f1) && IsRoundConstant(17, 0x923f82a4) && IsRoundConstant(19, 0xab1c5ed5);
  }

  lemma Row1()
    ensures IsRow(F.PRIMES1, StableHash.ROW1)
  {
    assert IsRoundConstant(23, 0xd807aa98) && IsRoundConstant(29, 0x12835b01) && IsRoundConstant(31, 0x243185be) && IsRoundConstant(37, 0x550c7dc3);
    assert IsRoundConstant(41, 0x72be5d74) && IsRoundConstant(43, 0x80deb1fe) && IsRoundConstant(47, 0x9bdc06a7) && IsRoundConstant(53, 0xc19bf174);
  }

  lemma Row2()
    ensures IsRow(F.PRIMES2, StableHash.ROW2)
  {
    assert IsRoundConstant(59, 0xe49b69c1) && IsRoundConstant(61, 0xefbe4786) && IsRoundConstant(67, 0x0fc19dc6) && IsRoundConstant(71, 0x240ca1cc);
    assert IsRoundConstant(73, 0x2de92c6f) && IsRoundConstant(79, 0x4a7484aa) && IsRoundConstant(83, 0x5cb0a9dc) && IsRoundConstant(89, 0x76f988da);
  }

  lemma Row3()
    ensures IsRow(F.PRIMES3, StableHash.ROW3)
  {
    assert IsRoundConstant(97, 0x983e5152) && IsRoundConstant(101, 0xa831c66d) && IsRoundConstant(103, 0xb00327c8) && IsRoundConstant(107, 0xbf597fc7);
    assert IsRoundConstant(109, 0xc6e00bf3) && IsRoundConstant(113, 0xd5a79147) && IsRoundConstant(127, 0x06ca6351) && IsRoundConstant(131, 0x14292967);
  }

  lemma Row4()
    ensures IsRow(F.PRIMES4, StableHash.ROW4)
  {
    assert IsRoundConstant(137, 0x27b70a85) && IsRoundConstant(139, 0x2e1b2138) && IsRoundConstant(149, 0x4d2c6dfc) && IsRoundConstant(151, 0x53380d13);
    assert IsRoundConstant(157, 0x650a7354) && IsRoundConstant(163, 0x766a0abb) && IsRoundConstant(167, 0x81c2c92e) && IsRoundConstant(173, 0x92722c85);
  }

  lemma Row5()
    ensures IsRow(F.PRIMES5, StableHash.ROW5)
  {
    assert IsRoundConstant(179, 0xa2bfe8a1) && IsRoundConstant(181, 0xa81a664b) && IsRoundConstant(191, 0xc24b8b70) && IsRoundConstant(193, 0xc76c51a3);
    assert IsRoundConstant(197, 0xd192e819) && IsRoundConstant(199, 0xd6990624) && IsRoundConstant(211, 0xf40e3585) && IsRoundConstant(223, 0x106aa070);
  }

  lemma Row6()
    ensures IsRow(F.PRIMES6, StableHash.ROW6)
  {
    assert IsRoundConstant(227, 0x19a4c116) && IsRoundConstant(229, 0x1e376c08) && IsRoundConstant(233, 0x2748774c) && IsRoundConstant(239, 0x34b0bcb5);
    assert IsRoundConstant(241, 0x391c0cb3) && IsRoundConstant(251, 0x4ed8aa4a) && IsRoundConstant(257, 0x5b9cca4f) && IsRoundConstant(263, 0x682e6ff3);
  }

  lemma Row7()
    ensures IsRow(F.PRIMES7, StableHash.ROW7)
  {
    assert IsRoundConstant(269, 0x748f82ee) && IsRoundConstant(271, 0x78a5636f) && IsRoundConstant(277, 0x84c87814) && IsRoundConstant(281, 0x8cc70208);
    assert IsRoundConstant(283, 0x90befffa) && IsRoundConstant(293, 0xa4506ceb) && IsRoundConstant(307, 0xbef9a3f7) && IsRoundConstant(311, 0xc67178f2);
  }

  /** The first sixty-four primes, in order, give the round constants. */
  lemma RoundConstants()
    ensures IsRow(F.PRIMES0 + F.PRIMES1 + F.PRIMES2 + F.PRIMES3 + F.PRIMES4 + F.PRIMES5 + F.PRIMES6 + F.PRIMES7,
                  StableHash.CONSTANTS)
  {
    Row0();
    Row1();
    Row2();
    Row3();
    Row4();
    Row5();
    Row6();
    Row7();
    hide IsRoundConstant;
  }
}
