/** The word operations of section 4.1.2 of FIPS 180-4, on 32-bit words. */
module Words {
  function Rotr(x: bv32, n: bv6): bv32
    requires 0 < n < 32
  {
    (x >> n) | (x << (32 - n))
  }

  function Ch(x: bv32, y: bv32, z: bv32): bv32 {
    (x & y) ^ (!x & z)
  }

  function Maj(x: bv32, y: bv32, z: bv32): bv32 {
    (x & y) ^ (x & z) ^ (y & z)
  }

  function BigSigma0(x: bv32): bv32 {
    Rotr(x, 2) ^ Rotr(x, 13) ^ Rotr(x, 22)
  }

  function BigSigma1(x: bv32): bv32 {
    Rotr(x, 6) ^ Rotr(x, 11) ^ Rotr(x, 25)
  }

  function SmallSigma0(x: bv32): bv32 {
    Rotr(x, 7) ^ Rotr(x, 18) ^ (x >> 3)
  }

  function SmallSigma1(x: bv32): bv32 {
    Rotr(x, 17) ^ Rotr(x, 19) ^ (x >> 10)
  }

  /** The recurrence of the message schedule, on W_{t-2}, W_{t-7}, W_{t-15} and W_{t-16}. */
  function NextWord(w2: bv32, w7: bv32, w15: bv32, w16: bv32): bv32 {
    SmallSigma1(w2) + w7 + SmallSigma0(w15) + w16
  }

  datatype Working = Working(a: bv32, b: bv32, c: bv32, d: bv32, e: bv32, f: bv32, g: bv32, h: bv32)

  function T1(e: bv32, f: bv32, g: bv32, h: bv32, k: bv32, w: bv32): bv32 {
    h + BigSigma1(e) + Ch(e, f, g) + k + w
  }

  function T2(a: bv32, b: bv32, c: bv32): bv32 {
    BigSigma0(a) + Maj(a, b, c)
  }

  /** Addition modulo 2^32. */
  function Plus(x: bv32, y: bv32): bv32 {
    x + y
  }

  /** One round on the working variables, with schedule word w and constant k. */
  function Round(v: Working, w: bv32, k: bv32): Working {
    var t1, t2 := T1(v.e, v.f, v.g, v.h, k, w), T2(v.a, v.b, v.c);
    Working(Plus(t1, t2), v.a, v.b, v.c, Plus(v.d, t1), v.e, v.f, v.g)
  }

  /** One round as the code assigns it: every variable moves down one place, two take sums. */
  method Roll(v: Working, w: bv32, k: bv32) returns (r: Working)
    ensures r == Round(v, w, k)
  {
    var a, b, c, d, e, f, g, h := v.a, v.b, v.c, v.d, v.e, v.f, v.g, v.h;
    var t1 := T1(e, f, g, h, k, w);
    var t2 := T2(a, b, c);
    h, g, f, e, d, c, b, a := g, f, e, Plus(d, t1), c, b, a, Plus(t1, t2);
    r := Working(a, b, c, d, e, f, g, h);
  }

  /** The same recurrence in the order in which the code adds its terms. */
  function ExpandedWord(w2: bv32, w7: bv32, w15: bv32, w16: bv32): bv32 {
    w16 + SmallSigma0(w15) + w7 + SmallSigma1(w2)
  }

  lemma ExpandedWordIsNext(w2: bv32, w7: bv32, w15: bv32, w16: bv32)
    ensures ExpandedWord(w2, w7, w15, w16) == NextWord(w2, w7, w15, w16)
  {
  }

  /** Rotating by shifts is rotating, for every amount the standard uses. */
  lemma RotationsAreRotations(x: bv32)
    ensures Rotr(x, 2) == x.RotateRight(2) && Rotr(x, 6) == x.RotateRight(6) && Rotr(x, 7) == x.RotateRight(7)
    ensures Rotr(x, 11) == x.RotateRight(11) && Rotr(x, 13) == x.RotateRight(13) && Rotr(x, 17) == x.RotateRight(17)
    ensures Rotr(x, 18) == x.RotateRight(18) && Rotr(x, 19) == x.RotateRight(19) && Rotr(x, 22) == x.RotateRight(22)
    ensures Rotr(x, 25) == x.RotateRight(25)
  {
  }

  // ----- the functions of section 4.1.2, by what they do to bits

  /** Where the lowest and the highest bit of a word go; the small functions shift one copy out instead of around. */
  lemma BitsGoTo()
    ensures BigSigma0(1) == 0x40080400 && BigSigma0(0x80000000) == 0x20040200
    ensures BigSigma1(1) == 0x04200080 && BigSigma1(0x80000000) == 0x02100040
    ensures SmallSigma0(1) == 0x02004000 && SmallSigma0(0x80000000) == 0x11002000
    ensures SmallSigma1(1) == 0x0000a000 && SmallSigma1(0x80000000) == 0x00205000
  {
  }

  /** Ch chooses y where x has a one. */
  lemma ChoosesFirst(x: bv32, y: bv32, z: bv32)
    ensures Ch(x, y, z) & x == y & x
  {
  }

  /** And z elsewhere. */
  lemma ChoosesSecond(x: bv32, y: bv32, z: bv32)
    ensures Ch(x, y, z) & !x == z & !x
  {
  }

  /** Maj is one where two of the three are. */
  lemma MajorityOfThree(x: bv32, y: bv32, z: bv32)
    ensures Maj(x, y, z) == (x & y) | (x & z) | (y & z)
  {
  }

  /** In numbers: the first round and schedule word 40 of the token at explorer/assetid_test.go:20-27. */
  lemma OneRoundOneWord()
    ensures Round(Working(0x6a09e667, 0xbb67ae85, 0x3c6ef372, 0xa54ff53a,
                          0x510e527f, 0x9b05688c, 0x1f83d9ab, 0x5be0cd19), 0x5b1f59e5, 0x428a2f98) ==
            Working(0x5727e232, 0x6a09e667, 0xbb67ae85, 0x3c6ef372,
                    0xf3e73c87, 0x510e527f, 0x9b05688c, 0x1f83d9ab)
    ensures NextWord(0xbb0a2f3c, 0x2e02bf6e, 0xb76357df, 0x442483fe) == 0x40f38d67
  {
  }
}
