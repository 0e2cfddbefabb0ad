/**
 The SHA-256 compression of explorer/assetid.go against section 6.2.2 of FIPS 180-4.

 `FastMerkleHash` is the code: an array for the message schedule and eight rolling working
 variables. `Compress` is the standard's recursive definition, applied once, from the initial
 value of section 5.3.3, without the padding of section 5.1.1.
 */
module Sha256 {
  import opened Words

  type Byte = b: int | 0 <= b < 256

  type Uint32 = x: int | 0 <= x < 0x1_0000_0000

  /** Thirty-two bytes. */
  type Digest = s: seq<Byte> | |s| == 32 witness seq(32, i => 0)

  // ----- constants

  const INITIAL: seq<Uint32> := [
    0x6a09e667, 0xbb67ae85, 0x3c6ef372, 0xa54ff53a,
    0x510e527f, 0x9b05688c, 0x1f83d9ab, 0x5be0cd19]

  /** The round constants, one row of eight per constant. */
  const ROUND_0: seq<Uint32> := [0x428a2f98, 0x71374491, 0xb5c0fbcf, 0xe9b5dba5,
                                 0x3956c25b, 0x59f111f1, 0x923f82a4, 0xab1c5ed5]
  const ROUND_1: seq<Uint32> := [0xd807aa98, 0x12835b01, 0x243185be, 0x550c7dc3,
                                 0x72be5d74, 0x80deb1fe, 0x9bdc06a7, 0xc19bf174]
  const ROUND_2: seq<Uint32> := [0xe49b69c1, 0xefbe4786, 0x0fc19dc6, 0x240ca1cc,
                                 0x2de92c6f, 0x4a7484aa, 0x5cb0a9dc, 0x76f988da]
  const ROUND_3: seq<Uint32> := [0x983e5152, 0xa831c66d, 0xb00327c8, 0xbf597fc7,
                                 0xc6e00bf3, 0xd5a79147, 0x06ca6351, 0x14292967]
  const ROUND_4: seq<Uint32> := [0x27b70a85, 0x2e1b2138, 0x4d2c6dfc, 0x53380d13,
                                 0x650a7354, 0x766a0abb, 0x81c2c92e, 0x92722c85]
  const ROUND_5: seq<Uint32> := [0xa2bfe8a1, 0xa81a664b, 0xc24b8b70, 0xc76c51a3,
                                 0xd192e819, 0xd6990624, 0xf40e3585, 0x106aa070]
  const ROUND_6: seq<Uint32> := [0x19a4c116, 0x1e376c08, 0x2748774c, 0x34b0bcb5,
                                 0x391c0cb3, 0x4ed8aa4a, 0x5b9cca4f, 0x682e6ff3]
  const ROUND_7: seq<Uint32> := [0x748f82ee, 0x78a5636f, 0x84c87814, 0x8cc70208,
                                 0x90befffa, 0xa4506ceb, 0xbef9a3f7, 0xc67178f2]

  function RoundRow(r: nat): (row: seq<Uint32>)
    requires r < 8
    ensures |row| == 8
  {
    if r == 0 then ROUND_0 else if r == 1 then ROUND_1 else if r == 2 then ROUND_2 else if r == 3 then ROUND_3
    else if r == 4 then ROUND_4 else if r == 5 then ROUND_5 else if r == 6 then ROUND_6 else ROUND_7
  }

  function RoundConstant(t: nat): Uint32
    requires t < 64
  {
    RoundRow(t / 8)[t % 8]
  }

  /** The first sixty-four primes. */
  const PRIMES_0: seq<nat> := [2, 3, 5, 7, 11, 13, 17, 19]
  const PRIMES_1: seq<nat> := [23, 29, 31, 37, 41, 43, 47, 53]
  const PRIMES_2: seq<nat> := [59, 61, 67, 71, 73, 79, 83, 89]
  const PRIMES_3: seq<nat> := [97, 101, 103, 107, 109, 113, 127, 131]
  const PRIMES_4: seq<nat> := [137, 139, 149, 151, 157, 163, 167, 173]
  const PRIMES_5: seq<nat> := [179, 181, 191, 193, 197, 199, 211, 223]
  const PRIMES_6: seq<nat> := [227, 229, 233, 239, 241, 251, 257, 263]
  const PRIMES_7: seq<nat> := [269, 271, 277, 281, 283, 293, 307, 311]

  function PrimeRow(r: nat): (row: seq<nat>)
    requires r < 8
    ensures |row| == 8
  {
    if r == 0 then PRIMES_0 else if r == 1 then PRIMES_1 else if r == 2 then PRIMES_2 else if r == 3 then PRIMES_3
    else if r == 4 then PRIMES_4 else if r == 5 then PRIMES_5 else if r == 6 then PRIMES_6 else PRIMES_7
  }

  function Prime(t: nat): nat
    requires t < 64
  {
    PrimeRow(t / 8)[t % 8]
  }

  /** `k` holds the first 32 bits of the fractional part of the square root of p (section 5.3.3). */
  ghost predicate SquareRootBits(p: nat, k: int) {
    exists c: nat :: SquareRootAt(p, k, c)
  }

  predicate SquareRootAt(p: nat, k: int, c: nat) {
    var x := c * 0x1_0000_0000 + k;
    0 <= k < 0x1_0000_0000 && x * x <= p * 0x1_0000_0000_0000_0000 < (x + 1) * (x + 1)
  }

  /** `k` holds the first 32 bits of the fractional part of the cube root of p (section 4.2.2). */
  ghost predicate CubeRootBits(p: nat, k: int) {
    exists c: nat :: CubeRootAt(p, k, c)
  }

  predicate CubeRootAt(p: nat, k: int, c: nat) {
    var x := c * 0x1_0000_0000 + k;
    0 <= k < 0x1_0000_0000 && x * x * x <= p * 0x1_0000_0000_0000_0000_0000_0000 < (x + 1) * (x + 1) * (x + 1)
  }

  /** The initial value is made of the square roots of the first eight primes. */
  lemma InitialValueIsStandard(i: nat)
    requires i < 8
    ensures SquareRootBits(PRIMES_0[i], INITIAL[i])
  {
    if i == 0 {
      assert PRIMES_0[0] == 2 && INITIAL[0] == 0x6a09e667;
      assert SquareRootAt(2, 0x6a09e667, 1);
    } else if i == 1 {
      assert PRIMES_0[1] == 3 && INITIAL[1] == 0xbb67ae85;
      assert SquareRootAt(3, 0xbb67ae85, 1);
    } else if i == 2 {
      assert PRIMES_0[2] == 5 && INITIAL[2] == 0x3c6ef372;
      assert SquareRootAt(5, 0x3c6ef372, 2);
    } else if i == 3 {
      assert PRIMES_0[3] == 7 && INITIAL[3] == 0xa54ff53a;
      assert SquareRootAt(7, 0xa54ff53a, 2);
    } else if i == 4 {
      assert PRIMES_0[4] == 11 && INITIAL[4] == 0x510e527f;
      assert SquareRootAt(11, 0x510e527f, 3);
    } else if i == 5 {
      assert PRIMES_0[5] == 13 && INITIAL[5] == 0x9b05688c;
      assert SquareRootAt(13, 0x9b05688c, 3);
    } else if i == 6 {
      assert PRIMES_0[6] == 17 && INITIAL[6] == 0x1f83d9ab;
      assert SquareRootAt(17, 0x1f83d9ab, 4);
    } else {
      assert PRIMES_0[7] == 19 && INITIAL[7] == 0x5be0cd19;
      assert SquareRootAt(19, 0x5be0cd19, 4);
    }
  }

  lemma RoundConstants0(i: nat)
    requires i < 8
    ensures CubeRootBits(PRIMES_0[i], ROUND_0[i])
  {
    assert CubeRootAt(2, 0x428a2f98, 1);
    assert CubeRootAt(3, 0x71374491, 1);
    assert CubeRootAt(5, 0xb5c0fbcf, 1);
    assert CubeRootAt(7, 0xe9b5dba5, 1);
    assert CubeRootAt(11, 0x3956c25b, 2);
    assert CubeRootAt(13, 0x59f111f1, 2);
    assert CubeRootAt(17, 0x923f82a4, 2);
    assert CubeRootAt(19, 0xab1c5ed5, 2);
  }

  lemma RoundConstants1(i: nat)
    requires i < 8
    ensures CubeRootBits(PRIMES_1[i], ROUND_1[i])
  {
    assert CubeRootAt(23, 0xd807aa98, 2);
    assert CubeRootAt(29, 0x12835b01, 3);
    assert CubeRootAt(31, 0x243185be, 3);
    assert CubeRootAt(37, 0x550c7dc3, 3);
    assert CubeRootAt(41, 0x72be5d74, 3);
    assert CubeRootAt(43, 0x80deb1fe, 3);
    assert CubeRootAt(47, 0x9bdc06a7, 3);
    assert CubeRootAt(53, 0xc19bf174, 3);
  }

  lemma RoundConstants2(i: nat)
    requires i < 8
    ensures CubeRootBits(PRIMES_2[i], ROUND_2[i])
  {
    assert CubeRootAt(59, 0xe49b69c1, 3);
    assert CubeRootAt(61, 0xefbe4786, 3);
    assert CubeRootAt(67, 0x0fc19dc6, 4);
    assert CubeRootAt(71, 0x240ca1cc, 4);
    assert CubeRootAt(73, 0x2de92c6f, 4);
    assert CubeRootAt(79, 0x4a7484aa, 4);
    assert CubeRootAt(83, 0x5cb0a9dc, 4);
    assert CubeRootAt(89, 0x76f988da, 4);
  }

  lemma RoundConstants3(i: nat)
    requires i < 8
    ensures CubeRootBits(PRIMES_3[i], ROUND_3[i])
  {
    assert CubeRootAt(97, 0x983e5152, 4);
    assert CubeRootAt(101, 0xa831c66d, 4);
    assert CubeRootAt(103, 0xb00327c8, 4);
    assert CubeRootAt(107, 0xbf597fc7, 4);
    assert CubeRootAt(109, 0xc6e00bf3, 4);
    assert CubeRootAt(113, 0xd5a79147, 4);
    assert CubeRootAt(127, 0x06ca6351, 5);
    assert CubeRootAt(131, 0x14292967, 5);
  }

  lemma RoundConstants4(i: nat)
    requires i < 8
    ensures CubeRootBits(PRIMES_4[i], ROUND_4[i])
  {
    assert CubeRootAt(137, 0x27b70a85, 5);
    assert CubeRootAt(139, 0x2e1b2138, 5);
    assert CubeRootAt(149, 0x4d2c6dfc, 5);
    assert CubeRootAt(151, 0x53380d13, 5);
    assert CubeRootAt(157, 0x650a7354, 5);
    assert CubeRootAt(163, 0x766a0abb, 5);
    assert CubeRootAt(167, 0x81c2c92e, 5);
    assert CubeRootAt(173, 0x92722c85, 5);
  }

  lemma RoundConstants5(i: nat)
    requires i < 8
    ensures CubeRootBits(PRIMES_5[i], ROUND_5[i])
  {
    assert CubeRootAt(179, 0xa2bfe8a1, 5);
    assert CubeRootAt(181, 0xa81a664b, 5);
    assert CubeRootAt(191, 0xc24b8b70, 5);
    assert CubeRootAt(193, 0xc76c51a3, 5);
    assert CubeRootAt(197, 0xd192e819, 5);
    assert CubeRootAt(199, 0xd6990624, 5);
    assert CubeRootAt(211, 0xf40e3585, 5);
    assert CubeRootAt(223, 0x106aa070, 6);
  }

  lemma RoundConstants6(i: nat)
    requires i < 8
    ensures CubeRootBits(PRIMES_6[i], ROUND_6[i])
  {
    assert CubeRootAt(227, 0x19a4c116, 6);
    assert CubeRootAt(229, 0x1e376c08, 6);
    assert CubeRootAt(233, 0x2748774c, 6);
    assert CubeRootAt(239, 0x34b0bcb5, 6);
    assert CubeRootAt(241, 0x391c0cb3, 6);
    assert CubeRootAt(251, 0x4ed8aa4a, 6);
    assert CubeRootAt(257, 0x5b9cca4f, 6);
    assert CubeRootAt(263, 0x682e6ff3, 6);
  }

  lemma RoundConstants7(i: nat)
    requires i < 8
    ensures CubeRootBits(PRIMES_7[i], ROUND_7[i])
  {
    assert CubeRootAt(269, 0x748f82ee, 6);
    assert CubeRootAt(271, 0x78a5636f, 6);
    assert CubeRootAt(277, 0x84c87814, 6);
    assert CubeRootAt(281, 0x8cc70208, 6);
    assert CubeRootAt(283, 0x90befffa, 6);
    assert CubeRootAt(293, 0xa4506ceb, 6);
    assert CubeRootAt(307, 0xbef9a3f7, 6);
    assert CubeRootAt(311, 0xc67178f2, 6);
  }

  lemma RowRoundConstants(r: nat, i: nat)
    requires r < 8 && i < 8
    ensures CubeRootBits(PrimeRow(r)[i], RoundRow(r)[i])
  {
    match r
    case 0 => RoundConstants0(i);
    case 1 => RoundConstants1(i);
    case 2 => RoundConstants2(i);
    case 3 => RoundConstants3(i);
    case 4 => RoundConstants4(i);
    case 5 => RoundConstants5(i);
    case 6 => RoundConstants6(i);
    case _ => RoundConstants7(i);
  }

  /** The round constants are made of the cube roots of the first sixty-four primes. */
  lemma RoundConstantsAreStandard(t: nat)
    requires t < 64
    ensures CubeRootBits(Prime(t), RoundConstant(t))
  {
    RowRoundConstants(t / 8, t % 8);
  }

  // ----- words and bytes, most significant byte first

  function WordValue(b0: Byte, b1: Byte, b2: Byte, b3: Byte): Uint32 {
    ((b0 * 256 + b1) * 256 + b2) * 256 + b3
  }

  function WordBytes(x: Uint32): (s: seq<Byte>)
    ensures |s| == 4 && WordValue(s[0], s[1], s[2], s[3]) == x
  {
    [x / 0x100_0000, x / 0x1_0000 % 256, x / 0x100 % 256, x % 256]
  }

  function WordOf(four: seq<Byte>): bv32
    requires |four| == 4
  {
    WordValue(four[0], four[1], four[2], four[3]) as bv32
  }

  // ----- section 6.2.2: one compression

  /** The message schedule W_t. */
  function Schedule(block: seq<Byte>, t: nat): bv32
    requires |block| == 64
  {
    if t < 16 then WordOf(block[4 * t..4 * t + 4])
    else NextWord(Schedule(block, t - 2), Schedule(block, t - 7), Schedule(block, t - 15), Schedule(block, t - 16))
  }

  function Initial(i: nat): bv32
    requires i < 8
  {
    INITIAL[i] as bv32
  }

  function K(t: nat): bv32
    requires t < 64
  {
    RoundConstant(t) as bv32
  }

  /** The working variables after t rounds. */
  function Rounds(block: seq<Byte>, t: nat): Working
    requires |block| == 64 && t <= 64
  {
    if t == 0 then
      Working(Initial(0), Initial(1), Initial(2), Initial(3), Initial(4), Initial(5), Initial(6), Initial(7))
    else Round(Rounds(block, t - 1), Schedule(block, t - 1), K(t - 1))
  }

  /** One word of the intermediate hash value, as a number. */
  function HashWord(i: nat, x: bv32): Uint32
    requires i < 8
  {
    (Initial(i) + x) as Uint32
  }

  function HashWords(v: Working): (words: seq<Uint32>)
    ensures |words| == 8
  {
    [HashWord(0, v.a), HashWord(1, v.b), HashWord(2, v.c), HashWord(3, v.d),
     HashWord(4, v.e), HashWord(5, v.f), HashWord(6, v.g), HashWord(7, v.h)]
  }

  function WordsBytes(words: seq<Uint32>): (s: seq<Byte>)
    ensures |s| == 4 * |words|
  {
    if words == [] then [] else WordsBytes(words[..|words| - 1]) + WordBytes(words[|words| - 1])
  }

  /** The intermediate hash value after one 64-byte block. */
  function Compress(block: seq<Byte>): Digest
    requires |block| == 64
  {
    WordsBytes(HashWords(Rounds(block, 64)))
  }

  function FastMerkle(left: Digest, right: Digest): Digest {
    Compress(left + right)
  }

  // ----- the code

  /** words[t] continues the schedule. */
  ghost predicate Continues(words: seq<bv32>, t: nat)
    requires 16 <= t < |words|
  {
    words[t] == NextWord(words[t - 2], words[t - 7], words[t - 15], words[t - 16])
  }

  ghost function ScheduleWords(block: seq<Byte>): (words: seq<bv32>)
    requires |block| == 64
    ensures |words| == 64
  {
    seq(64, t requires 0 <= t < 64 => Schedule(block, t))
  }

  lemma ScheduleContinues(block: seq<Byte>, t: nat)
    requires |block| == 64 && 16 <= t < 64
    ensures Continues(ScheduleWords(block), t)
  {
  }

  /** The first sixteen words are the block itself. */
  method LoadBlock(block: seq<Byte>, w: array<bv32>)
    requires |block| == 64 && w.Length == 64
    modifies w
    ensures w[..16] == ScheduleWords(block)[..16]
  {
    for i := 0 to 16
      invariant forall t :: 0 <= t < i ==> w[t] == Schedule(block, t)
    {
      w[i] := WordOf(block[4 * i..4 * i + 4]);
    }
  }

  method Expand(w: array<bv32>, ghost words: seq<bv32>)
    requires w.Length == |words| == 64 && w[..16] == words[..16]
    requires forall t :: 16 <= t < 64 ==> Continues(words, t)
    modifies w
    ensures w[..] == words
  {
    for i := 16 to 64
      invariant w[..i] == words[..i]
    {
      assert w[i - 2] == w[..i][i - 2] && w[i - 7] == w[..i][i - 7];
      assert w[i - 15] == w[..i][i - 15] && w[i - 16] == w[..i][i - 16];
      var next := ExpandedWord(w[i - 2], w[i - 7], w[i - 15], w[i - 16]);
      ExpandedWordIsNext(w[i - 2], w[i - 7], w[i - 15], w[i - 16]);
      assert Continues(words, i);
      w[i] := next;
      assert w[..i + 1] == w[..i] + [next];
    }
  }

  method FillSchedule(block: seq<Byte>, w: array<bv32>)
    requires |block| == 64 && w.Length == 64
    modifies w
    ensures w[..] == ScheduleWords(block)
  {
    LoadBlock(block, w);
    forall t | 16 <= t < 64 ensures Continues(ScheduleWords(block), t) {
      ScheduleContinues(block, t);
    }
    Expand(w, ScheduleWords(block));
  }

  /** The sixty-four rounds. */
  method RunRounds(ghost block: seq<Byte>, w: array<bv32>) returns (v: Working)
    requires |block| == 64 && w.Length == 64
    requires w[..] == ScheduleWords(block)
    ensures v == Rounds(block, 64)
  {
    v := Working(Initial(0), Initial(1), Initial(2), Initial(3), Initial(4), Initial(5), Initial(6), Initial(7));
    for i := 0 to 64
      invariant v == Rounds(block, i)
    {
      assert w[i] == w[..][i] == Schedule(block, i);
      v := Roll(v, w[i], K(i));
    }
  }

  /** binary.BigEndian.PutUint32 into out[at..at+4]. */
  method PutWord(out: array<Byte>, at: nat, x: Uint32)
    requires at + 4 <= out.Length
    modifies out
    ensures out[..at] == old(out[..at])
    ensures out[at..at + 4] == WordBytes(x)
  {
    var word := WordBytes(x);
    out[at] := word[0];
    out[at + 1] := word[1];
    out[at + 2] := word[2];
    out[at + 3] := word[3];
  }

  /** Writes word i of the state behind the words before it. */
  method PutNext(out: array<Byte>, ghost state: seq<Uint32>, i: nat, x: Uint32)
    requires i < |state| && x == state[i] && 4 * i + 4 <= out.Length
    requires out[..4 * i] == WordsBytes(state[..i])
    modifies out
    ensures out[..4 * i + 4] == WordsBytes(state[..i + 1])
  {
    PutWord(out, 4 * i, x);
    assert out[..4 * i + 4] == out[..4 * i] + out[4 * i..4 * i + 4];
    WordsBytesNext(state, i);
  }

  lemma WordsBytesNext(state: seq<Uint32>, i: nat)
    requires i < |state|
    ensures WordsBytes(state[..i + 1]) == WordsBytes(state[..i]) + WordBytes(state[i])
  {
    var part := state[..i + 1];
    assert part[..|part| - 1] == state[..i] && part[|part| - 1] == state[i];
  }

  /** Writes the eight state words out, one after the other. */
  method PutState(state: seq<Uint32>) returns (s: Digest)
    requires |state| == 8
    ensures s == WordsBytes(state)
  {
    var out := new Byte[32];
    for i := 0 to 8
      invariant out[..4 * i] == WordsBytes(state[..i])
    {
      PutNext(out, state, i, state[i]);
    }
    s := out[..];
    assert out[..32] == out[..] && state[..8] == state;
  }

  /** fastMerkleHash: one raw compression of the 64-byte concatenation. */
  method FastMerkleHash(left: Digest, right: Digest) returns (result: Digest)
    ensures result == FastMerkle(left, right)
  {
    var block := new Byte[64](i requires 0 <= i < 64 => if i < 32 then left[i] else right[i - 32]);
    assert block[..] == left + right;
    var w := new bv32[64];
    FillSchedule(block[..], w);
    var v := RunRounds(left + right, w);
    result := PutState(HashWords(v));
  }
}
