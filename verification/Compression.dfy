/** The compression of `Sha256` byte by byte: how a block is read into words, and the digest written from them. */
module Compression {
  import opened Words
  import opened Sha256

  /** The number four bytes spell, the most significant first. */
  function BigEndian(s: seq<Byte>, at: nat): int
    requires at + 4 <= |s|
  {
    var a, b, c, d: int := s[at], s[at + 1], s[at + 2], s[at + 3];
    a * 0x100_0000 + b * 0x1_0000 + c * 0x100 + d
  }

  /** The schedule starts with the block, four bytes a word. */
  lemma ScheduleStartsWithBlock(block: seq<Byte>, t: nat)
    requires |block| == 64 && t < 16
    ensures 0 <= BigEndian(block, 4 * t) < 0x1_0000_0000
    ensures Schedule(block, t) == BigEndian(block, 4 * t) as bv32
  {
    var four := block[4 * t..4 * t + 4];
    assert WordValue(four[0], four[1], four[2], four[3]) == BigEndian(block, 4 * t);
  }

  /** And goes on with the word 2, 7, 15 and 16 places before. */
  lemma ScheduleGoesOn(block: seq<Byte>, t: nat)
    requires |block| == 64 && 16 <= t < 64
    ensures Schedule(block, t) ==
            NextWord(Schedule(block, t - 2), Schedule(block, t - 7), Schedule(block, t - 15), Schedule(block, t - 16))
  {
  }

  /** The rounds start from the initial value. */
  lemma RoundsStart(block: seq<Byte>)
    requires |block| == 64
    ensures var v := Rounds(block, 0);
            && v.a == INITIAL[0] as bv32 && v.b == INITIAL[1] as bv32
            && v.c == INITIAL[2] as bv32 && v.d == INITIAL[3] as bv32
            && v.e == INITIAL[4] as bv32 && v.f == INITIAL[5] as bv32
            && v.g == INITIAL[6] as bv32 && v.h == INITIAL[7] as bv32
  {
  }

  /** Round t takes schedule word and constant t. */
  lemma RoundsGoOn(block: seq<Byte>, t: nat)
    requires |block| == 64 && t < 64
    ensures Rounds(block, t + 1) == Round(Rounds(block, t), Schedule(block, t), K(t))
  {
  }

  lemma {:induction false} WordsBytesAt(words: seq<Uint32>, i: nat)
    requires i < |words|
    ensures BigEndian(WordsBytes(words), 4 * i) == words[i]
  {
    var front, last := words[..|words| - 1], WordBytes(words[|words| - 1]);
    if i < |front| {
      WordsBytesAt(front, i);
    } else {
      assert WordsBytes(words) == WordsBytes(front) + last;
      assert WordValue(last[0], last[1], last[2], last[3]) == words[i];
    }
  }

  function Variable(v: Working, i: nat): bv32
    requires i < 8
  {
    if i == 0 then v.a else if i == 1 then v.b else if i == 2 then v.c else if i == 3 then v.d
    else if i == 4 then v.e else if i == 5 then v.f else if i == 6 then v.g else v.h
  }

  lemma WordsInOrder(v: Working, i: nat)
    requires i < 8
    ensures HashWords(v)[i] == HashWord(i, Variable(v, i))
  {
  }

  /** Word i of the digest is word i of the initial value plus working variable i after the rounds. */
  lemma DigestWordIs(block: seq<Byte>, i: nat)
    requires |block| == 64 && i < 8
    ensures BigEndian(Compress(block), 4 * i) == HashWord(i, Variable(Rounds(block, 64), i))
  {
    var words := HashWords(Rounds(block, 64));
    WordsInOrder(Rounds(block, 64), i);
    WordsBytesAt(words, i);
  }
}
