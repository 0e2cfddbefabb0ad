/**
 The identifiers of explorer/assetid.go character by character and leaf by leaf: which bytes a text
 stands for, and which sixty-four bytes each identifier is the compression of.
 */
module Identifiers {
  import opened Common
  import opened Sha256
  import opened AssetId
  import ChainModel

  const UPPER: string := "0123456789ABCDEF"

  // ----- texts and bytes

  /** Two lower-case digits, the high half first. */
  ghost predicate ShowsByte(c: char, d: char, x: Byte) {
    c == "0123456789abcdef"[x / 16] && d == "0123456789abcdef"[x % 16]
  }

  /** The text shows the bytes from the last to the first. */
  ghost predicate Shows(s: string, b: Digest) {
    |s| == 64 && forall i :: 0 <= i < 32 ==> ShowsByte(s[2 * i], s[2 * i + 1], b[31 - i])
  }

  /** A digit in either case. */
  ghost predicate IsDigitOf(c: char, n: nat)
    requires n < 16
  {
    c == "0123456789abcdef"[n] || c == "0123456789ABCDEF"[n]
  }

  ghost predicate NamesByte(c: char, d: char, x: Byte) {
    IsDigitOf(c, x / 16) && IsDigitOf(d, x % 16)
  }

  /** The text names the bytes from the last to the first, in either case. */
  ghost predicate NamesBytes(s: string, b: Digest) {
    |s| == 64 && forall i :: 0 <= i < 32 ==> NamesByte(s[2 * i], s[2 * i + 1], b[31 - i])
  }

  lemma {:induction false} EncodedAt(b: seq<Byte>, i: nat)
    requires i < |b|
    ensures ShowsByte(HexEncode(b)[2 * i], HexEncode(b)[2 * i + 1], b[i])
  {
    if i > 0 {
      EncodedAt(b[1..], i - 1);
      assert HexEncode(b)[2..] == HexEncode(b[1..]);
      assert HexEncode(b)[2 * i] == HexEncode(b)[2..][2 * (i - 1)];
      assert HexEncode(b)[2 * i + 1] == HexEncode(b)[2..][2 * (i - 1) + 1];
    }
  }

  lemma ShowIdShows(b: Digest)
    ensures Shows(ShowId(b), b)
  {
    forall i | 0 <= i < 32
      ensures ShowsByte(ShowId(b)[2 * i], ShowId(b)[2 * i + 1], b[31 - i])
    {
      EncodedAt(Flip(b), i);
    }
  }

  lemma ShownOnce(s: string, u: string, b: Digest)
    requires Shows(s, b) && Shows(u, b)
    ensures s == u
  {
    forall j | 0 <= j < 64
      ensures s[j] == u[j]
    {
      var i := j / 2;
      assert ShowsByte(s[2 * i], s[2 * i + 1], b[31 - i]) && ShowsByte(u[2 * i], u[2 * i + 1], b[31 - i]);
    }
  }

  /** displayHex is the one text that shows the bytes. */
  lemma ShowIdIs(s: string, b: Digest)
    ensures s == ShowId(b) <==> Shows(s, b)
  {
    ShowIdShows(b);
    if Shows(s, b) { ShownOnce(s, ShowId(b), b); }
  }

  lemma DigitNames(c: char, n: nat)
    requires n < 16
    ensures IsDigitOf(c, n) <==> IsHexDigit(c) && DigitValue(c) == n
  {
    DigitRoundTrip(n, c);
    UpperDigit(n);
    if IsHexDigit(c) && DigitValue(c) == n { LowerOrUpper(c, n); }
  }

  lemma UpperDigit(n: nat)
    requires n < 16
    ensures IsHexDigit(UPPER[n]) && DigitValue(UPPER[n]) == n
  {
  }

  lemma LowerOrUpper(c: char, n: nat)
    requires n < 16 && IsHexDigit(c) && DigitValue(c) == n
    ensures IsDigitOf(c, n)
  {
    DigitRoundTrip(0, c);
    if 'A' <= c <= 'F' {
      assert c == 'A' || c == 'B' || c == 'C' || c == 'D' || c == 'E' || c == 'F';
    }
  }

  lemma ByteNames(c: char, d: char, x: Byte)
    ensures NamesByte(c, d, x) <==> IsHexDigit(c) && IsHexDigit(d) && DigitValue(c) * 16 + DigitValue(d) == x
  {
    DigitNames(c, x / 16);
    DigitNames(d, x % 16);
    if IsHexDigit(c) && IsHexDigit(d) { Halves(DigitValue(c), DigitValue(d), x); }
  }

  lemma Halves(high: int, low: int, x: int)
    requires 0 <= low < 16
    ensures high * 16 + low == x <==> high == x / 16 && low == x % 16
  {
    assert x == 16 * (x / 16) + x % 16;
  }

  /** Two digits a byte, in the order of the bytes. */
  ghost predicate NamesInOrder(s: string, b: seq<Byte>) {
    |s| == 2 * |b| && forall i :: 0 <= i < |b| ==> NamesByte(s[2 * i], s[2 * i + 1], b[i])
  }

  lemma {:induction false} DecodedIs(s: string, b: seq<Byte>)
    ensures HexDecode(s) == Some(b) <==> NamesInOrder(s, b)
    decreases |s|
  {
    DecodesExactlyHex(s);
    if |s| == 2 * |b| && s != "" {
      DecodedIs(s[2..], b[1..]);
      ByteNames(s[0], s[1], b[0]);
      NamesFirst(s, b);
      DecodesFirst(s, b);
    }
  }

  lemma DecodesFirst(s: string, b: seq<Byte>)
    requires |s| == 2 * |b| && b != []
    ensures HexDecode(s) == Some(b) <==>
            && IsHexDigit(s[0]) && IsHexDigit(s[1]) && DigitValue(s[0]) * 16 + DigitValue(s[1]) == b[0]
            && HexDecode(s[2..]) == Some(b[1..])
  {
    assert b == [b[0]] + b[1..];
    if HexDecode(s).Some? { assert HexDecode(s).value[1..] == HexDecode(s[2..]).value; }
  }

  lemma NamesFirst(s: string, b: seq<Byte>)
    requires |s| == 2 * |b| && b != []
    ensures NamesInOrder(s, b) <==> NamesByte(s[0], s[1], b[0]) && NamesInOrder(s[2..], b[1..])
  {
    var t, rest := s[2..], b[1..];
    assert forall i :: 0 <= i < |rest| ==>
      t[2 * i] == s[2 * (i + 1)] && t[2 * i + 1] == s[2 * (i + 1) + 1] && rest[i] == b[i + 1];
    if NamesByte(s[0], s[1], b[0]) && NamesInOrder(t, rest) {
      forall i | 0 <= i < |b|
        ensures NamesByte(s[2 * i], s[2 * i + 1], b[i])
      {
        if i > 0 { assert NamesByte(t[2 * (i - 1)], t[2 * (i - 1) + 1], rest[i - 1]); }
      }
    }
  }

  /** Reading from the last byte to the first is reading the flipped bytes in order. */
  lemma NamesFlipped(s: string, b: Digest)
    ensures NamesBytes(s, b) <==> NamesInOrder(s, Flip(b))
  {
    assert forall i :: 0 <= i < 32 ==> Flip(b)[i] == b[31 - i];
  }

  /** reverseHex reads exactly the bytes a text names. */
  lemma ParseIdIs(s: string, b: Digest)
    ensures ParseId(s) == Some(b) <==> NamesBytes(s, b)
  {
    NamesFlipped(s, b);
    DecodedIs(s, Flip(b));
    FlipTwice(b);
    ShowParse(s);
    if ParseId(s).Some? { FlipTwice(HexDecode(s).value); }
  }

  // ----- the leaves

  /** Thirty-two zero bytes: the leaf of an asset. */
  function AssetLeaf(): Digest {
    seq(32, _ => 0)
  }

  /** A leaf with one byte set: two where the issued amount is blinded, one where it is explicit. */
  function TokenLeaf(blinded: bool): Digest {
    if blinded then [2] + seq(31, _ => 0) else [1] + seq(31, _ => 0)
  }

  /** The text shows the asset of an entropy: the compression of the entropy and the zero leaf. */
  ghost predicate ShowsAsset(s: string, entropy: Digest) {
    Shows(s, Compress(entropy + AssetLeaf()))
  }

  ghost predicate ShowsToken(s: string, entropy: Digest, blinded: bool) {
    Shows(s, Compress(entropy + TokenLeaf(blinded)))
  }

  /** The compression of the double hash of transaction id and output number, least byte first, and the contract. */
  ghost predicate ShowsEntropy(s: string, sha: seq<Byte> -> Digest, txid: Digest, vout: Uint32, contract: Digest) {
    var number: seq<Byte> := [vout % 256, vout / 0x100 % 256, vout / 0x1_0000 % 256, vout / 0x100_0000];
    Shows(s, Compress(sha(sha(txid + number)) + contract))
  }

  lemma LeavesAre(blinded: bool)
    ensures Tag(0) == AssetLeaf() && TokenTag(blinded) == TokenLeaf(blinded)
  {
  }

  lemma NumberIs(vout: Uint32)
    ensures LittleEndian(vout) == [vout % 256, vout / 0x100 % 256, vout / 0x1_0000 % 256, vout / 0x100_0000]
  {
  }

  /** A text is an identifier exactly when it names some bytes. */
  lemma ReadableIs(s: string)
    ensures ParseId(s).Some? <==> exists b: Digest :: NamesBytes(s, b)
  {
    if ParseId(s).Some? { ParseIdIs(s, ParseId(s).value); }
    forall b: Digest | NamesBytes(s, b) ensures ParseId(s) == Some(b) { ParseIdIs(s, b); }
  }

  /** AssetIDFromEntropy: the only text that shows the asset of the entropy, and an error where nothing is named. */
  lemma AssetTextIs(entropy: string, e: Digest, s: string)
    ensures NamesBytes(entropy, e) ==> (AssetText(entropy) == Some(s) <==> ShowsAsset(s, e))
    ensures AssetText(entropy).None? <==> !exists b: Digest :: NamesBytes(entropy, b)
  {
    ParseIdIs(entropy, e);
    ReadableIs(entropy);
    LeavesAre(true);
    ShowIdIs(s, Compress(e + AssetLeaf()));
  }

  /** ReissuanceTokenFromEntropy: a blinded and an explicit issuance have different leaves. */
  lemma TokenTextIs(entropy: string, blinded: bool, e: Digest, s: string)
    ensures NamesBytes(entropy, e) ==> (TokenText(entropy, blinded) == Some(s) <==> ShowsToken(s, e, blinded))
    ensures TokenText(entropy, blinded).None? <==> !exists b: Digest :: NamesBytes(entropy, b)
  {
    ParseIdIs(entropy, e);
    ReadableIs(entropy);
    LeavesAre(blinded);
    ShowIdIs(s, Compress(e + TokenLeaf(blinded)));
  }

  /** AssetEntropy, for every output and contract hash. */
  lemma EntropyTextIs(sha: seq<Byte> -> Digest, txid: string, vout: Uint32, contract: Digest, b: Digest, s: string)
    ensures NamesBytes(txid, b) ==>
              (EntropyText(sha, txid, vout, contract) == Some(s) <==> ShowsEntropy(s, sha, b, vout, contract))
    ensures EntropyText(sha, txid, vout, contract).None? <==> !exists b: Digest :: NamesBytes(txid, b)
  {
    ParseIdIs(txid, b);
    ReadableIs(txid);
    NumberIs(vout);
    ShowIdIs(s, RawEntropy(sha, b, vout, contract));
  }

  /** The identifiers an issuance shows are those its entropy determines. */
  ghost predicate Determines(e: Digest, i: ChainModel.Issuance) {
    NamesBytes(i.entropy, e) && ShowsAsset(i.asset, e) && ShowsToken(i.token, e, i.assetAmountCommitment != "")
  }

  /** An issuance is marked verified exactly when both identifiers it shows are the compressions of its entropy. */
  lemma VerifiedIs(i: ChainModel.Issuance)
    ensures DerivationVerified(i) <==> exists e: Digest :: Determines(e, i)
  {
    ReadableIs(i.entropy);
    forall e: Digest | NamesBytes(i.entropy, e)
      ensures DerivationVerified(i) <==> Determines(e, i)
    {
      AssetTextIs(i.entropy, e, i.asset);
      TokenTextIs(i.entropy, i.assetAmountCommitment != "", e, i.token);
    }
  }
}
