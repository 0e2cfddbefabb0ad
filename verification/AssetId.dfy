/**
 Asset and reissuance-token identifiers (explorer/assetid.go).

 Elements prints every identifier as hexadecimal text (base16 of section 8 of RFC 4648) in
 reversed byte order. `ParseId` and `ShowId` say what reverseHex and displayHex compute, and
 the identifier functions compose them with the single-block hash of `Sha256`. The library's
 SHA-256 enters as the parameter `sha`.
 */
module AssetId {
  import opened Common
  import opened Sha256
  import ChainModel

  // ----- base16

  predicate IsHexDigit(c: char) {
    '0' <= c <= '9' || 'a' <= c <= 'f' || 'A' <= c <= 'F'
  }

  function DigitValue(c: char): (v: int)
    requires IsHexDigit(c)
    ensures 0 <= v < 16
  {
    if '0' <= c <= '9' then c as int - '0' as int
    else if 'a' <= c <= 'f' then c as int - 'a' as int + 10
    else c as int - 'A' as int + 10
  }

  const DIGITS: string := "0123456789abcdef"

  function Lower(c: char): char {
    if 'A' <= c <= 'F' then (c as int - 'A' as int + 'a' as int) as char else c
  }

  function LowerText(s: string): string {
    seq(|s|, i requires 0 <= i < |s| => Lower(s[i]))
  }

  predicate AllHex(s: string) {
    forall i :: 0 <= i < |s| ==> IsHexDigit(s[i])
  }

  /** hex.DecodeString: pairs of digits in either case, and nothing else. */
  function HexDecode(s: string): Option<seq<Byte>> {
    if s == "" then Some([])
    else if |s| == 1 || !IsHexDigit(s[0]) || !IsHexDigit(s[1]) then None
    else
      var rest := HexDecode(s[2..]);
      if rest.None? then None else Some([DigitValue(s[0]) * 16 + DigitValue(s[1])] + rest.value)
  }

  /** hex.EncodeToString: two lower-case digits a byte. */
  function HexEncode(b: seq<Byte>): (s: string)
    ensures |s| == 2 * |b|
  {
    if b == [] then "" else [DIGITS[b[0] / 16], DIGITS[b[0] % 16]] + HexEncode(b[1..])
  }

  lemma DigitRoundTrip(n: nat, c: char)
    requires n < 16
    ensures IsHexDigit(DIGITS[n]) && DigitValue(DIGITS[n]) == n && Lower(DIGITS[n]) == DIGITS[n]
    ensures IsHexDigit(c) ==> DIGITS[DigitValue(c)] == Lower(c)
  {
    if 'a' <= c <= 'f' {
      LetterDigit(DigitValue(c), c);
    } else if 'A' <= c <= 'F' {
      LetterDigit(DigitValue(c), Lower(c));
    } else if '0' <= c <= '9' {
      DecimalDigit(DigitValue(c), c);
    }
  }

  lemma LetterDigit(n: nat, c: char)
    requires 'a' <= c <= 'f' && n == c as int - 'a' as int + 10
    ensures DIGITS[n] == c
  {
    assert c == 'a' || c == 'b' || c == 'c' || c == 'd' || c == 'e' || c == 'f';
  }

  lemma DecimalDigit(n: nat, c: char)
    requires '0' <= c <= '9' && n == c as int - '0' as int
    ensures DIGITS[n] == c
  {
    assert c == '0' || c == '1' || c == '2' || c == '3' || c == '4'
        || c == '5' || c == '6' || c == '7' || c == '8' || c == '9';
  }

  lemma ByteRoundTrip(x: Byte)
    ensures var c, d := DIGITS[x / 16], DIGITS[x % 16];
            IsHexDigit(c) && IsHexDigit(d) && DigitValue(c) * 16 + DigitValue(d) == x
  {
    DigitRoundTrip(x / 16, '0');
    DigitRoundTrip(x % 16, '0');
  }

  /** Encoding and decoding lose nothing. */
  lemma {:induction false} DecodeEncode(b: seq<Byte>)
    ensures HexDecode(HexEncode(b)) == Some(b)
  {
    if b != [] {
      ByteRoundTrip(b[0]);
      DecodeEncode(b[1..]);
      var s, rest := HexEncode(b), HexEncode(b[1..]);
      assert s == [DIGITS[b[0] / 16], DIGITS[b[0] % 16]] + rest;
      assert s[2..] == rest;
      assert [b[0]] + b[1..] == b;
    }
  }

  /** The byte two digits spell, and the digits it is spelled with again. */
  lemma PairRoundTrip(c: char, d: char, b: Byte)
    requires IsHexDigit(c) && IsHexDigit(d) && b == DigitValue(c) * 16 + DigitValue(d)
    ensures DIGITS[b / 16] == Lower(c) && DIGITS[b % 16] == Lower(d)
  {
    assert b / 16 == DigitValue(c) && b % 16 == DigitValue(d);
    DigitRoundTrip(0, c);
    DigitRoundTrip(0, d);
  }

  /** Exactly the even-length texts of hexadecimal digits decode. */
  lemma {:induction false} DecodesExactlyHex(s: string)
    ensures HexDecode(s).Some? <==> |s| % 2 == 0 && AllHex(s)
    ensures HexDecode(s).Some? ==> 2 * |HexDecode(s).value| == |s|
  {
    if |s| >= 2 {
      DecodesExactlyHex(s[2..]);
      assert s == [s[0], s[1]] + s[2..];
    }
  }

  /** Encoding what was decoded brings back the lower case of the text. */
  lemma {:induction false} EncodeDecode(s: string)
    requires HexDecode(s).Some?
    ensures HexEncode(HexDecode(s).value) == LowerText(s)
  {
    if s != "" {
      var t := s[2..];
      EncodeDecode(t);
      var b := HexDecode(s).value;
      assert b[1..] == HexDecode(t).value;
      PairRoundTrip(s[0], s[1], b[0]);
      assert LowerText(s) == [Lower(s[0]), Lower(s[1])] + LowerText(t);
    }
  }

  // ----- reversed byte order

  function Flip(b: Digest): Digest {
    seq(32, i requires 0 <= i < 32 => b[31 - i])
  }

  /** The bytes a displayed identifier stands for. */
  function ParseId(s: string): Option<Digest> {
    var raw := HexDecode(s);
    if raw.None? || |raw.value| != 32 then None else Some(Flip(raw.value))
  }

  /** How an identifier is displayed. */
  function ShowId(b: Digest): string {
    HexEncode(Flip(b))
  }

  lemma FlipTwice(b: Digest)
    ensures Flip(Flip(b)) == b
  {
  }

  /** Every identifier survives being displayed and read back. */
  lemma ParseShow(b: Digest)
    ensures ParseId(ShowId(b)) == Some(b)
  {
    DecodeEncode(Flip(b));
    FlipTwice(b);
  }

  /** Exactly the 64-digit texts are identifiers, and displaying one again gives its lower case. */
  lemma ShowParse(s: string)
    ensures ParseId(s).Some? <==> |s| == 64 && AllHex(s)
    ensures ParseId(s).Some? ==> ShowId(ParseId(s).value) == LowerText(s)
  {
    DecodesExactlyHex(s);
    if ParseId(s).Some? {
      EncodeDecode(s);
      FlipTwice(HexDecode(s).value);
    }
  }

  /** reverseHex. */
  method ReverseHex(s: string) returns (r: Option<Digest>)
    ensures r == ParseId(s)
  {
    var raw := HexDecode(s);
    if raw.None? || |raw.value| != 32 {
      return None;
    }
    var out := new Byte[32];
    for i := 0 to 32
      invariant forall j :: 0 <= j < i ==> out[j] == raw.value[31 - j]
    {
      out[i] := raw.value[31 - i];
    }
    assert out[..] == Flip(raw.value);
    r := Some(out[..]);
  }

  /** displayHex. */
  method DisplayHex(b: Digest) returns (s: string)
    ensures s == ShowId(b)
  {
    var flipped := new Byte[32];
    for i := 0 to 32
      invariant forall j :: 0 <= j < i ==> flipped[j] == b[31 - j]
    {
      flipped[i] := b[31 - i];
    }
    assert flipped[..] == Flip(b);
    s := HexEncode(flipped[..]);
  }

  // ----- raw identifiers

  /** binary.LittleEndian.PutUint32: the least significant byte first. */
  function LittleEndian(x: Uint32): (s: seq<Byte>)
    ensures |s| == 4 && WordValue(s[3], s[2], s[1], s[0]) == x
  {
    var big := WordBytes(x);
    [big[3], big[2], big[1], big[0]]
  }

  /** An outpoint as Elements serializes it. */
  function Outpoint(txid: Digest, vout: Uint32): (s: seq<Byte>)
    ensures |s| == 36
  {
    txid + LittleEndian(vout)
  }

  /** Distinct outpoints serialize to distinct preimages. */
  lemma OutpointInjective(t1: Digest, v1: Uint32, t2: Digest, v2: Uint32)
    ensures Outpoint(t1, v1) == Outpoint(t2, v2) <==> t1 == t2 && v1 == v2
  {
    var s1, s2 := Outpoint(t1, v1), Outpoint(t2, v2);
    assert s1[..32] == t1 && s1[32..] == LittleEndian(v1);
    assert s2[..32] == t2 && s2[32..] == LittleEndian(v2);
  }

  function DoubleSha(sha: seq<Byte> -> Digest, b: seq<Byte>): Digest {
    sha(sha(b))
  }

  /** The tag a leaf is hashed with: zero for an asset, one or two for its reissuance token. */
  function Tag(first: Byte): Digest {
    [first] + seq(31, i => 0)
  }

  function TokenTag(confidential: bool): Digest {
    Tag(if confidential then 2 else 1)
  }

  function RawEntropy(sha: seq<Byte> -> Digest, txid: Digest, vout: Uint32, contractHash: Digest): Digest {
    FastMerkle(DoubleSha(sha, Outpoint(txid, vout)), contractHash)
  }

  function RawAsset(entropy: Digest): Digest {
    FastMerkle(entropy, Tag(0))
  }

  function RawToken(entropy: Digest, confidential: bool): Digest {
    FastMerkle(entropy, TokenTag(confidential))
  }

  // ----- identifiers as text

  function EntropyText(sha: seq<Byte> -> Digest, txid: string, vout: Uint32, contractHash: Digest): Option<string> {
    var raw := ParseId(txid);
    if raw.None? then None else Some(ShowId(RawEntropy(sha, raw.value, vout, contractHash)))
  }

  function AssetText(entropy: string): Option<string> {
    var raw := ParseId(entropy);
    if raw.None? then None else Some(ShowId(RawAsset(raw.value)))
  }

  function TokenText(entropy: string, confidential: bool): Option<string> {
    var raw := ParseId(entropy);
    if raw.None? then None else Some(ShowId(RawToken(raw.value, confidential)))
  }

  /** AssetEntropy: the serialized outpoint is filled in a local buffer. */
  method AssetEntropy(sha: seq<Byte> -> Digest, prevTxid: string, prevVout: Uint32, contractHash: Digest)
    returns (entropy: Option<string>)
    ensures entropy == EntropyText(sha, prevTxid, prevVout, contractHash)
  {
    var txid := ReverseHex(prevTxid);
    if txid.None? {
      return None;
    }
    var serialized := new Byte[36](_ => 0);
    for i := 0 to 32
      invariant serialized[..i] == txid.value[..i]
    {
      serialized[i] := txid.value[i];
      assert serialized[..i + 1] == serialized[..i] + [txid.value[i]];
    }
    var number := LittleEndian(prevVout);
    serialized[32], serialized[33], serialized[34], serialized[35] := number[0], number[1], number[2], number[3];
    assert serialized[..] == serialized[..32] + number == Outpoint(txid.value, prevVout);
    var root := FastMerkleHash(DoubleSha(sha, serialized[..]), contractHash);
    var shown := DisplayHex(root);
    entropy := Some(shown);
  }

  /** AssetIDFromEntropy. */
  method AssetIdFromEntropy(entropy: string) returns (id: Option<string>)
    ensures id == AssetText(entropy)
  {
    var e := ReverseHex(entropy);
    if e.None? {
      return None;
    }
    var zero: array<Byte> := new Byte[32](_ => 0);
    assert zero[..] == Tag(0);
    var root := FastMerkleHash(e.value, zero[..]);
    var shown := DisplayHex(root);
    id := Some(shown);
  }

  /** ReissuanceTokenFromEntropy. */
  method ReissuanceTokenFromEntropy(entropy: string, confidential: bool) returns (id: Option<string>)
    ensures id == TokenText(entropy, confidential)
  {
    var e := ReverseHex(entropy);
    if e.None? {
      return None;
    }
    var tag: array<Byte> := new Byte[32](_ => 0);
    if confidential {
      tag[0] := 2;
    } else {
      tag[0] := 1;
    }
    assert tag[..] == TokenTag(confidential);
    var root := FastMerkleHash(e.value, tag[..]);
    var shown := DisplayHex(root);
    id := Some(shown);
  }

  /** Chaining entropy text into identifier text is composing on raw bytes: no step through text loses anything. */
  lemma ChainingIsComposing(sha: seq<Byte> -> Digest, txid: string, vout: Uint32, contractHash: Digest,
                            confidential: bool)
    ensures EntropyText(sha, txid, vout, contractHash).Some? <==> |txid| == 64 && AllHex(txid)
    ensures
      var entropy := EntropyText(sha, txid, vout, contractHash);
      entropy.Some? ==>
        var raw := RawEntropy(sha, ParseId(txid).value, vout, contractHash);
        && ParseId(entropy.value) == Some(raw)
        && AssetText(entropy.value) == Some(ShowId(RawAsset(raw)))
        && TokenText(entropy.value, confidential) == Some(ShowId(RawToken(raw, confidential)))
  {
    ShowParse(txid);
    if ParseId(txid).Some? {
      ParseShow(RawEntropy(sha, ParseId(txid).value, vout, contractHash));
    }
  }

  lemma {:induction false} LowerKeepsHex(s: string)
    requires AllHex(s)
    ensures AllHex(LowerText(s)) && HexDecode(LowerText(s)) == HexDecode(s)
  {
    LowerIsHex(s);
    if s != "" {
      var low := LowerText(s);
      if |s| >= 2 {
        assert low[2..] == LowerText(s[2..]);
        LowerKeepsHex(s[2..]);
      }
    }
  }

  lemma LowerIsHex(s: string)
    requires AllHex(s)
    ensures forall i :: 0 <= i < |s| ==> IsHexDigit(Lower(s[i])) && DigitValue(Lower(s[i])) == DigitValue(s[i])
  {
  }

  /** An entropy names one asset and one token, in whichever case its digits are written. */
  lemma CaseDoesNotMatter(entropy: string, confidential: bool)
    requires AllHex(entropy)
    ensures AssetText(LowerText(entropy)) == AssetText(entropy)
    ensures TokenText(LowerText(entropy), confidential) == TokenText(entropy, confidential)
  {
    LowerKeepsHex(entropy);
  }

  // ----- the check an insert makes

  /** derivation_verified: both displayed identifiers re-derive from the displayed entropy. */
  predicate DerivationVerified(i: ChainModel.Issuance) {
    && i.entropy != ""
    && AssetText(i.entropy) == Some(i.asset)
    && TokenText(i.entropy, i.assetAmountCommitment != "") == Some(i.token)
  }

  /** The identifiers an issuance shows are the canonical spellings of what the entropy e determines. */
  predicate DerivedFrom(i: ChainModel.Issuance, e: Digest) {
    && ParseId(i.entropy) == Some(e)
    && ParseId(i.asset) == Some(RawAsset(e)) && LowerText(i.asset) == i.asset
    && ParseId(i.token) == Some(RawToken(e, i.assetAmountCommitment != "")) && LowerText(i.token) == i.token
  }

  /** displayHex writes lower case, and a lower-case identifier is shown as it was read. */
  lemma ShownIs(s: string, b: Digest)
    ensures s == ShowId(b) <==> ParseId(s) == Some(b) && LowerText(s) == s
  {
    ParseShow(b);
    ShowParse(s);
  }

  lemma VerifiedForEntropy(i: ChainModel.Issuance, e: Digest)
    requires ParseId(i.entropy) == Some(e)
    ensures DerivationVerified(i) <==> DerivedFrom(i, e)
  {
    ShownIs(i.asset, RawAsset(e));
    ShownIs(i.token, RawToken(e, i.assetAmountCommitment != ""));
  }

  /** An issuance is marked verified exactly when one entropy determines both identifiers it shows. */
  lemma VerifiedMeansDerived(i: ChainModel.Issuance)
    ensures DerivationVerified(i) <==> exists e: Digest :: DerivedFrom(i, e)
  {
    if ParseId(i.entropy).Some? { VerifiedForEntropy(i, ParseId(i.entropy).value); }
  }
}
