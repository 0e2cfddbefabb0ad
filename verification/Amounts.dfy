/**
 Exact amount parsing (explorer/elements.go): decimal JSON text to integer satoshis.

 `ParseSats` follows the code: scan the text, build the exact rational that
 math/big builds, multiply by 10^8, and test for an integer in the int64 range.
 `Value` is the independent meaning of the text: the real number its digits stand for by their places.
 */
module Amounts {
  import opened Common

  const SATS_PER_UNIT: int := 100000000

  /** math/big refuses to expand powers of ten beyond this exponent. */
  const MAX_RAT_EXPONENT: int := 1000000

  // ----- digits

  predicate IsDigit(c: char) {
    '0' <= c <= '9'
  }

  predicate AllDigits(s: string) {
    forall i :: 0 <= i < |s| ==> IsDigit(s[i])
  }

  function NatOf(s: string): nat
    requires AllDigits(s)
  {
    if |s| == 0 then 0 else NatOf(s[..|s| - 1]) * 10 + (s[|s| - 1] - '0') as nat
  }

  function Pow10(n: nat): (p: nat)
    ensures p > 0
  {
    if n == 0 then 1 else 10 * Pow10(n - 1)
  }

  /** The length of the longest prefix of digits. */
  function DigitRun(s: string): (n: nat)
    ensures n <= |s| && AllDigits(s[..n])
    ensures n < |s| ==> !IsDigit(s[n])
  {
    if |s| == 0 || !IsDigit(s[0]) then 0 else 1 + DigitRun(s[1..])
  }

  // ----- the grammar of section 6 of RFC 8259

  datatype Exponent = Exponent(marker: char, sign: string, digits: string)

  /** A JSON number by its parts; an empty `fraction` means there is no decimal point. */
  datatype Literal = Literal(negative: bool, whole: string, fraction: string, exponent: Option<Exponent>)

  ghost predicate WellFormedExponent(e: Exponent) {
    && (e.marker == 'e' || e.marker == 'E')
    && (e.sign == "" || e.sign == "+" || e.sign == "-")
    && e.digits != "" && AllDigits(e.digits)
  }

  ghost predicate WellFormed(l: Literal) {
    && l.whole != "" && AllDigits(l.whole) && (l.whole[0] == '0' ==> |l.whole| == 1)
    && AllDigits(l.fraction)
    && (l.exponent.Some? ==> WellFormedExponent(l.exponent.value))
  }

  ghost function ExponentText(e: Option<Exponent>): string {
    if e.None? then "" else [e.value.marker] + e.value.sign + e.value.digits
  }

  ghost function FractionText(fraction: string): string {
    if fraction == "" then "" else "." + fraction
  }

  /** The text of a number: the grammar read as a printer. */
  ghost function Text(l: Literal): string {
    (if l.negative then "-" else "") + (l.whole + (FractionText(l.fraction) + ExponentText(l.exponent)))
  }

  // ----- the scanner

  function ScanExponent(s: string): (r: Option<Option<Exponent>>)
    ensures r.Some? ==> ExponentText(r.value) == s && (r.value.Some? ==> WellFormedExponent(r.value.value))
  {
    if s == "" then Some(None)
    else if s[0] != 'e' && s[0] != 'E' then None
    else
      var signed := |s| > 1 && (s[1] == '+' || s[1] == '-');
      var digits := if signed then s[2..] else s[1..];
      if digits == "" || DigitRun(digits) != |digits| then None
      else
        var sign := if signed then [s[1]] else "";
        assert s == [s[0]] + sign + digits;
        assert digits[..|digits|] == digits;
        Some(Some(Exponent(s[0], sign, digits)))
  }

  /** Reads an optional decimal point with its digits; returns them and what follows. */
  function ScanFraction(s: string): (r: Option<(string, string)>)
    ensures r.Some? ==> AllDigits(r.value.0) && s == FractionText(r.value.0) + r.value.1
  {
    if s == "" || s[0] != '.' then Some(("", s))
    else
      var m := DigitRun(s[1..]);
      if m == 0 then None
      else
        assert s == "." + s[1..][..m] + s[1..][m..];
        Some((s[1..][..m], s[1..][m..]))
  }

  function ScanUnsigned(negative: bool, s: string): (r: Option<Literal>)
    ensures r.Some? ==> WellFormed(r.value) && r.value.negative == negative
    ensures r.Some? ==> s == r.value.whole + (FractionText(r.value.fraction) + ExponentText(r.value.exponent))
  {
    var n := DigitRun(s);
    if n == 0 || (s[0] == '0' && n > 1) then None
    else
      assert s == s[..n] + s[n..];
      match ScanFraction(s[n..])
      case None => None
      case Some((fraction, tail)) =>
        match ScanExponent(tail)
        case None => None
        case Some(e) => Some(Literal(negative, s[..n], fraction, e))
  }

  /** Splits a JSON number into its parts; None for every other text. */
  function Scan(s: string): (r: Option<Literal>)
    ensures r.Some? ==> WellFormed(r.value)
  {
    if s != "" && s[0] == '-' then ScanUnsigned(true, s[1..]) else ScanUnsigned(false, s)
  }

  lemma ScanSound(s: string)
    ensures Scan(s).Some? ==> Text(Scan(s).value) == s
  {
    if s != "" && s[0] == '-' {
      assert s == "-" + s[1..];
    }
  }

  lemma {:induction false} DigitRunStops(ds: string, rest: string)
    requires AllDigits(ds)
    requires rest == "" || !IsDigit(rest[0])
    ensures DigitRun(ds + rest) == |ds|
  {
    if ds == "" {
      assert ds + rest == rest;
    } else {
      assert (ds + rest)[1..] == ds[1..] + rest;
      DigitRunStops(ds[1..], rest);
    }
  }

  lemma ScanExponentComplete(e: Option<Exponent>)
    requires e.Some? ==> WellFormedExponent(e.value)
    ensures ScanExponent(ExponentText(e)) == Some(e)
  {
    if e.Some? {
      var s := ExponentText(e);
      DigitRunStops(e.value.digits, "");
      assert e.value.digits + "" == e.value.digits;
      if e.value.sign == "" {
        assert s[1..] == e.value.digits;
        assert IsDigit(s[1]);
      } else {
        assert s[1] == e.value.sign[0];
        assert s[2..] == e.value.digits;
      }
    }
  }

  lemma ScanFractionComplete(fraction: string, tail: string)
    requires AllDigits(fraction)
    requires tail == "" || (!IsDigit(tail[0]) && tail[0] != '.')
    ensures ScanFraction(FractionText(fraction) + tail) == Some((fraction, tail))
  {
    var s := FractionText(fraction) + tail;
    if fraction == "" {
      assert s == tail;
    } else {
      assert s[1..] == fraction + tail;
      DigitRunStops(fraction, tail);
      assert s[1..][..|fraction|] == fraction && s[1..][|fraction|..] == tail;
    }
  }

  lemma ScanUnsignedComplete(l: Literal)
    requires WellFormed(l)
    ensures ScanUnsigned(l.negative, l.whole + (FractionText(l.fraction) + ExponentText(l.exponent))) == Some(l)
  {
    var tail := ExponentText(l.exponent);
    var rest := FractionText(l.fraction) + tail;
    var s := l.whole + rest;
    assert tail != "" ==> tail[0] == l.exponent.value.marker;
    assert l.fraction == "" ==> rest == tail;
    DigitRunStops(l.whole, rest);
    assert s[..|l.whole|] == l.whole && s[|l.whole|..] == rest;
    ScanFractionComplete(l.fraction, tail);
    ScanExponentComplete(l.exponent);
  }

  /** The scanner accepts every JSON number and recovers its parts. */
  lemma ScanComplete(l: Literal)
    requires WellFormed(l)
    ensures Scan(Text(l)) == Some(l)
  {
    var s := l.whole + (FractionText(l.fraction) + ExponentText(l.exponent));
    ScanUnsignedComplete(l);
    if l.negative {
      assert Text(l)[1..] == s;
    } else {
      assert IsDigit(l.whole[0]) && Text(l)[0] == l.whole[0];
      assert Text(l) == s;
    }
  }

  // ----- the amount

  function ExponentOf(e: Option<Exponent>): int
    requires e.Some? ==> AllDigits(e.value.digits)
  {
    if e.None? then 0
    else if e.value.sign == "-" then 0 - NatOf(e.value.digits) else NatOf(e.value.digits)
  }

  lemma AllDigitsConcat(a: string, b: string)
    requires AllDigits(a) && AllDigits(b)
    ensures AllDigits(a + b)
  {
  }

  function Mantissa(l: Literal): int
    requires AllDigits(l.whole) && AllDigits(l.fraction)
  {
    AllDigitsConcat(l.whole, l.fraction);
    if l.negative then 0 - NatOf(l.whole + l.fraction) else NatOf(l.whole + l.fraction)
  }

  /** The power of ten that scales the mantissa once the decimal point is dropped. */
  function Scale(l: Literal): int
    requires l.exponent.Some? ==> AllDigits(l.exponent.value.digits)
  {
    ExponentOf(l.exponent) - |l.fraction|
  }

  datatype Rational = Rational(num: int, den: nat)

  /** mantissa * 10^scale as a fraction. */
  function Expand(mantissa: int, scale: int): (r: Rational)
    ensures r.den > 0
  {
    if mantissa == 0 then Rational(0, 1)
    else if scale >= 0 then Rational(mantissa * Pow10(scale), 1)
    else Rational(mantissa, Pow10(-scale))
  }

  /** The texts whose exponent math/big is willing to expand. */
  predicate Expandable(l: Literal)
    requires WellFormed(l)
  {
    && FitsInt64(ExponentOf(l.exponent))
    && (Mantissa(l) == 0 || -MAX_RAT_EXPONENT <= Scale(l) <= MAX_RAT_EXPONENT)
  }

  /** The fraction in satoshis, when it is a whole number of them and fits in an int64. */
  function WholeSats(q: Rational): Option<int>
    requires q.den > 0
  {
    var num := q.num * SATS_PER_UNIT;
    if num % q.den != 0 then None
    else if !FitsInt64(num / q.den) then None
    else Some(num / q.den)
  }

  function ParseSats(s: string): Option<int> {
    match Scan(s)
    case None => None
    case Some(l) =>
      if !Expandable(l) then None else WholeSats(Expand(Mantissa(l), Scale(l)))
  }

  // ----- what the text means

  /** x * 10^e: the decimal point of x moved e places. */
  ghost function Shifted(x: real, e: int): real
    decreases if e < 0 then -e else e
  {
    if e == 0 then x else if e > 0 then 10.0 * Shifted(x, e - 1) else Shifted(x, e + 1) / 10.0
  }

  function DigitOf(c: char): int
    requires IsDigit(c)
  {
    c as int - '0' as int
  }

  /** d * 10^n. */
  ghost function Tens(d: int, n: nat): int {
    if n == 0 then d else 10 * Tens(d, n - 1)
  }

  /** Digit i of n counts 10^(n - 1 - i). */
  ghost function WholeValue(s: string): int
    requires AllDigits(s)
  {
    if s == "" then 0 else Tens(DigitOf(s[0]), |s| - 1) + WholeValue(s[1..])
  }

  /** Digit i behind the decimal point counts 10^-(i + 1). */
  ghost function FractionValue(s: string): real
    requires AllDigits(s)
  {
    if s == "" then 0.0 else FractionValue(s[..|s| - 1]) + Shifted(DigitOf(s[|s| - 1]) as real, 0 - |s|)
  }

  ghost function SignedExponent(e: Option<Exponent>): int
    requires e.Some? ==> WellFormedExponent(e.value)
  {
    match e
    case None => 0
    case Some(x) => if x.sign == "-" then 0 - WholeValue(x.digits) else WholeValue(x.digits)
  }

  /** The number a JSON text denotes, by the places of its digits. */
  ghost function Value(l: Literal): real
    requires WellFormed(l)
  {
    var magnitude := Shifted(WholeValue(l.whole) as real + FractionValue(l.fraction), SignedExponent(l.exponent));
    if l.negative then 0.0 - magnitude else magnitude
  }

  ghost predicate OnlyZeros(s: string) {
    forall i :: 0 <= i < |s| ==> s[i] == '0'
  }

  /** The texts the library expands: a 64-bit exponent, and within a million once the point is dropped unless zero. */
  ghost predicate Expands(l: Literal)
    requires WellFormed(l)
  {
    var e := SignedExponent(l.exponent);
    && FitsInt64(e)
    && ((OnlyZeros(l.whole) && OnlyZeros(l.fraction)) || -1_000_000 <= e - |l.fraction| <= 1_000_000)
  }

  // ----- places against the code's arithmetic

  lemma {:induction false} FirstPlace(c: char, rest: string)
    requires IsDigit(c) && AllDigits(rest)
    ensures NatOf([c] + rest) == Tens(DigitOf(c), |rest|) + NatOf(rest)
  {
    var s := [c] + rest;
    if rest == "" {
      assert s[..0] == "";
    } else {
      var front := rest[..|rest| - 1];
      FirstPlace(c, front);
      assert s[..|s| - 1] == [c] + front;
    }
  }

  lemma {:induction false} PlacesAddUp(s: string)
    requires AllDigits(s)
    ensures WholeValue(s) == NatOf(s)
  {
    if s != "" {
      PlacesAddUp(s[1..]);
      FirstPlace(s[0], s[1..]);
      assert [s[0]] + s[1..] == s;
    }
  }

  lemma {:induction false} ShiftedSum(x: real, y: real, e: int)
    ensures Shifted(x + y, e) == Shifted(x, e) + Shifted(y, e)
    decreases if e < 0 then -e else e
  {
    if e > 0 { ShiftedSum(x, y, e - 1); }
    if e < 0 { ShiftedSum(x, y, e + 1); }
  }

  lemma {:induction false} ShiftedNegative(x: real, e: int)
    ensures Shifted(0.0 - x, e) == 0.0 - Shifted(x, e)
    decreases if e < 0 then -e else e
  {
    if e > 0 { ShiftedNegative(x, e - 1); }
    if e < 0 { ShiftedNegative(x, e + 1); }
  }

  lemma {:induction false} ShiftedTenfold(x: real, e: int)
    ensures Shifted(10.0 * x, e) == Shifted(x, e + 1) == 10.0 * Shifted(x, e)
    decreases if e < 0 then -e else e
  {
    if e > 0 { ShiftedTenfold(x, e - 1); }
    if e < 0 { ShiftedTenfold(x, e + 1); }
  }

  lemma {:induction false} ShiftedTwice(x: real, n: nat, e: int)
    ensures Shifted(Shifted(x, 0 - n), e) == Shifted(x, e - n)
    decreases n
  {
    if n > 0 {
      var y := Shifted(x, 0 - n);
      ShiftedTwice(x, n - 1, e);
      assert Shifted(x, 0 - (n - 1)) == 10.0 * y;
      ShiftedTenfold(y, e);
      ShiftedTenfold(x, e - n);
    }
  }

  /** Appending digits moves the point of those before them. */
  lemma {:induction false} DigitsAppended(w: string, f: string)
    requires AllDigits(w) && AllDigits(f)
    ensures AllDigits(w + f) && Shifted(NatOf(w + f) as real, 0 - |f|) == NatOf(w) as real + FractionValue(f)
  {
    if f == "" {
      assert w + f == w;
    } else {
      var front, d := f[..|f| - 1], DigitOf(f[|f| - 1]) as real;
      DigitsAppended(w, front);
      assert (w + f)[..|w + f| - 1] == w + front;
      var n := NatOf(w + front) as real;
      assert NatOf(w + f) as real == 10.0 * n + d;
      ShiftedSum(10.0 * n, d, 0 - |f|);
      ShiftedTenfold(n, 0 - |f|);
    }
  }

  lemma ExponentIsSigned(e: Option<Exponent>)
    requires e.Some? ==> WellFormedExponent(e.value)
    ensures ExponentOf(e) == SignedExponent(e)
  {
    if e.Some? { PlacesAddUp(e.value.digits); }
  }

  /** Mantissa and scale denote the same number as the digits by their places. */
  lemma ValueIsScaled(l: Literal)
    requires WellFormed(l)
    ensures Value(l) == Shifted(Mantissa(l) as real, Scale(l))
  {
    var n, e := NatOf(l.whole + l.fraction) as real, SignedExponent(l.exponent);
    PlacesAddUp(l.whole);
    DigitsAppended(l.whole, l.fraction);
    ExponentIsSigned(l.exponent);
    ShiftedTwice(n, |l.fraction|, e);
    ShiftedNegative(n, e - |l.fraction|);
  }

  lemma {:induction false} ZeroDigits(s: string)
    requires AllDigits(s)
    ensures NatOf(s) == 0 <==> OnlyZeros(s)
  {
    if s != "" {
      var front := s[..|s| - 1];
      ZeroDigits(front);
      assert NatOf(s) == 10 * NatOf(front) + DigitOf(s[|s| - 1]);
      assert OnlyZeros(s) <==> OnlyZeros(front) && s[|s| - 1] == '0';
    }
  }

  lemma ExpandableIs(l: Literal)
    requires WellFormed(l)
    ensures Expandable(l) <==> Expands(l)
  {
    var all := l.whole + l.fraction;
    ExponentIsSigned(l.exponent);
    ZeroDigits(all);
    assert forall i :: 0 <= i < |l.whole| ==> all[i] == l.whole[i];
    assert forall i :: 0 <= i < |l.fraction| ==> all[|l.whole| + i] == l.fraction[i];
  }

  lemma DivisionExact(num: int, den: nat, v: int)
    requires den > 0
    ensures (num % den == 0 && num / den == v) <==> num == v * den
  {
    assert num == (num / den) * den + num % den;
    if num == v * den {
      MultipleBelow(num / den - v, den, num % den);
    }
  }

  /** The only multiple of den in [0, den) is zero. */
  lemma MultipleBelow(q: int, den: int, r: int)
    requires 0 <= r < den && q * den + r == 0
    ensures q == 0 && r == 0
  {
    assert q > 0 ==> q * den >= den;
    assert q < 0 ==> q * den <= -den;
  }

  lemma RationalMeansReal(num: int, den: nat, v: int, value: real)
    requires den > 0
    requires value == num as real / den as real
    ensures num * SATS_PER_UNIT == v * den <==> v as real == value * SATS_PER_UNIT as real
  {
    assert value * den as real == num as real;
    assert (num * SATS_PER_UNIT) as real == value * SATS_PER_UNIT as real * den as real;
    assert (v * den) as real == v as real * den as real;
    if (v * den) as real == (num * SATS_PER_UNIT) as real {
      assert (v as real - value * SATS_PER_UNIT as real) * den as real == 0.0;
    }
  }

  /** v satoshis are worth exactly `value` units. */
  ghost predicate Worth(value: real, v: int) {
    v as real == value * SATS_PER_UNIT as real
  }

  lemma {:induction false} ShiftedUp(m: int, n: nat)
    ensures Shifted(m as real, n) == (m * Pow10(n)) as real
  {
    if n > 0 {
      ShiftedUp(m, n - 1);
      assert m * Pow10(n) == 10 * (m * Pow10(n - 1));
    }
  }

  lemma {:induction false} ShiftedDown(x: real, n: nat)
    ensures Pow10(n) as real * Shifted(x, 0 - n) == x
  {
    if n > 0 {
      ShiftedDown(x, n - 1);
      OneMorePower(Pow10(n - 1), Pow10(n), Shifted(x, 0 - (n - 1)), Shifted(x, 0 - n), x);
    }
  }

  lemma OneMorePower(p: nat, p': nat, y: real, y': real, x: real)
    requires p as real * y == x && p' == 10 * p && y == 10.0 * y'
    ensures p' as real * y' == x
  {
    assert p' as real == 10.0 * p as real;
    assert p as real * (10.0 * y') == 10.0 * p as real * y';
  }

  lemma ExpandMeaning(m: int, e: int)
    ensures Shifted(m as real, e) == Expand(m, e).num as real / Expand(m, e).den as real
  {
    if m == 0 {
      ShiftedNegative(0.0, e);
    } else if e >= 0 {
      ShiftedUp(m, e);
    } else {
      ShiftedDown(m as real, -e);
      Divided(m as real, Pow10(-e), Shifted(m as real, e));
    }
  }

  lemma Divided(x: real, p: nat, y: real)
    requires p > 0 && p as real * y == x
    ensures y == x / p as real
  {
  }

  lemma WholeSatsExact(q: Rational, v: int, value: real)
    requires q.den > 0 && value == q.num as real / q.den as real
    ensures WholeSats(q) == Some(v) <==> FitsInt64(v) && Worth(value, v)
  {
    DivisionExact(q.num * SATS_PER_UNIT, q.den, v);
    RationalMeansReal(q.num, q.den, v, value);
  }

  lemma WorthExact(m: int, e: int, v: int)
    ensures WholeSats(Expand(m, e)) == Some(v) <==> FitsInt64(v) && Worth(Shifted(m as real, e), v)
  {
    ExpandMeaning(m, e);
    WholeSatsExact(Expand(m, e), v, Shifted(m as real, e));
  }

  lemma ParseSatsOfText(l: Literal)
    requires WellFormed(l)
    ensures ParseSats(Text(l)) == if Expandable(l) then WholeSats(Expand(Mantissa(l), Scale(l))) else None
  {
    ScanComplete(l);
  }

  /** Parsing is exact: a JSON number yields v precisely when it is worth v satoshis. */
  lemma ParseSatsExact(l: Literal, v: int)
    requires WellFormed(l)
    ensures ParseSats(Text(l)) == Some(v) <==> Expands(l) && FitsInt64(v) && Worth(Value(l), v)
  {
    ParseSatsOfText(l);
    ExpandableIs(l);
    ValueIsScaled(l);
    WorthExact(Mantissa(l), Scale(l), v);
  }

  /** A text outside the grammar is refused. */
  lemma ParseSatsOnlyNumbers(s: string)
    ensures ParseSats(s).Some? ==> exists l :: WellFormed(l) && Text(l) == s
  {
    if ParseSats(s).Some? {
      ScanSound(s);
    }
  }

  /** Plain and scientific spellings of one amount agree. */
  lemma SpellingsAgree(a: Literal, b: Literal)
    requires WellFormed(a) && WellFormed(b) && Expands(a) && Expands(b)
    requires Value(a) == Value(b)
    ensures ParseSats(Text(a)) == ParseSats(Text(b))
  {
    var ra, rb := ParseSats(Text(a)), ParseSats(Text(b));
    if ra.Some? {
      ParseSatsExact(a, ra.value);
      ParseSatsExact(b, ra.value);
    } else if rb.Some? {
      ParseSatsExact(a, rb.value);
      ParseSatsExact(b, rb.value);
    }
  }

  // ----- printing with eight decimals

  function Digit(d: nat): (c: char)
    requires d < 10
    ensures IsDigit(c) && (c - '0') as nat == d
  {
    '0' + d as char
  }

  /** Exactly `width` decimal digits of n, most significant first. */
  function Padded(n: nat, width: nat): (s: string)
    requires n < Pow10(width)
    ensures |s| == width && AllDigits(s) && NatOf(s) == n
  {
    if width == 0 then ""
    else
      var s := Padded(n / 10, width - 1) + [Digit(n % 10)];
      assert s[..|s| - 1] == Padded(n / 10, width - 1);
      s
  }

  /** The decimal digits of n without leading zeros. */
  function Decimal(n: nat): (s: string)
    ensures s != "" && AllDigits(s) && NatOf(s) == n
    ensures s[0] == '0' ==> |s| == 1
    ensures n > 0 ==> s[0] != '0'
  {
    if n < 10 then
      assert [Digit(n)][..0] == "";
      [Digit(n)]
    else
      var s := Decimal(n / 10) + [Digit(n % 10)];
      assert s[..|s| - 1] == Decimal(n / 10);
      s
  }

  lemma TimesTen(x: nat, n: nat)
    ensures x * Pow10(n) * 10 == x * Pow10(n + 1)
  {
  }

  lemma {:induction false} NatOfConcat(a: string, b: string)
    requires AllDigits(a) && AllDigits(b)
    ensures AllDigits(a + b) && NatOf(a + b) == NatOf(a) * Pow10(|b|) + NatOf(b)
  {
    if b == "" {
      assert a + b == a;
    } else {
      var c := b[..|b| - 1];
      NatOfConcat(a, c);
      assert (a + b)[..|a + b| - 1] == a + c;
      TimesTen(NatOf(a), |c|);
    }
  }

  ghost function EightDecimals(v: int): Literal {
    var n := if v < 0 then -v else v;
    assert Pow10(8) == SATS_PER_UNIT by {
      assert Pow10(4) == 10000;
      assert Pow10(6) == 1000000;
    }
    Literal(v < 0, Decimal(n / SATS_PER_UNIT), Padded(n % SATS_PER_UNIT, 8), None)
  }

  lemma EightDecimalsMeaning(v: int)
    ensures WellFormed(EightDecimals(v))
    ensures Mantissa(EightDecimals(v)) == v && Scale(EightDecimals(v)) == -8
  {
    var l := EightDecimals(v);
    NatOfConcat(l.whole, l.fraction);
    PowerOfEight();
  }

  lemma PowerOfEight()
    ensures Pow10(8) == SATS_PER_UNIT
  {
    assert Pow10(4) == 10000;
    assert Pow10(6) == 1000000;
  }

  lemma EightDecimalsWorth(v: int)
    ensures Worth(Shifted(v as real, -8), v)
  {
    PowerOfEight();
    ShiftedDown(v as real, 8);
  }

  /** Every int64 satoshi count printed with eight decimals parses back to itself. */
  lemma EightDecimalsRoundTrip(v: int)
    requires FitsInt64(v)
    ensures WellFormed(EightDecimals(v))
    ensures ParseSats(Text(EightDecimals(v))) == Some(v)
  {
    EightDecimalsMeaning(v);
    ParseSatsOfText(EightDecimals(v));
    WorthExact(v, -8, v);
    assert Worth(Shifted(v as real, -8), v) by { EightDecimalsWorth(v); }
  }

  /** The spelling the parser is there for: 3.647e-05 of a coin are 3647 satoshis, exactly. */
  lemma SmallFeeIsExact()
    ensures ParseSats("3.647e-05") == Some(3647)
  {
    var l := Literal(false, "3", "647", Some(Exponent('e', "-", "05")));
    assert Text(l) == "3.647e-05";
    ParseSatsOfText(l);
    SmallFeeParts(l);
    PowerOfEight();
    WholeSatsOfUnit(3647, Pow10(8));
  }

  lemma SmallFeeParts(l: Literal)
    requires l == Literal(false, "3", "647", Some(Exponent('e', "-", "05")))
    ensures Mantissa(l) == 3647 && Scale(l) == -8
  {
    assert l.whole + l.fraction == "3647";
    assert "3647"[..3] == "364" && "364"[..2] == "36" && "36"[..1] == "3" && "3"[..0] == "";
    assert "05"[..1] == "0" && "0"[..0] == "";
  }

  lemma WholeSatsOfUnit(m: int, unit: nat)
    requires unit == SATS_PER_UNIT && FitsInt64(m)
    ensures WholeSats(Rational(m, unit)) == Some(m)
  {
    DivisionExact(m * SATS_PER_UNIT, unit, m);
  }

  // ----- where the exponent limit bites

  ghost function Zeros(n: nat): (s: string)
    ensures |s| == n && AllDigits(s)
  {
    seq(n, i => '0')
  }

  lemma {:induction false} NatOfOneAndZeros(n: nat)
    ensures NatOf("1" + Zeros(n)) == Pow10(n)
  {
    var s := "1" + Zeros(n);
    if n == 0 {
      assert s == "1";
      assert s[..0] == "";
    } else {
      NatOfOneAndZeros(n - 1);
      assert s[..|s| - 1] == "1" + Zeros(n - 1);
    }
  }

  /** 10^n spelt as digits and scaled back by the exponent -n. */
  ghost function OneCoinSpeltLong(n: nat, digits: string): Literal {
    Literal(false, "1" + Zeros(n), "", Some(Exponent('e', "-", digits)))
  }

  ghost predicate Spells(digits: string, n: nat) {
    digits != "" && AllDigits(digits) && NatOf(digits) == n
  }

  lemma SpeltLongParts(n: nat, digits: string)
    requires Spells(digits, n)
    ensures var l := OneCoinSpeltLong(n, digits); WellFormed(l) && Mantissa(l) == Pow10(n) && Scale(l) == 0 - n
  {
    var l := OneCoinSpeltLong(n, digits);
    assert l.whole + l.fraction == l.whole;
    NatOfOneAndZeros(n);
  }

  lemma {:induction false} PowerCancels(n: nat)
    ensures Shifted(Pow10(n) as real, 0 - n) == 1.0
  {
    if n > 0 {
      PowerCancels(n - 1);
      ShiftedTenfold(Pow10(n - 1) as real, 0 - n);
    }
  }

  lemma SpeltLongIsOne(n: nat, digits: string)
    requires Spells(digits, n) && n > 0
    ensures WellFormed(OneCoinSpeltLong(n, digits)) && Value(OneCoinSpeltLong(n, digits)) == 1.0
  {
    SpeltLongParts(n, digits);
    ValueIsScaled(OneCoinSpeltLong(n, digits));
    PowerCancels(n);
  }

  /**
   One coin written with more than a million zeros and an exponent that takes them back is refused,
   although it is exactly 10^8 satoshis.
   */
  lemma ExponentLimitBites(n: nat, digits: string)
    requires Spells(digits, n) && n > MAX_RAT_EXPONENT
    ensures var l := OneCoinSpeltLong(n, digits); WellFormed(l) && Value(l) == 1.0 && ParseSats(Text(l)) == None
  {
    SpeltLongParts(n, digits);
    SpeltLongIsOne(n, digits);
    ParseSatsOfText(OneCoinSpeltLong(n, digits));
  }

  /** And there is such a text. */
  lemma MillionAndOneBites()
    ensures Spells("1000001", 1000001) && 1000001 > MAX_RAT_EXPONENT
  {
    assert "1000001"[..6] == "100000";
    assert "100000"[..5] == "10000";
    assert "10000"[..4] == "1000";
    assert "1000"[..3] == "100";
    assert "100"[..2] == "10";
    assert "10"[..1] == "1";
    assert "1"[..0] == "";
  }
}
