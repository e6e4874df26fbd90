/** Decimal amounts as Python's Decimal holds them: a coefficient and a number of decimal places. */
module Decimals {
  import opened Wrappers
  import opened Numerals

  const MAX_PLACES := 6

  /** coeff / 10^places. With at most six places str() never uses an exponent. */
  datatype Amount = Amount(coeff: int, places: nat)

  type Decimal = d: Amount | d.places <= MAX_PLACES witness Amount(0, 0)

  /** The value in millionths. */
  function Micros(d: Decimal): int {
    match d.places
    case 0 => 1_000_000 * d.coeff
    case 1 => 100_000 * d.coeff
    case 2 => 10_000 * d.coeff
    case 3 => 1_000 * d.coeff
    case 4 => 100 * d.coeff
    case 5 => 10 * d.coeff
    case 6 => d.coeff
  }

  function Pow10(n: nat): nat {
    if n == 0 then 1 else 10 * Pow10(n - 1)
  }

  /** The value in millionths is the coefficient over the power of ten of the places. */
  lemma MicrosExact(d: Decimal)
    ensures Micros(d) * Pow10(d.places) == 1_000_000 * d.coeff
  {
    assert Pow10(1) == 10 && Pow10(2) == 100 && Pow10(3) == 1_000;
    assert Pow10(4) == 10_000 && Pow10(5) == 100_000 && Pow10(6) == 1_000_000;
  }

  lemma MicrosSign(d: Decimal)
    ensures Micros(d) > 0 <==> d.coeff > 0
  {
  }

  /** n without its last `digits` decimal digits. */
  function DropDigits(n: nat, digits: nat): nat {
    if digits == 0 then n else DropDigits(n / 10, digits - 1)
  }

  /** The last `width` decimal digits of n. */
  function LastDigits(n: nat, width: nat): (s: string)
    ensures |s| == width && AllDigits(s)
  {
    if width == 0 then "" else LastDigits(n / 10, width - 1) + [DigitChar(n % 10)]
  }

  function MagnitudeText(n: nat, places: nat): string {
    if places == 0 then DecText(n) else DecText(DropDigits(n, places)) + "." + LastDigits(n, places)
  }

  /** str(d). */
  function Text(d: Decimal): string {
    if d.coeff < 0 then "-" + MagnitudeText(-d.coeff, d.places) else MagnitudeText(d.coeff, d.places)
  }

  /** The amount written as a digit run followed by nothing, or by a point and at most `maxPlaces` digits. */
  function ReadParts(whole: string, tail: string, maxPlaces: nat): (r: Option<Decimal>)
    requires AllDigits(whole) && maxPlaces <= MAX_PLACES
    ensures r.Some? ==> r.value.coeff >= 0 && r.value.places <= maxPlaces
  {
    if whole == [] then None
    else if tail == [] then Some(Amount(DecValue(whole), 0))
    else
      var fraction := tail[1..];
      if tail[0] != '.' || !(1 <= |fraction| <= maxPlaces) || !AllDigits(fraction) then None
      else Some(Amount(DecValue(whole + fraction), |fraction|))
  }

  /** The unsigned plain notation. */
  function ReadUnsigned(s: string, maxPlaces: nat): (r: Option<Decimal>)
    requires maxPlaces <= MAX_PLACES
    ensures r.Some? ==> r.value.coeff >= 0 && r.value.places <= maxPlaces
  {
    ReadParts(s[..DigitRun(s)], s[DigitRun(s)..], maxPlaces)
  }

  function Negated(r: Option<Decimal>): Option<Decimal> {
    if r.None? || r.value.coeff == 0 then None else Some(Amount(-r.value.coeff, r.value.places))
  }

  function Read(s: string): Option<Decimal> {
    if s != [] && s[0] == '-' then Negated(ReadUnsigned(s[1..], MAX_PLACES)) else ReadUnsigned(s, MAX_PLACES)
  }

  lemma {:induction false} DigitsOf(n: nat, places: nat)
    ensures AllDigits(DecText(DropDigits(n, places)) + LastDigits(n, places))
    ensures DecValue(DecText(DropDigits(n, places)) + LastDigits(n, places)) == n
  {
    if places == 0 {
      DecValueOfText(n);
      assert DecText(n) + "" == DecText(n);
    } else {
      var front := DecText(DropDigits(n, places)) + LastDigits(n / 10, places - 1);
      DigitsOf(n / 10, places - 1);
      DecValueSnoc(front, DigitChar(n % 10));
      assert DecText(DropDigits(n, places)) + LastDigits(n, places) == front + [DigitChar(n % 10)];
    }
  }

  lemma ReadUnsignedOfText(n: nat, places: nat, maxPlaces: nat)
    requires places <= maxPlaces <= MAX_PLACES
    ensures ReadUnsigned(MagnitudeText(n, places), maxPlaces) == Some(Amount(n, places))
  {
    var t := MagnitudeText(n, places);
    if places == 0 {
      DigitRunOf(t, "");
      assert t + "" == t;
      DecValueOfText(n);
    } else {
      var whole, fraction := DecText(DropDigits(n, places)), LastDigits(n, places);
      assert t == whole + ("." + fraction);
      DigitRunOf(whole, "." + fraction);
      assert t[..|whole|] == whole && t[|whole|..] == "." + fraction && ("." + fraction)[1..] == fraction;
      DigitsOf(n, places);
    }
  }

  lemma MagnitudeStart(n: nat, places: nat)
    ensures MagnitudeText(n, places) != [] && IsDigit(MagnitudeText(n, places)[0])
  {
  }

  lemma ReadPlus(t: string)
    requires t != [] && IsDigit(t[0])
    ensures Read(t) == ReadUnsigned(t, MAX_PLACES)
  {
  }

  lemma ReadMinus(t: string)
    ensures Read("-" + t) == Negated(ReadUnsigned(t, MAX_PLACES))
  {
    assert ("-" + t)[1..] == t;
  }

  lemma ReadNegative(d: Decimal, t: string)
    requires d.coeff < 0 && ReadUnsigned(t, MAX_PLACES) == Some(Amount(-d.coeff, d.places))
    ensures Read("-" + t) == Some(d)
  {
    ReadMinus(t);
  }

  lemma ReadNonNegative(d: Decimal, t: string)
    requires d.coeff >= 0 && ReadUnsigned(t, MAX_PLACES) == Some(d) && t != [] && IsDigit(t[0])
    ensures Read(t) == Some(d)
  {
    ReadPlus(t);
  }

  lemma ReadOfNegative(d: Decimal)
    requires d.coeff < 0
    ensures Read("-" + MagnitudeText(-d.coeff, d.places)) == Some(d)
  {
    ReadUnsignedOfText(-d.coeff, d.places, MAX_PLACES);
    ReadNegative(d, MagnitudeText(-d.coeff, d.places));
  }

  lemma ReadOfNonNegative(d: Decimal)
    requires d.coeff >= 0
    ensures Read(MagnitudeText(d.coeff, d.places)) == Some(d)
  {
    MagnitudeStart(d.coeff, d.places);
    ReadUnsignedOfText(d.coeff, d.places, MAX_PLACES);
    ReadNonNegative(d, MagnitudeText(d.coeff, d.places));
  }

  /** Printing a decimal and reading it back is lossless: digits, point and number of places. */
  lemma ReadOfText(d: Decimal)
    ensures Read(Text(d)) == Some(d)
  {
    if d.coeff < 0 {
      assert Text(d) == "-" + MagnitudeText(-d.coeff, d.places);
      ReadOfNegative(d);
    } else {
      assert Text(d) == MagnitudeText(d.coeff, d.places);
      ReadOfNonNegative(d);
    }
  }

  lemma DigitTake(n: nat, c: char)
    requires IsDigit(c)
    ensures (10 * n + DigitValue(c)) / 10 == n && DigitChar((10 * n + DigitValue(c)) % 10) == c
  {
    DigitCharOfValue(c);
  }

  lemma {:induction false} DropLast(whole: string, fraction: string)
    requires AllDigits(whole) && AllDigits(fraction)
    ensures AllDigits(whole + fraction)
    ensures DropDigits(DecValue(whole + fraction), |fraction|) == DecValue(whole)
    ensures LastDigits(DecValue(whole + fraction), |fraction|) == fraction
  {
    if fraction == [] {
      assert whole + fraction == whole;
    } else {
      var p, c := fraction[..|fraction| - 1], fraction[|fraction| - 1];
      assert fraction == p + [c] && whole + fraction == (whole + p) + [c];
      DropLast(whole, p);
      DecValueSnoc(whole + p, c);
      DigitTake(DecValue(whole + p), c);
    }
  }

  /** Reading an amount and printing it gives the same text exactly when the text has no superfluous leading zero. */
  lemma TextOfRead(s: string, maxPlaces: nat)
    requires maxPlaces <= MAX_PLACES && ReadUnsigned(s, maxPlaces).Some?
    ensures Text(ReadUnsigned(s, maxPlaces).value) == s <==> !SuperfluousZero(s[..DigitRun(s)])
  {
    var n := DigitRun(s);
    var whole := s[..n];
    DecTextOfValue(whole);
    if n == |s| {
      assert whole == s;
    } else {
      var fraction := s[n..][1..];
      var text := Text(ReadUnsigned(s, maxPlaces).value);
      DropLast(whole, fraction);
      assert s == whole + "." + fraction;
      assert text == DecText(DecValue(whole)) + "." + fraction;
      if text == s {
        assert |DecText(DecValue(whole))| == |whole|;
        assert text[..|whole|] == DecText(DecValue(whole)) && s[..|whole|] == whole;
      }
    }
  }
}
