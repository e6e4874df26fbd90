/** Decimal and hexadecimal numerals: printing natural numbers, reading them back. */
module Numerals {

  predicate IsDigit(c: char) {
    '0' <= c <= '9'
  }

  predicate AllDigits(s: string) {
    forall i :: 0 <= i < |s| ==> IsDigit(s[i])
  }

  function DigitChar(d: nat): (c: char)
    requires d < 10
    ensures IsDigit(c) && DigitValue(c) == d
  {
    '0' + d as char
  }

  function DigitValue(c: char): (d: nat)
    requires IsDigit(c)
    ensures d < 10
  {
    (c as int) - ('0' as int)
  }

  lemma DigitCharOfValue(c: char)
    requires IsDigit(c)
    ensures DigitChar(DigitValue(c)) == c
  {
  }

  /** A numeral of several digits whose first digit is zero. */
  predicate SuperfluousZero(s: string) {
    |s| > 1 && s[0] == '0'
  }

  function DecText(n: nat): (s: string)
    ensures |s| > 0 && AllDigits(s) && !SuperfluousZero(s)
    ensures n > 0 ==> s[0] != '0'
  {
    if n < 10 then [DigitChar(n)] else DecText(n / 10) + [DigitChar(n % 10)]
  }

  function DecValue(s: string): nat
    requires AllDigits(s)
  {
    if s == [] then 0 else 10 * DecValue(s[..|s| - 1]) + DigitValue(s[|s| - 1])
  }

  lemma {:induction false} DecValueOfText(n: nat)
    ensures DecValue(DecText(n)) == n
  {
    if n < 10 {
    } else {
      DecValueOfText(n / 10);
      assert DecText(n)[..|DecText(n)| - 1] == DecText(n / 10);
    }
  }

  lemma DecValueSnoc(s: string, c: char)
    requires AllDigits(s) && IsDigit(c)
    ensures AllDigits(s + [c]) && DecValue(s + [c]) == 10 * DecValue(s) + DigitValue(c)
  {
    assert (s + [c])[..|s + [c]| - 1] == s;
  }

  lemma {:induction false} DecValuePositive(s: string)
    requires AllDigits(s) && |s| > 0 && s[0] != '0'
    ensures DecValue(s) > 0
  {
    if |s| <= 1 {
    } else {
      DecValuePositive(s[..|s| - 1]);
    }
  }

  /** Reading a numeral and printing it again is the identity exactly on numerals without a superfluous zero. */
  lemma {:induction false} DecTextOfValue(s: string)
    requires AllDigits(s) && |s| > 0
    ensures DecText(DecValue(s)) == s <==> !SuperfluousZero(s)
  {
    if !SuperfluousZero(s) {
      var p, c := s[..|s| - 1], s[|s| - 1];
      assert s == p + [c];
      DigitCharOfValue(c);
      if p != [] {
        assert !SuperfluousZero(p) && p[0] != '0';
        DecTextOfValue(p);
        DecValuePositive(p);
        assert DecValue(s) / 10 == DecValue(p);
      }
    }
  }

  /** How many decimal digits `s` starts with. */
  function DigitRun(s: string): (n: nat)
    ensures n <= |s| && AllDigits(s[..n])
    ensures n < |s| ==> !IsDigit(s[n])
  {
    if s == [] || !IsDigit(s[0]) then 0 else
      var n := DigitRun(s[1..]);
      assert s[..n + 1] == [s[0]] + s[1..][..n];
      n + 1
  }

  lemma {:induction false} DigitRunOf(d: string, rest: string)
    requires AllDigits(d) && (rest == [] || !IsDigit(rest[0]))
    ensures DigitRun(d + rest) == |d|
  {
    if d == [] {
      assert d + rest == rest;
    } else {
      assert (d + rest)[1..] == d[1..] + rest;
      DigitRunOf(d[1..], rest);
    }
  }

  predicate IsHex(c: char) {
    '0' <= c <= '9' || 'a' <= c <= 'f' || 'A' <= c <= 'F'
  }

  predicate AllHex(s: string) {
    forall i :: 0 <= i < |s| ==> IsHex(s[i])
  }

  function HexChar(d: nat): (c: char)
    requires d < 16
    ensures IsHex(c) && HexDigit(c) == d && LowerChar(c) == c
  {
    if d < 10 then '0' + d as char else 'a' + (d - 10) as char
  }

  function HexDigit(c: char): (d: nat)
    requires IsHex(c)
    ensures d < 16
  {
    if c <= '9' then (c as int) - ('0' as int)
    else if c <= 'F' then (c as int) - ('A' as int) + 10
    else (c as int) - ('a' as int) + 10
  }

  function LowerChar(c: char): char {
    if 'A' <= c <= 'Z' then c + 32 as char else c
  }

  function UpperChar(c: char): char {
    if 'a' <= c <= 'z' then c - 32 as char else c
  }

  /** The 26 letters change case, by 32 code points; no other character does. */
  lemma LetterCase(c: char)
    ensures LowerChar(c) as int == c as int + (if 65 <= c as int <= 90 then 32 else 0)
    ensures UpperChar(c) as int == c as int - (if 97 <= c as int <= 122 then 32 else 0)
  {
  }

  function Lower(s: string): (r: string)
    ensures |r| == |s| && forall i :: 0 <= i < |s| ==> r[i] == LowerChar(s[i])
  {
    seq(|s|, i requires 0 <= i < |s| => LowerChar(s[i]))
  }

  function Upper(s: string): (r: string)
    ensures |r| == |s| && forall i :: 0 <= i < |s| ==> r[i] == UpperChar(s[i])
  {
    seq(|s|, i requires 0 <= i < |s| => UpperChar(s[i]))
  }

  function Pow16(n: nat): (p: nat)
    ensures p > 0
  {
    if n == 0 then 1 else 16 * Pow16(n - 1)
  }

  /** The `width` low hexadecimal digits of `n`, in lower case. */
  function HexText(n: nat, width: nat): (s: string)
    ensures |s| == width && AllHex(s)
  {
    if width == 0 then "" else HexText(n / 16, width - 1) + [HexChar(n % 16)]
  }

  function HexValue(s: string): (n: nat)
    requires AllHex(s)
    ensures n < Pow16(|s|)
  {
    if s == [] then 0 else 16 * HexValue(s[..|s| - 1]) + HexDigit(s[|s| - 1])
  }

  lemma {:induction false} HexValueOfText(n: nat, width: nat)
    requires n < Pow16(width)
    ensures HexValue(HexText(n, width)) == n
  {
    if width == 0 {
    } else {
      HexValueOfText(n / 16, width - 1);
      assert HexText(n, width)[..width - 1] == HexText(n / 16, width - 1);
    }
  }

  /** Printing the value of a hexadecimal numeral at its own width gives the numeral in lower case. */
  lemma {:induction false} HexTextOfValue(s: string)
    requires AllHex(s)
    ensures HexText(HexValue(s), |s|) == Lower(s)
  {
    if s == [] {
    } else {
      var p, c := s[..|s| - 1], s[|s| - 1];
      HexTextOfValue(p);
      assert HexValue(s) / 16 == HexValue(p) && HexValue(s) % 16 == HexDigit(c);
      assert HexChar(HexDigit(c)) == LowerChar(c);
      assert Lower(s) == Lower(p) + [LowerChar(c)];
    }
  }
}
