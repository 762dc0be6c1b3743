/** Decimal text of integers as the JVM writes and reads it: Kotlin's
    `Int.toString()` (used for the version code and the caching max-age shown
    in an edit field) and `String.toInt()` (used when the max-age is saved). */
module Numerals {
  import opened Wrappers

  /** Bounds of Kotlin's 32-bit `Int`. */
  const IntMin: int := -0x8000_0000
  const IntMax: int := 0x7fff_ffff

  predicate IsInt32(n: int) {
    IntMin <= n <= IntMax
  }

  /** The character class `[0-9]`. */
  predicate IsAsciiDigit(ch: char) {
    '0' <= ch <= '9'
  }

  predicate AllDigits(s: string) {
    forall k :: 0 <= k < |s| ==> IsAsciiDigit(s[k])
  }

  function DigitChar(d: int): (ch: char)
    requires 0 <= d < 10
    ensures IsAsciiDigit(ch)
    ensures ch as int - '0' as int == d
  {
    ('0' as int + d) as char
  }

  /** The number a run of decimal digits denotes, most significant first. */
  function DigitsValue(s: string): nat
    requires AllDigits(s)
  {
    if |s| == 0 then 0 else DigitsValue(s[..|s| - 1]) * 10 + (s[|s| - 1] as int - '0' as int)
  }

  function Pow10(e: nat): (p: nat)
    ensures 0 < p
  {
    if e == 0 then 1 else 10 * Pow10(e - 1)
  }

  /** A digit run with no leading zero is worth at least ten to the power of
      its length less one. */
  lemma {:induction false} DigitsValueLowerBound(s: string)
    requires 0 < |s| && AllDigits(s) && s[0] != '0'
    ensures Pow10(|s| - 1) <= DigitsValue(s)
    decreases |s|
  {
    if |s| > 1 {
      var prefix := s[..|s| - 1];
      assert prefix[0] == s[0];
      DigitsValueLowerBound(prefix);
    }
  }

  /** Canonical decimal digits of a natural number: never empty, and no
      leading zero unless the number is zero itself. */
  function Digits(n: nat): (s: string)
    ensures 0 < |s| && AllDigits(s)
    ensures s[0] == '0' ==> n == 0
    decreases n
  {
    if n < 10 then [DigitChar(n)] else Digits(n / 10) + [DigitChar(n % 10)]
  }

  /** `Int.toString()`: a minus sign exactly for negative numbers, followed by
      the canonical digits of the magnitude. */
  function DecimalText(n: int): (s: string)
    ensures 0 < |s|
    ensures s[0] == '-' <==> n < 0
    ensures forall k :: 0 <= k < |s| ==> IsAsciiDigit(s[k]) || (k == 0 && s[k] == '-')
  {
    if n < 0 then "-" + Digits(-n) else Digits(n)
  }

  /** The text less one leading sign character, if it has one. */
  function Unsigned(s: string): (u: string)
    ensures |u| == |s| || (0 < |s| && (s[0] == '-' || s[0] == '+') && u == s[1..])
  {
    if 0 < |s| && (s[0] == '-' || s[0] == '+') then s[1..] else s
  }

  /** `String.toInt()`: an optional `+` or `-`, then at least one digit, and
      the value must fit an `Int`; `None` is the `NumberFormatException`. */
  function ParseInt(s: string): (r: Option<int>)
    ensures r.Some? ==> IsInt32(r.value)
    ensures r.Some? ==> 0 < |Unsigned(s)| && AllDigits(Unsigned(s))
    ensures r.Some? ==> (r.value < 0 ==> s[0] == '-')
  {
    if |s| == 0 then None
    else
      var body := if s[0] == '-' || s[0] == '+' then s[1..] else s;
      if |body| == 0 || !AllDigits(body) then None
      else
        var m: int := if s[0] == '-' then 0 - DigitsValue(body) as int else DigitsValue(body);
        if IsInt32(m) then Some(m) else None
  }

  /** Reading back the digits of `n` gives `n`. */
  lemma {:induction false} DigitsValueOfDigits(n: nat)
    ensures DigitsValue(Digits(n)) == n
    decreases n
  {
    var s := Digits(n);
    if n < 10 {
      assert s[..|s| - 1] == [];
    } else {
      assert s[..|s| - 1] == Digits(n / 10);
      DigitsValueOfDigits(n / 10);
    }
  }

  /** Parsing the text of any `Int` gives that `Int` back. */
  lemma ParseIntOfDecimalText(n: int)
    requires IsInt32(n)
    ensures ParseInt(DecimalText(n)) == Some(n)
  {
    var s := DecimalText(n);
    if n < 0 {
      assert s[1..] == Digits(-n);
      DigitsValueOfDigits(-n);
    } else {
      DigitsValueOfDigits(n);
    }
  }

  /** A sign followed by a non-empty digit run parses to the signed value
      exactly when it fits an `Int`; leading zeros are accepted. */
  lemma ParseIntOfSignedRun(d: string)
    requires 0 < |d| && AllDigits(d)
    ensures IntMin <= 0 - DigitsValue(d) as int ==> ParseInt("-" + d) == Some(0 - DigitsValue(d) as int)
    ensures 0 - DigitsValue(d) as int < IntMin ==> ParseInt("-" + d) == None
    ensures DigitsValue(d) <= IntMax ==> ParseInt("+" + d) == Some(DigitsValue(d))
    ensures IntMax < DigitsValue(d) ==> ParseInt("+" + d) == None
  {
    assert ("-" + d)[1..] == d;
    assert ("+" + d)[1..] == d;
  }

  /** A text with anything but a digit after its first character is
      rejected, and so is a lone sign. */
  lemma ParseIntRejectsNonDigits(s: string, k: nat)
    requires 0 < k < |s| && !IsAsciiDigit(s[k])
    ensures ParseInt(s) == None
    ensures ParseInt("-") == None && ParseInt("+") == None
  {
    if 0 < |s| && (s[0] == '-' || s[0] == '+') {
      assert Unsigned(s)[k - 1] == s[k];
    }
  }

  /** A non-empty run of ASCII digits parses to its value exactly when that
      value fits an `Int`; above `IntMax` the parse throws. */
  lemma ParseIntOfDigitRun(s: string)
    requires 0 < |s| && AllDigits(s)
    ensures DigitsValue(s) <= IntMax ==> ParseInt(s) == Some(DigitsValue(s))
    ensures IntMax < DigitsValue(s) ==> ParseInt(s) == None
  {
    assert IsAsciiDigit(s[0]);
  }
}
