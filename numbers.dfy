/** Decimal rendering and parsing of integers: Kotlin's `Int.toString()` and Java's
    `Integer.parseUnsignedInt` / `Integer.parseInt`. */
module Numbers {
  import opened Base

  predicate InRun(c: char, zero: int) { zero <= c as int < zero + 10 }

  /** The zero of the run of decimal digits (Unicode category Nd) in the Basic Multilingual
      Plane that holds `c`, or -1: ASCII, Arabic-Indic, the Indic scripts, Thai, Lao,
      Tibetan, Myanmar, Khmer, Mongolian, Limbu, Tai Tham, Balinese, ..., and the fullwidth
      digits. Each run holds the digits 0 to 9 in order, and Java's `Character.digit(c, 10)`
      accepts exactly the `char`s in them. */
  function ZeroOf(c: char): (zero: int)
    ensures zero == -1 || InRun(c, zero)
  {
    if InRun(c, 0x30) then 0x30
    else if InRun(c, 0x660) then 0x660
    else if InRun(c, 0x6F0) then 0x6F0
    else if InRun(c, 0x7C0) then 0x7C0
    else if InRun(c, 0x966) then 0x966
    else if InRun(c, 0x9E6) then 0x9E6
    else if InRun(c, 0xA66) then 0xA66
    else if InRun(c, 0xAE6) then 0xAE6
    else if InRun(c, 0xB66) then 0xB66
    else if InRun(c, 0xBE6) then 0xBE6
    else if InRun(c, 0xC66) then 0xC66
    else if InRun(c, 0xCE6) then 0xCE6
    else if InRun(c, 0xD66) then 0xD66
    else if InRun(c, 0xDE6) then 0xDE6
    else if InRun(c, 0xE50) then 0xE50
    else if InRun(c, 0xED0) then 0xED0
    else if InRun(c, 0xF20) then 0xF20
    else if InRun(c, 0x1040) then 0x1040
    else if InRun(c, 0x1090) then 0x1090
    else if InRun(c, 0x17E0) then 0x17E0
    else if InRun(c, 0x1810) then 0x1810
    else if InRun(c, 0x1946) then 0x1946
    else if InRun(c, 0x19D0) then 0x19D0
    else if InRun(c, 0x1A80) then 0x1A80
    else if InRun(c, 0x1A90) then 0x1A90
    else if InRun(c, 0x1B50) then 0x1B50
    else if InRun(c, 0x1BB0) then 0x1BB0
    else if InRun(c, 0x1C40) then 0x1C40
    else if InRun(c, 0x1C50) then 0x1C50
    else if InRun(c, 0xA620) then 0xA620
    else if InRun(c, 0xA8D0) then 0xA8D0
    else if InRun(c, 0xA900) then 0xA900
    else if InRun(c, 0xA9D0) then 0xA9D0
    else if InRun(c, 0xA9F0) then 0xA9F0
    else if InRun(c, 0xAA50) then 0xAA50
    else if InRun(c, 0xABF0) then 0xABF0
    else if InRun(c, 0xFF10) then 0xFF10
    else -1
  }

  /** A decimal digit of any script. */
  predicate IsDigit(c: char) { ZeroOf(c) != -1 }

  function DigitChar(d: nat): (c: char)
    requires d < 10
    ensures IsDigit(c) && ZeroOf(c) == '0' as int
  {
    "0123456789"[d]
  }

  /** Java's `Character.digit(c, 10)` on a digit: its place in its script's run. */
  function DigitValue(c: char): (d: nat)
    requires IsDigit(c)
    ensures d < 10 && c as int == ZeroOf(c) + d
  {
    c as int - ZeroOf(c)
  }

  /** The decimal digits of `n`, without leading zeros. */
  function NatToString(n: nat): (s: string)
    ensures |s| >= 1 && forall i :: 0 <= i < |s| ==> IsDigit(s[i])
    ensures |s| > 1 ==> s[0] != '0'
  {
    if n < 10 then [DigitChar(n)] else NatToString(n / 10) + [DigitChar(n % 10)]
  }

  /** `n.toString()`. */
  function IntToString(n: int): (s: string)
    ensures |s| >= 1
    ensures n < 0 <==> s[0] == '-'
  {
    if n < 0 then "-" + NatToString(-n) else NatToString(n)
  }

  predicate AllDigits(s: string) { forall i :: 0 <= i < |s| ==> IsDigit(s[i]) }

  /** The value of a non-empty string of decimal digits. */
  function DigitsValue(s: string): nat
    requires AllDigits(s)
  {
    if s == [] then 0 else DigitsValue(s[..|s| - 1]) * 10 + DigitValue(s[|s| - 1])
  }

  /** Reading back the digits of `n` gives `n`. */
  lemma {:induction false} DigitsValueOfNatToString(n: nat)
    ensures DigitsValue(NatToString(n)) == n
  {
    var s := NatToString(n);
    var d := n % 10;
    assert DigitValue(DigitChar(d)) == d by {
      assert DigitChar(d) as int == '0' as int + d;
    }
    if n >= 10 {
      DigitsValueOfNatToString(n / 10);
      assert s[..|s| - 1] == NatToString(n / 10) && s[|s| - 1] == DigitChar(d);
      assert n == (n / 10) * 10 + d;
    }
  }

  const MaxUnsignedInt: nat := 0xFFFF_FFFF
  const MaxInt: nat := 0x7FFF_FFFF

  /** Java's `Integer.parseUnsignedInt(s)`: an optional `+` then at least one decimal digit,
      the value at most 2^32 - 1; `None` where Java throws NumberFormatException. */
  function ParseUnsignedInt(s: string): (r: Option<nat>)
    ensures r.Some? ==> r.value <= MaxUnsignedInt
  {
    var digits := if |s| > 0 && s[0] == '+' then s[1..] else s;
    if |digits| == 0 || !AllDigits(digits) || DigitsValue(digits) > MaxUnsignedInt then None
    else Some(DigitsValue(digits))
  }

  /** Every rendering of a value in range parses back to it. */
  lemma ParseUnsignedIntOfNatToString(n: nat)
    requires n <= MaxUnsignedInt
    ensures ParseUnsignedInt(NatToString(n)) == Some(n)
  {
    DigitsValueOfNatToString(n);
  }

  /** Digits of other scripts parse too: fullwidth "１２" is 12, and Arabic-Indic "٣" is 3. */
  lemma OtherScriptDigitsParse()
    ensures ParseUnsignedInt("\U{FF11}\U{FF12}") == Some(12)
    ensures ParseUnsignedInt("+\U{663}") == Some(3)
  {
    var s := "\U{FF11}\U{FF12}";
    assert AllDigits(s) && s[..1] == "\U{FF11}" && s[..1][..0] == [];
    assert DigitsValue(s[..1]) == 1;
    assert DigitsValue(s) == 12;
    assert "+\U{663}"[1..] == "\U{663}";
  }

  /** Java's `Integer.parseInt(s)` on a string `parseUnsignedInt` accepted: it fails for
      values above 2^31 - 1. */
  function ParseIntOfUnsigned(s: string): (r: Option<nat>)
    ensures r.Some? <==> ParseUnsignedInt(s).Some? && ParseUnsignedInt(s).value <= MaxInt
    ensures r.Some? ==> r == ParseUnsignedInt(s)
  {
    var u := ParseUnsignedInt(s);
    if u.Some? && u.value <= MaxInt then u else None
  }
}
