/** The text-to-number conversion that `float(var)` performs on a measure
    cell, restricted to plain decimal numerals: an optional sign, decimal
    digits and at most one decimal point, with at least one digit. */
module Numeric {
  import opened Wrappers

  predicate IsDigit(c: char) {
    '0' <= c <= '9'
  }

  predicate AllDigits(s: string) {
    forall k :: 0 <= k < |s| ==> IsDigit(s[k])
  }

  /** A character that can occur in a numeral this module accepts. */
  predicate IsNumeralChar(c: char) {
    IsDigit(c) || c == '.' || c == '+' || c == '-'
  }

  function DigitValue(c: char): (d: nat)
    requires IsDigit(c)
    ensures d < 10
  {
    c as int - '0' as int
  }

  /** The value of a run of decimal digits, most significant digit first. */
  function DigitsValue(s: string): nat
    requires AllDigits(s)
    decreases |s|
  {
    if s == [] then 0 else 10 * DigitsValue(s[..|s| - 1]) + DigitValue(s[|s| - 1])
  }

  function Pow10(n: nat): (p: nat)
    ensures p > 0
  {
    if n == 0 then 1 else 10 * Pow10(n - 1)
  }

  /** Position of the first '.' in `s`, or |s| when there is none. */
  function IndexOfDot(s: string): (i: nat)
    ensures i <= |s|
    ensures i < |s| ==> s[i] == '.'
    ensures forall k :: 0 <= k < i ==> s[k] != '.'
  {
    if s == [] then 0
    else if s[0] == '.' then 0
    else 1 + IndexOfDot(s[1..])
  }

  /** An unsigned numeral: digits, optionally followed by '.' and more digits. */
  function ParseUnsigned(s: string): Option<real> {
    var dot := IndexOfDot(s);
    var whole := s[..dot];
    var fraction := if dot < |s| then s[dot + 1..] else [];
    if AllDigits(whole) && AllDigits(fraction) && |whole| + |fraction| > 0 then
      Some(DigitsValue(whole) as real + DigitsValue(fraction) as real / Pow10(|fraction|) as real)
    else
      None
  }

  /** `float(text)` on the decimal subset: fails (None) on anything else. */
  function ParseFloat(text: string): (r: Option<real>)
    ensures AllDigits(text) && |text| > 0 ==> r == Some(DigitsValue(text) as real)
  {
    NoDotMeansEnd(text);
    assert text[..|text|] == text;
    if text != [] && (text[0] == '+' || text[0] == '-') then
      match ParseUnsigned(text[1..])
      case None => None
      case Some(v) => Some(if text[0] == '-' then -v else v)
    else
      ParseUnsigned(text)
  }

  lemma ParseUnsignedChars(s: string)
    requires ParseUnsigned(s).Some?
    ensures exists k :: 0 <= k < |s| && IsDigit(s[k])
    ensures forall k :: 0 <= k < |s| ==> IsDigit(s[k]) || s[k] == '.'
  {
    var dot := IndexOfDot(s);
    var whole := s[..dot];
    var fraction := if dot < |s| then s[dot + 1..] else [];
    if |whole| > 0 {
      assert IsDigit(s[0]);
    } else {
      assert IsDigit(s[dot + 1]);
    }
    forall k | 0 <= k < |s| ensures IsDigit(s[k]) || s[k] == '.' {
      if k < dot {
        assert s[k] == whole[k];
      } else if k > dot {
        assert s[k] == fraction[k - dot - 1];
      }
    }
  }

  /** A cell holding any character outside digits, '.', '+' and '-' is not
      a number; a cell that is a number holds at least one digit. */
  lemma ParseFloatRejects(text: string)
    ensures (exists k :: 0 <= k < |text| && !IsNumeralChar(text[k])) ==> ParseFloat(text).None?
    ensures ParseFloat(text).Some? ==> exists k :: 0 <= k < |text| && IsDigit(text[k])
  {
    if ParseFloat(text).Some? {
      if text != [] && (text[0] == '+' || text[0] == '-') {
        var rest := text[1..];
        ParseUnsignedChars(rest);
        var k :| 0 <= k < |rest| && IsDigit(rest[k]);
        assert IsDigit(text[k + 1]);
        forall k | 0 <= k < |text| ensures IsNumeralChar(text[k]) {
          if k > 0 {
            assert text[k] == rest[k - 1];
          }
        }
      } else {
        ParseUnsignedChars(text);
      }
    }
  }

  /** Decimal text of a natural number, as a CSV writer renders an integer cell. */
  function NatText(n: nat): (s: string)
    decreases n
  {
    if n < 10 then ['0' + (n as char)] else NatText(n / 10) + ['0' + ((n % 10) as char)]
  }

  function IntText(n: int): string {
    if n < 0 then "-" + NatText(-n) else NatText(n)
  }

  lemma {:induction false} NatTextDigits(n: nat)
    ensures |NatText(n)| > 0 && AllDigits(NatText(n))
    ensures DigitsValue(NatText(n)) == n
    ensures IndexOfDot(NatText(n)) == |NatText(n)|
    decreases n
  {
    var s := NatText(n);
    if n >= 10 {
      NatTextDigits(n / 10);
      var p := NatText(n / 10);
      assert s[..|s| - 1] == p;
    }
    NoDotMeansEnd(s);
  }

  lemma NoDotMeansEnd(s: string)
    ensures AllDigits(s) ==> IndexOfDot(s) == |s|
  {
  }

  /** The integer cells of a CSV file round-trip through the parser. */
  lemma ParseFloatIntText(n: int)
    ensures ParseFloat(IntText(n)) == Some(n as real)
  {
    if n < 0 {
      NatTextDigits(-n);
      var t := IntText(n);
      assert t[1..] == NatText(-n);
      assert NatText(-n)[..|NatText(-n)|] == NatText(-n);
    } else {
      NatTextDigits(n);
      assert NatText(n)[..|NatText(n)|] == NatText(n);
      assert NatText(n)[0] != '+' && NatText(n)[0] != '-' by {
        assert IsDigit(NatText(n)[0]);
      }
    }
  }
}
