/**
 * The few JavaScript built-ins the explorer relies on, over the subset of
 * inputs the model covers: `Number(s)` for optionally signed decimal integer
 * strings, `n.toString()` for integers, `Array.prototype.join`,
 * `String.prototype.startsWith`, `substring(0, n)` and ASCII `toLowerCase`.
 */
module Js {

  /** The result of `Number(s)`: a finite integer, or NaN. */
  datatype JsNumber = Finite(value: int) | NaN {

    /** JavaScript truthiness of a number: neither 0 nor NaN. */
    predicate Truthy() {
      Finite? && value != 0
    }
  }

  predicate IsDigit(c: char) {
    '0' <= c <= '9'
  }

  predicate AllDigits(s: string) {
    forall i :: 0 <= i < |s| ==> IsDigit(s[i])
  }

  function DigitValue(c: char): nat
    requires IsDigit(c)
  {
    (c as int) - ('0' as int)
  }

  function DigitChar(d: nat): (c: char)
    requires d < 10
    ensures IsDigit(c) && DigitValue(c) == d
  {
    (('0' as int) + d) as char
  }

  /** The value of a string of decimal digits, read most significant first. */
  function DigitsValue(s: string): nat
    requires AllDigits(s)
  {
    if s == [] then 0 else DigitsValue(s[..|s| - 1]) * 10 + DigitValue(s[|s| - 1])
  }

  /** `Number(s)` for strings: "" is 0, `[+-]?[0-9]+` its value, anything else NaN. */
  function ToNumber(s: string): JsNumber {
    if s == [] then Finite(0)
    else if s[0] == '-' && |s| > 1 && AllDigits(s[1..]) then Finite(0 - DigitsValue(s[1..]) as int)
    else if s[0] == '+' && |s| > 1 && AllDigits(s[1..]) then Finite(DigitsValue(s[1..]))
    else if AllDigits(s) then Finite(DigitsValue(s))
    else NaN
  }

  /** A decimal numeral without leading zeros: "0", or digits starting with 1-9. */
  predicate CanonicalNat(s: string) {
    |s| > 0 && AllDigits(s) && (|s| == 1 || s[0] != '0')
  }

  /** What `toString` writes for an integer: a canonical numeral, with `-` before a non-zero one for negatives. */
  predicate CanonicalInt(s: string) {
    CanonicalNat(s) || (|s| > 1 && s[0] == '-' && CanonicalNat(s[1..]) && s[1..] != "0")
  }

  /** Decimal form of a natural number, without leading zeros. */
  function NatToString(n: nat): (s: string)
    ensures CanonicalNat(s)
    ensures n > 0 ==> s[0] != '0'
  {
    if n < 10 then [DigitChar(n)] else NatToString(n / 10) + [DigitChar(n % 10)]
  }

  /** `n.toString()` for an integer: its canonical decimal numeral. */
  function IntToString(n: int): (s: string)
    ensures CanonicalInt(s)
    ensures n < 0 <==> s[0] == '-'
  {
    if n < 0 then "-" + NatToString(-n) else NatToString(n)
  }

  lemma {:induction false} NatToStringValue(n: nat)
    ensures DigitsValue(NatToString(n)) == n
  {
    if n >= 10 {
      NatToStringValue(n / 10);
      var s := NatToString(n);
      assert s[..|s| - 1] == NatToString(n / 10);
    }
  }

  /** Reading back what `toString` wrote gives the same integer. */
  lemma ToNumberIntToString(n: int)
    ensures ToNumber(IntToString(n)) == Finite(n)
  {
    var s := IntToString(n);
    if n < 0 {
      NatToStringValue(-n);
      assert s[1..] == NatToString(-n);
    } else {
      NatToStringValue(n);
    }
  }

  lemma DigitCharValue(c: char)
    requires IsDigit(c)
    ensures DigitChar(DigitValue(c)) == c
  {
  }

  /** A canonical numeral is the one `NatToString` writes for its value. */
  lemma {:induction false} CanonicalNatUnique(s: string)
    requires CanonicalNat(s)
    ensures NatToString(DigitsValue(s)) == s
  {
    if |s| == 1 {
      DigitCharValue(s[0]);
      assert s[..0] == [];
    } else {
      var init, last := s[..|s| - 1], s[|s| - 1];
      assert init[0] == s[0];
      CanonicalNatUnique(init);
      var v := DigitsValue(init);
      if v == 0 {
        assert false;
      }
      DigitCharValue(last);
      assert DigitsValue(s) / 10 == v && DigitsValue(s) % 10 == DigitValue(last);
      assert s == init + [last];
    }
  }

  /**
   * Every canonical integer text is what `toString` writes for the number it
   * reads as; with `ToNumberIntToString`, `toString` is a one-to-one map
   * from the integers onto the canonical texts.
   */
  lemma CanonicalIntUnique(s: string)
    requires CanonicalInt(s)
    ensures ToNumber(s).Finite? && IntToString(ToNumber(s).value) == s
  {
    if CanonicalNat(s) {
      CanonicalNatUnique(s);
      assert IsDigit(s[0]);
    } else {
      var t := s[1..];
      CanonicalNatUnique(t);
      if DigitsValue(t) == 0 {
        assert false;
      }
      assert s == "-" + t;
    }
  }

  /** `toString` of an integer other than 0 is never read back as a falsy number. */
  lemma IntToStringTruthy(n: int)
    requires n != 0
    ensures ToNumber(IntToString(n)).Truthy()
  {
    ToNumberIntToString(n);
  }

  /** `parts.join(sep)`. */
  function Join(parts: seq<string>, sep: char): string {
    if parts == [] then ""
    else if |parts| == 1 then parts[0]
    else parts[0] + [sep] + Join(parts[1..], sep)
  }

  predicate StartsWith(s: string, prefix: string) {
    |prefix| <= |s| && s[..|prefix|] == prefix
  }

  /** `s.substring(0, n)` for n >= 0. */
  function Take(s: string, n: nat): (r: string)
    ensures |r| == if |s| < n then |s| else n
    ensures StartsWith(s, r)
  {
    if |s| <= n then s else s[..n]
  }

  /** `toLowerCase` on the ASCII letters; other characters are kept. */
  function LowerChar(c: char): (r: char)
    ensures !('A' <= r <= 'Z')
  {
    if 'A' <= c <= 'Z' then (c as int + 32) as char else c
  }

  function Lower(s: string): (r: string)
    ensures |r| == |s|
    ensures forall i :: 0 <= i < |s| ==> r[i] == LowerChar(s[i])
  {
    if s == [] then [] else [LowerChar(s[0])] + Lower(s[1..])
  }
}
