/**
 * Decimal text for natural numbers: what a template literal (`${n}`) and
 * `JSON.stringify` print for a non-negative integer, and the parsing that
 * `JSON.parse` applies to such a number.
 */
module Decimal {
  import opened Wrappers

  predicate IsDigit(c: char) {
    '0' <= c <= '9'
  }

  predicate AllDigits(s: string) {
    forall i :: 0 <= i < |s| ==> IsDigit(s[i])
  }

  /** A numeral as it is printed: at least one digit, and no leading zero unless it is "0". */
  predicate Canonical(s: string) {
    |s| >= 1 && AllDigits(s) && (|s| > 1 ==> s[0] != '0')
  }

  function DigitValue(c: char): (d: nat)
    requires IsDigit(c)
    ensures d < 10
  {
    (c as int) - ('0' as int)
  }

  function DigitChar(d: nat): (c: char)
    requires d < 10
    ensures IsDigit(c) && DigitValue(c) == d
  {
    (('0' as int) + d) as char
  }

  /** The shortest decimal numeral of n. */
  function NatToString(n: nat): (s: string)
    ensures Canonical(s)
    ensures n > 0 ==> s[0] != '0'
  {
    if n < 10 then [DigitChar(n)] else NatToString(n / 10) + [DigitChar(n % 10)]
  }

  /** The value of a digit string, most significant digit first. */
  function DigitsValue(s: string): nat
    requires AllDigits(s)
  {
    if s == [] then 0 else DigitsValue(s[..|s| - 1]) * 10 + DigitValue(s[|s| - 1])
  }

  /** Length of the run of digits that starts s. */
  function DigitRun(s: string): (k: nat)
    ensures k <= |s| && AllDigits(s[..k])
    ensures k < |s| ==> !IsDigit(s[k])
  {
    if s == [] || !IsDigit(s[0]) then 0
    else
      var k := 1 + DigitRun(s[1..]);
      assert s[..k] == [s[0]] + s[1..][..k - 1];
      k
  }

  lemma {:induction false} DigitsValueOfNumeral(n: nat)
    ensures DigitsValue(NatToString(n)) == n
  {
    if n >= 10 {
      var s := NatToString(n);
      assert s[..|s| - 1] == NatToString(n / 10);
      DigitsValueOfNumeral(n / 10);
    }
  }

  lemma {:induction false} DigitsValuePositive(s: string)
    requires |s| >= 1 && AllDigits(s) && s[0] != '0'
    ensures DigitsValue(s) > 0
  {
    if |s| > 1 {
      DigitsValuePositive(s[..|s| - 1]);
    }
  }

  /** A canonical numeral is the printed form of its own value. */
  lemma {:induction false} NumeralOfDigitsValue(s: string)
    requires Canonical(s)
    ensures NatToString(DigitsValue(s)) == s
  {
    if |s| > 1 {
      var p := s[..|s| - 1];
      DigitsValuePositive(p);
      NumeralOfDigitsValue(p);
      var v := DigitsValue(s);
      assert v / 10 == DigitsValue(p) && v % 10 == DigitValue(s[|s| - 1]);
      assert s == p + [s[|s| - 1]];
    } else {
      assert s == [DigitChar(DigitValue(s[0]))];
    }
  }

  lemma {:induction false} DigitRunOfNumeral(n: nat, rest: string)
    requires rest == [] || !IsDigit(rest[0])
    ensures DigitRun(NatToString(n) + rest) == |NatToString(n)|
  {
    var s := NatToString(n);
    DigitRunPrefix(s, rest);
  }

  lemma {:induction false} DigitRunPrefix(s: string, rest: string)
    requires AllDigits(s)
    requires rest == [] || !IsDigit(rest[0])
    ensures DigitRun(s + rest) == |s|
  {
    if s != [] {
      assert (s + rest)[1..] == s[1..] + rest;
      DigitRunPrefix(s[1..], rest);
    }
  }

  /**
   * Reads `prefix` followed by a canonical numeral off the front of s and
   * returns the numeral's value with the text that follows it.
   */
  function ParseField(s: string, prefix: string): Option<(nat, string)>
  {
    if |s| < |prefix| || s[..|prefix|] != prefix then None
    else
      var body := s[|prefix|..];
      var k := DigitRun(body);
      if Canonical(body[..k]) then Some((DigitsValue(body[..k]), body[k..])) else None
  }

  /** Printing a field and reading it back gives the number and the rest unchanged. */
  lemma {:induction false} ParseFieldOfPrinted(prefix: string, n: nat, rest: string)
    requires rest == [] || !IsDigit(rest[0])
    ensures ParseField(prefix + NatToString(n) + rest, prefix) == Some((n, rest))
  {
    var s := prefix + NatToString(n) + rest;
    assert s[..|prefix|] == prefix;
    var body := s[|prefix|..];
    assert body == NatToString(n) + rest;
    DigitRunOfNumeral(n, rest);
    assert body[..|NatToString(n)|] == NatToString(n);
    assert body[|NatToString(n)|..] == rest;
    DigitsValueOfNumeral(n);
  }

  /** Whatever ParseField accepts is exactly such a printed field. */
  lemma {:induction false} ParseFieldPrinted(s: string, prefix: string, n: nat, rest: string)
    requires ParseField(s, prefix) == Some((n, rest))
    ensures s == prefix + NatToString(n) + rest
    ensures rest == [] || !IsDigit(rest[0])
  {
    var body := s[|prefix|..];
    var k := DigitRun(body);
    NumeralOfDigitsValue(body[..k]);
    assert body == body[..k] + body[k..];
    assert s == s[..|prefix|] + body;
  }
}
