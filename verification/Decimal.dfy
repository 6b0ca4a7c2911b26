/** Integers as JavaScript prints them, and parseInt(text, 10). */
module Decimal {
  import opened Wrappers

  function DigitChar(d: nat): char
    requires d < 10
  {
    '0' + d as char
  }

  predicate IsDigit(c: char) {
    '0' <= c <= '9'
  }

  function DigitValue(c: char): nat
    requires IsDigit(c)
  {
    (c - '0') as nat
  }

  function PrintNat(n: nat): string {
    if n < 10 then [DigitChar(n)] else PrintNat(n / 10) + [DigitChar(n % 10)]
  }

  // Number.prototype.toString on an integer.
  function PrintInt(n: int): string {
    if n < 0 then "-" + PrintNat(-n) else PrintNat(n)
  }

  predicate AllDigits(s: string) {
    forall i :: 0 <= i < |s| ==> IsDigit(s[i])
  }

  // The value of a string of digits.
  function ValueOf(s: string): nat
    requires AllDigits(s)
  {
    if s == [] then 0 else 10 * ValueOf(s[..|s| - 1]) + DigitValue(s[|s| - 1])
  }

  lemma {:induction false} PrintNatReads(n: nat)
    ensures PrintNat(n) != [] && AllDigits(PrintNat(n)) && ValueOf(PrintNat(n)) == n
  {
    var s := PrintNat(n);
    if n < 10 {
      assert s[..0] == [];
    } else {
      PrintNatReads(n / 10);
      assert s[..|s| - 1] == PrintNat(n / 10);
    }
  }

  // How many digits the text begins with.
  function DigitRun(s: string): (k: nat)
    ensures k <= |s| && AllDigits(s[..k])
    ensures k < |s| ==> !IsDigit(s[k])
  {
    if s == [] || !IsDigit(s[0]) then 0
    else
      var k := DigitRun(s[1..]);
      assert forall i :: 1 <= i < k + 1 ==> s[i] == s[1..][..k][i - 1];
      k + 1
  }

  // The white space of ASCII: blank, tab, line feed, vertical tab, form feed, carriage return.
  predicate IsSpace(c: char) {
    c == ' ' || (9 as char <= c <= 13 as char)
  }

  function SkipSpaces(s: string): string {
    if s != [] && IsSpace(s[0]) then SkipSpaces(s[1..]) else s
  }

  // The number a text begins with, if it begins with a digit.
  function ReadDigits(text: string): Option<nat> {
    var k := DigitRun(text);
    if k == 0 then None else Some(ValueOf(text[..k]))
  }

  // parseInt(text, 10) on ASCII text; None is NaN. Whatever follows the digits is ignored.
  function ParseInt(text: string): Option<int> {
    var s := SkipSpaces(text);
    var signed := s != [] && (s[0] == '-' || s[0] == '+');
    var digits := ReadDigits(if signed then s[1..] else s);
    if digits.None? then None
    else
      var m: int := digits.value;
      Some(if signed && s[0] == '-' then -m else m)
  }

  lemma {:induction false} DigitRunAll(s: string, rest: string)
    requires AllDigits(s) && (rest == [] || !IsDigit(rest[0]))
    ensures DigitRun(s + rest) == |s|
    decreases |s|
  {
    if s == [] {
      assert s + rest == rest;
    } else {
      assert (s + rest)[1..] == s[1..] + rest;
      DigitRunAll(s[1..], rest);
    }
  }

  // A run of digits is read up to what follows it.
  lemma ReadRun(digits: string, rest: string)
    requires digits != [] && AllDigits(digits) && (rest == [] || !IsDigit(rest[0]))
    ensures ReadDigits(digits + rest) == Some(ValueOf(digits))
  {
    DigitRunAll(digits, rest);
    assert (digits + rest)[..|digits|] == digits;
  }

  lemma ParseDigits(digits: string, rest: string)
    requires digits != [] && AllDigits(digits) && (rest == [] || !IsDigit(rest[0]))
    ensures ParseInt(digits + rest) == Some(ValueOf(digits))
  {
    var text := digits + rest;
    assert IsDigit(text[0]) && SkipSpaces(text) == text;
    ReadRun(digits, rest);
  }

  lemma ParseMinus(s: string)
    requires ReadDigits(s).Some?
    ensures var m: int := ReadDigits(s).value; ParseInt("-" + s) == Some(-m)
  {
    var text := "-" + s;
    assert text[0] == '-' && text[1..] == s;
    assert SkipSpaces(text) == text;
  }

  lemma Regroup(a: string, b: string, c: string)
    ensures a + b + c == a + (b + c)
  {
  }

  // Reading back what was printed, whatever non-digit text follows.
  lemma ParsePrinted(n: int, rest: string)
    requires rest == [] || !IsDigit(rest[0])
    ensures ParseInt(PrintInt(n) + rest) == Some(n)
  {
    if n < 0 {
      PrintNatReads(-n);
      Regroup("-", PrintNat(-n), rest);
      ReadRun(PrintNat(-n), rest);
      ParseMinus(PrintNat(-n) + rest);
    } else {
      PrintNatReads(n);
      ParseDigits(PrintNat(n), rest);
    }
  }

  // A printed integer in front of other text determines both.
  lemma PrintedUnambiguous(a: int, b: int, x: string, y: string)
    requires (x == [] || !IsDigit(x[0])) && (y == [] || !IsDigit(y[0]))
    requires PrintInt(a) + x == PrintInt(b) + y
    ensures a == b && x == y
  {
    ParsePrinted(a, x);
    ParsePrinted(b, y);
    SamePrefix(PrintInt(a), x, y);
  }

  lemma SamePrefix(prefix: string, x: string, y: string)
    requires prefix + x == prefix + y
    ensures x == y
  {
    assert x == (prefix + x)[|prefix|..] == (prefix + y)[|prefix|..] == y;
  }

  lemma PrintIntInjective(a: int, b: int)
    requires PrintInt(a) == PrintInt(b)
    ensures a == b
  {
    ParsePrinted(a, []);
    ParsePrinted(b, []);
    assert PrintInt(a) + [] == PrintInt(a) && PrintInt(b) + [] == PrintInt(b);
  }

  // A text with two numbers in it.
  function TwoNumbers(prefix: string, a: int, middle: string, b: int, suffix: string): string {
    prefix + PrintInt(a) + middle + PrintInt(b) + suffix
  }

  lemma TwoNumbersRegrouped(prefix: string, a: int, middle: string, b: int, suffix: string)
    ensures TwoNumbers(prefix, a, middle, b, suffix)
         == prefix + (PrintInt(a) + (middle + (PrintInt(b) + suffix)))
  {
    Regroup(prefix + PrintInt(a) + middle, PrintInt(b), suffix);
    Regroup(prefix + PrintInt(a), middle, PrintInt(b) + suffix);
    Regroup(prefix, PrintInt(a), middle + (PrintInt(b) + suffix));
  }

  lemma DelimitedNumbers(a: int, middle: string, b: int, suffix: string, a': int, b': int)
    requires middle != [] && !IsDigit(middle[0]) && (suffix == [] || !IsDigit(suffix[0]))
    requires PrintInt(a) + (middle + (PrintInt(b) + suffix)) == PrintInt(a') + (middle + (PrintInt(b') + suffix))
    ensures a == a' && b == b'
  {
    PrintedUnambiguous(a, a', middle + (PrintInt(b) + suffix), middle + (PrintInt(b') + suffix));
    SamePrefix(middle, PrintInt(b) + suffix, PrintInt(b') + suffix);
    PrintedUnambiguous(b, b', suffix, suffix);
  }

  // The text determines both numbers if no digit follows either.
  lemma TwoNumbersUnambiguous(prefix: string, a: int, middle: string, b: int, suffix: string, a': int, b': int)
    requires middle != [] && !IsDigit(middle[0]) && (suffix == [] || !IsDigit(suffix[0]))
    requires TwoNumbers(prefix, a, middle, b, suffix) == TwoNumbers(prefix, a', middle, b', suffix)
    ensures a == a' && b == b'
  {
    TwoNumbersRegrouped(prefix, a, middle, b, suffix);
    TwoNumbersRegrouped(prefix, a', middle, b', suffix);
    SamePrefix(prefix, PrintInt(a) + (middle + (PrintInt(b) + suffix)),
      PrintInt(a') + (middle + (PrintInt(b') + suffix)));
    DelimitedNumbers(a, middle, b, suffix, a', b');
  }
}
