/** Texts: decimals, the integer scanner, and splitting. A char stands for one byte. */
module Lexical {
  import opened Options

  const MAX_INT64: int := 0x7FFF_FFFF_FFFF_FFFF

  // ---------------------------------------------------------------- decimals

  predicate IsDigit(c: char) { '0' <= c <= '9' }

  predicate AllDigits(s: string) { forall i :: 0 <= i < |s| ==> IsDigit(s[i]) }

  function Digit(d: nat): (c: char)
    requires d < 10
    ensures IsDigit(c) && DigitValue(c) == d
  {
    (('0' as int) + d) as char
  }

  function DigitValue(c: char): (d: nat)
    requires IsDigit(c)
    ensures d < 10
  {
    (c as int) - ('0' as int)
  }

  /** The verb %d for a number that is not negative. */
  function Decimal(n: nat): string {
    if n < 10 then [Digit(n)] else Decimal(n / 10) + [Digit(n % 10)]
  }

  /** The verb %03d for a number below 1000. */
  function Pad3(n: nat): string
    requires n < 1000
  {
    [Digit(n / 100), Digit(n / 10 % 10), Digit(n % 10)]
  }

  function Value(s: string): nat
    requires AllDigits(s)
  {
    if s == [] then 0 else 10 * Value(s[..|s| - 1]) + DigitValue(s[|s| - 1])
  }

  /** Printing and reading a decimal are inverse. */
  lemma {:induction false} DecimalRoundTrip(n: nat)
    ensures Decimal(n) != [] && AllDigits(Decimal(n)) && Value(Decimal(n)) == n
  {
    if n >= 10 {
      DecimalRoundTrip(n / 10);
      var s := Decimal(n / 10);
      assert (s + [Digit(n % 10)])[..|s|] == s;
    } else {
      assert [Digit(n)][..0] == [];
    }
  }

  lemma ThreeDigits(a: char, b: char, c: char)
    requires IsDigit(a) && IsDigit(b) && IsDigit(c)
    ensures AllDigits([a, b, c]) && Value([a, b, c]) == 100 * DigitValue(a) + 10 * DigitValue(b) + DigitValue(c)
  {
    var s := [a, b, c];
    assert s[..2] == [a, b] && [a, b][..1] == [a] && [a][..0] == [];
    assert Value([a]) == DigitValue(a);
    assert Value([a, b]) == 10 * Value([a]) + DigitValue(b);
  }

  lemma Pad3RoundTrip(n: nat)
    requires n < 1000
    ensures AllDigits(Pad3(n)) && Value(Pad3(n)) == n
  {
    ThreeDigits(Digit(n / 100), Digit(n / 10 % 10), Digit(n % 10));
  }

  /** The last two digits of a decimal, in the form the framer trips over. */
  lemma DecimalEndsIn10(n: nat)
    ensures var s := Decimal(n);
            (|s| >= 2 && s[|s| - 2] == '1' && s[|s| - 1] == '0') <==> n % 100 == 10
  {
    if n >= 10 {
      var s, t := Decimal(n), Decimal(n / 10);
      LastDigit(n / 10);
      assert s[|s| - 1] == Digit(n % 10) && s[|s| - 2] == t[|t| - 1] == Digit(n / 10 % 10);
      IsDigitOf(n / 10 % 10, 1);
      IsDigitOf(n % 10, 0);
      LastTwoDigits(n);
    }
  }

  lemma IsDigitOf(d: nat, e: nat)
    requires d < 10 && e < 10
    ensures Digit(d) == Digit(e) <==> d == e
  {
    assert DigitValue(Digit(d)) == d;
  }

  lemma LastTwoDigits(n: nat)
    ensures n % 100 == 10 <==> n / 10 % 10 == 1 && n % 10 == 0
  {
  }

  lemma LastDigit(n: nat)
    ensures Decimal(n) != [] && Decimal(n)[|Decimal(n)| - 1] == Digit(n % 10)
  {
  }

  /** Decimals are written most significant digit first, in the usual digits. */
  lemma DecimalDigits(n: nat)
    ensures Decimal(n) == (if n < 10 then [] else Decimal(n / 10)) + ["0123456789"[n % 10]]
  {
    DigitIs(n % 10);
    if n < 10 { assert [] + [Digit(n)] == [Digit(n)]; }
  }

  lemma DigitIs(d: nat)
    requires d < 10
    ensures Digit(d) == "0123456789"[d]
  {
    if d < 5 {
      assert d == 0 || d == 1 || d == 2 || d == 3 || d == 4;
    } else {
      assert d == 5 || d == 6 || d == 7 || d == 8 || d == 9;
    }
  }

  /** Three digits, leading zeros included. */
  lemma Pad3Digits(n: nat)
    requires n < 1000
    ensures Pad3(n) == ["0123456789"[n / 100], "0123456789"[n / 10 % 10], "0123456789"[n % 10]]
  {
    DigitIs(n / 100);
    DigitIs(n / 10 % 10);
    DigitIs(n % 10);
  }

  // ---------------------------------------------------------------- the integer scanner

  predicate IsBlank(c: char) { c == ' ' || c == '\t' || c == '\r' || c == '\U{000B}' || c == '\U{000C}' }

  function SkipBlanks(s: string): string {
    if s != [] && IsBlank(s[0]) then SkipBlanks(s[1..]) else s
  }

  function DigitPrefix(s: string): (d: string)
    ensures AllDigits(d)
  {
    if s != [] && IsDigit(s[0]) then [s[0]] + DigitPrefix(s[1..]) else []
  }

  /** Scanning with %d into an int: leading blanks, an optional sign, at least one digit,
      within 64 bits; whatever follows the digits is ignored. */
  function ScanInt(s: string): Option<int> {
    var t := SkipBlanks(s);
    var signed := t != [] && (t[0] == '+' || t[0] == '-');
    var d := DigitPrefix(if signed then t[1..] else t);
    if d == [] then None
    else
      var v: int := if signed && t[0] == '-' then -(Value(d) as int) else Value(d);
      if -MAX_INT64 - 1 <= v <= MAX_INT64 then Some(v) else None
  }

  lemma {:induction false} DigitPrefixAll(s: string)
    requires AllDigits(s)
    ensures DigitPrefix(s) == s
  {
    if s == [] {
    } else {
      DigitPrefixAll(s[1..]);
    }
  }

  /** A printed tag is scanned back, unless it overflows. */
  lemma ScanDecimal(n: nat)
    ensures ScanInt(Decimal(n)) == if n <= MAX_INT64 then Some(n) else None
  {
    DecimalRoundTrip(n);
    var s := Decimal(n);
    assert IsDigit(s[0]);
    DigitPrefixAll(s);
  }

  ghost predicate Blanks(s: string) { forall i :: 0 <= i < |s| ==> s[i] in " \t\r\U{000B}\U{000C}" }

  lemma {:induction false} BlanksSkipped(blanks: string, s: string)
    requires Blanks(blanks)
    requires s == [] || s[0] !in " \t\r\U{000B}\U{000C}"
    ensures SkipBlanks(blanks + s) == s
  {
    if blanks == [] {
      assert blanks + s == s;
    } else {
      BlanksSkipped(blanks[1..], s);
      assert (blanks + s)[1..] == blanks[1..] + s;
    }
  }

  lemma {:induction false} DigitPrefixStops(d: string, rest: string)
    requires AllDigits(d) && (rest == [] || !('0' <= rest[0] <= '9'))
    ensures DigitPrefix(d + rest) == d
  {
    if d == [] {
      assert d + rest == rest;
    } else {
      DigitPrefixStops(d[1..], rest);
      assert (d + rest)[1..] == d[1..] + rest;
    }
  }

  lemma ScanUnsigned(n: nat, rest: string)
    requires rest == [] || !('0' <= rest[0] <= '9')
    ensures DigitPrefix(Decimal(n) + rest) == Decimal(n) && IsDigit((Decimal(n) + rest)[0])
  {
    DecimalRoundTrip(n);
    DigitPrefixStops(Decimal(n), rest);
  }

  function Signed(sign: string, n: nat): int { if sign == "-" then -(n as int) else n }

  /** Any number with blanks and a sign before it and anything but a digit behind it. */
  lemma ScanSigned(blanks: string, sign: string, n: nat, rest: string)
    requires Blanks(blanks) && sign in {"", "+", "-"} && (rest == [] || !('0' <= rest[0] <= '9'))
    ensures ScanInt(blanks + (sign + (Decimal(n) + rest)))
         == if -0x8000_0000_0000_0000 <= Signed(sign, n) <= 0x7FFF_FFFF_FFFF_FFFF then Some(Signed(sign, n)) else None
  {
    ScanUnsigned(n, rest);
    ScanSign(sign, n, Decimal(n) + rest);
    BlanksSkipped(blanks, sign + (Decimal(n) + rest));
    assert SkipBlanks(sign + (Decimal(n) + rest)) == sign + (Decimal(n) + rest);
  }

  lemma ScanSign(sign: string, n: nat, number: string)
    requires sign in {"", "+", "-"} && number != [] && IsDigit(number[0]) && DigitPrefix(number) == Decimal(n)
    ensures ScanInt(sign + number)
         == if -0x8000_0000_0000_0000 <= Signed(sign, n) <= 0x7FFF_FFFF_FFFF_FFFF then Some(Signed(sign, n)) else None
    ensures (sign + number)[0] !in " \t\r\U{000B}\U{000C}"
  {
    DecimalRoundTrip(n);
    var s := sign + number;
    assert SkipBlanks(s) == s;
    if sign == "" { assert s == number; } else { assert s[1..] == number; }
  }

  /** Without a digit behind the blanks and the sign there is no number. */
  lemma ScanNothing(blanks: string, sign: string, rest: string)
    requires Blanks(blanks)
    requires sign in {"+", "-"} || (sign == "" && (rest == [] || rest[0] !in " \t\r\U{000B}\U{000C}+-"))
    requires rest == [] || !('0' <= rest[0] <= '9')
    ensures ScanInt(blanks + (sign + rest)) == None
  {
    if sign == "" {
      assert sign + rest == rest;
    } else {
      assert (sign + rest)[1..] == rest;
    }
    BlanksSkipped(blanks, sign + rest);
    DigitPrefixStops([], rest);
    assert [] + rest == rest;
  }

  // ---------------------------------------------------------------- finding and splitting

  predicate Free(s: string, c: char) { forall i :: 0 <= i < |s| ==> s[i] != c }

  /** The index of the first c, |s| when there is none. */
  function Find(s: string, c: char): (i: nat)
    ensures i <= |s| && Free(s[..i], c) && (i < |s| ==> s[i] == c)
  {
    if s == [] || s[0] == c then 0
    else
      var i := Find(s[1..], c);
      assert s[..i + 1] == [s[0]] + s[1..][..i];
      i + 1
  }

  lemma {:induction false} FindAfter(a: string, c: char, b: string)
    requires Free(a, c)
    ensures Find(a + [c] + b, c) == |a|
  {
    var s := a + [c] + b;
    if a == [] {
    } else {
      FindAfter(a[1..], c, b);
      assert s[1..] == a[1..] + [c] + b;
      assert s[0] == a[0];
    }
  }

  /** Splitting at a one-byte separator; the empty text splits into one empty part. */
  function Split(s: string, c: char): seq<string>
    decreases |s|
  {
    var i := Find(s, c);
    if i == |s| then [s] else [s[..i]] + Split(s[i + 1..], c)
  }

  lemma SplitAfter(a: string, c: char, b: string)
    requires Free(a, c)
    ensures Split(a + [c] + b, c) == [a] + Split(b, c)
  {
    FindAfter(a, c, b);
    var s := a + [c] + b;
    assert s[..|a|] == a && s[|a| + 1..] == b;
  }

  /** strings.Contains for a text of three bytes. */
  predicate Contains3(s: string, a: char, b: char, c: char) {
    exists i :: 0 <= i < |s| - 2 && s[i] == a && s[i + 1] == b && s[i + 2] == c
  }
}
