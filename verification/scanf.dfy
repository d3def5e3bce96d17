/**
 The part of C's formatted input that the driver relies on: `sscanf` with a format made of
 `%d` conversions and ordinary characters, following the conversion rules of section
 7.21.6.2 of the C11 standard (ISO/IEC 9899:2011).

 - A `%d` conversion skips leading white space, then reads the longest input item that is,
   or is a prefix of, an optionally signed decimal integer. If that item is not a complete
   integer (nothing, or a sign with no digit after it) the conversion fails.
 - An ordinary character must be the next input character; otherwise scanning stops.
 - A white-space directive skips any amount of white space, including none.
 - Scanning stops at the first failure; input left after the last directive is ignored.

 The value that `sscanf` returns is the number of conversions assigned, which is the length
 of the sequence that `Scan` returns.
 */
module Scanf {
  import opened Digits
  import opened Optional

  /** `isspace` in the "C" locale. */
  predicate IsSpace(c: char) {
    c == ' ' || c == '\t' || c == '\n' || c == '\r' || c == '\U{000B}' || c == '\U{000C}'
  }

  predicate AllSpaces(s: string) {
    forall i | 0 <= i < |s| :: IsSpace(s[i])
  }

  /** The length of the run of white space at the start of `s`. */
  function SpaceRun(s: string): (n: nat)
    ensures n <= |s|
    ensures forall i | 0 <= i < n :: IsSpace(s[i])
    ensures n == |s| || !IsSpace(s[n])
  {
    if |s| > 0 && IsSpace(s[0]) then 1 + SpaceRun(s[1..]) else 0
  }

  /** What is left of `s` after its leading white space. */
  function SkipSpaces(s: string): string {
    s[SpaceRun(s)..]
  }

  /** The length of the longest run of decimal digits at the start of `s`. */
  function DigitRun(s: string): (n: nat)
    ensures n <= |s|
    ensures forall i | 0 <= i < n :: IsDigit(s[i])
    ensures n == |s| || !IsDigit(s[n])
  {
    if |s| > 0 && IsDigit(s[0]) then 1 + DigitRun(s[1..]) else 0
  }

  /** `t` (already past its white space) begins with an optionally signed decimal integer. */
  predicate StartsInteger(t: string) {
    |t| > 0 && (IsDigit(t[0]) || ((t[0] == '+' || t[0] == '-') && |t| > 1 && IsDigit(t[1])))
  }

  /** The unsigned digits of a `%d` conversion: their value and the input after them. */
  function ScanDigits(u: string): (r: Option<(nat, string)>)
    ensures r.Some? <==> |u| > 0 && IsDigit(u[0])
    ensures r.Some? ==> |r.value.1| < |u|
    ensures r.Some? ==> r.value.1 == [] || !IsDigit(r.value.1[0])
  {
    var n := DigitRun(u);
    if n == 0 then None
    else
      assert AllDigits(u[..n]);
      Some((DigitsValue(u[..n]), u[n..]))
  }

  /** A `%d` conversion once white space has been skipped: an optional sign, then digits. */
  function ScanSigned(t: string): (r: Option<(int, string)>)
    ensures r.Some? <==> StartsInteger(t)
    ensures r.Some? ==> |r.value.1| < |t|
    ensures r.Some? ==> r.value.1 == [] || !IsDigit(r.value.1[0])
  {
    if |t| > 0 && (t[0] == '+' || t[0] == '-') then
      match ScanDigits(t[1..])
      case None => None
      case Some((m, rest)) =>
        var v := if t[0] == '-' then -(m as int) else m as int;
        Some((v, rest))
    else
      match ScanDigits(t)
      case None => None
      case Some((m, rest)) => Some((m, rest))
  }

  /** One `%d` conversion: the integer read and the input that follows it, or `None` on a
      matching failure. */
  function ScanDecimal(s: string): (r: Option<(int, string)>)
    ensures r.Some? <==> StartsInteger(SkipSpaces(s))
    ensures r.Some? ==> |r.value.1| < |s|
    ensures r.Some? ==> r.value.1 == [] || !IsDigit(r.value.1[0])
  {
    var t := SkipSpaces(s);
    ScanSigned(t)
  }

  /** A successful `%d` conversion consumes a prefix of its input: what it leaves is the
      input's tail. */
  lemma {:induction false} ScanDecimalLeavesSuffix(s: string)
    requires ScanDecimal(s).Some?
    ensures var rest := ScanDecimal(s).value.1;
            rest == s[|s| - |rest|..]
  {
    var t := SkipSpaces(s);
    assert t == s[|s| - |t|..];
    ScanSignedLeavesSuffix(t);
    SuffixOfSuffix(ScanSigned(t).value.1, t, s);
  }

  lemma {:induction false} ScanSignedLeavesSuffix(t: string)
    requires ScanSigned(t).Some?
    ensures var rest := ScanSigned(t).value.1;
            rest == t[|t| - |rest|..]
  {
    if t[0] == '+' || t[0] == '-' {
      var u := t[1..];
      assert ScanDigits(u).value.1 == u[DigitRun(u)..];
      SuffixOfSuffix(ScanDigits(u).value.1, u, t);
    } else {
      assert ScanDigits(t).value.1 == t[DigitRun(t)..];
    }
  }

  lemma SuffixOfSuffix(a: string, b: string, c: string)
    requires |b| <= |c| && b == c[|c| - |b|..]
    requires |a| <= |b| && a == b[|b| - |a|..]
    ensures a == c[|c| - |a|..]
  {
  }

  /** A directive of the format string. */
  datatype Directive =
    | IntConversion        // %d
    | Ordinary(c: char)    // a character of the format other than %

  function Conversions(fmt: seq<Directive>): (n: nat)
    ensures n <= |fmt|
  {
    if fmt == [] then 0 else (if fmt[0].IntConversion? then 1 else 0) + Conversions(fmt[1..])
  }

  /** The values `sscanf(s, fmt, ...)` assigns, in order; its return value is their number. */
  function Scan(fmt: seq<Directive>, s: string): (vs: seq<int>)
    ensures |vs| <= Conversions(fmt)
    decreases fmt, s
  {
    if fmt == [] then []
    else match fmt[0]
      case Ordinary(c) =>
        if IsSpace(c) then Scan(fmt[1..], SkipSpaces(s))
        else if |s| > 0 && s[0] == c then Scan(fmt[1..], s[1..])
        else []
      case IntConversion =>
        match ScanDecimal(s)
        case None => []
        case Some((v, rest)) => [v] + Scan(fmt[1..], rest)
  }

  /** Scanning white space followed by the decimal text of `n` reads exactly `n`, and stops
      where the digits stop. */
  lemma {:induction false} ScanDecimalOfText(ws: string, n: int, rest: string)
    requires AllSpaces(ws)
    requires rest == [] || !IsDigit(rest[0])
    ensures ScanDecimal(ws + (IntToDecimal(n) + rest)) == Some((n, rest))
  {
    var t := IntToDecimal(n) + rest;
    SkipSpacesOver(ws, t);
    ScanSignedOfText(n, rest);
  }

  /** The sign a `%d` conversion may read before its digits: none, `+` or `-`. */
  predicate IsSignText(sign: string) {
    sign == "" || sign == "+" || sign == "-"
  }

  /** The value that an optional sign and a digit string denote. */
  function SignedValue(sign: string, d: string): int
    requires AllDigits(d)
  {
    if sign == "-" then -(DigitsValue(d) as int) else DigitsValue(d)
  }

  /** Any `%d` item, not only a canonical rendering: white space, an optional `+` or `-`,
      any non-empty run of digits (leading zeros included), then input that does not start
      with a digit. The conversion reads the digits' value, negated after a `-`, and leaves
      exactly the rest. */
  lemma {:induction false} ScanDecimalOfItem(ws: string, sign: string, d: string, rest: string)
    requires AllSpaces(ws)
    requires IsSignText(sign)
    requires |d| > 0 && AllDigits(d)
    requires rest == [] || !IsDigit(rest[0])
    ensures ScanDecimal(ws + (sign + (d + rest))) == Some((SignedValue(sign, d), rest))
  {
    var t := sign + (d + rest);
    assert SkipSpaces(ws + t) == t by {
      assert t[0] == (if sign == "" then d[0] else sign[0]);
      SkipSpacesOver(ws, t);
    }
    ScanSignedOfItem(t, sign, d, rest);
  }

  lemma {:induction false} ScanSignedOfItem(t: string, sign: string, d: string, rest: string)
    requires IsSignText(sign)
    requires |d| > 0 && AllDigits(d)
    requires rest == [] || !IsDigit(rest[0])
    requires t == sign + (d + rest)
    ensures ScanSigned(t) == Some((SignedValue(sign, d), rest))
  {
    ScanDigitsOfDigits(d, rest);
    if sign == "" {
      assert t == d + rest;
    } else {
      assert t[0] == sign[0] && t[1..] == d + rest;
      assert ScanSigned(t) == Some((SignedValue(sign, d), rest)) by {
        assert ScanDigits(t[1..]) == Some((DigitsValue(d), rest));
      }
    }
  }

  /** A non-empty digit string followed by a non-digit reads as its value. */
  lemma {:induction false} ScanDigitsOfDigits(d: string, rest: string)
    requires |d| > 0 && AllDigits(d)
    requires rest == [] || !IsDigit(rest[0])
    ensures ScanDigits(d + rest) == Some((DigitsValue(d), rest))
  {
    var u := d + rest;
    DigitRunOver(d, rest);
    assert u[..|d|] == d && u[|d|..] == rest;
  }

  lemma {:induction false} ScanSignedOfText(n: int, rest: string)
    requires rest == [] || !IsDigit(rest[0])
    ensures ScanSigned(IntToDecimal(n) + rest) == Some((n, rest))
  {
    if n < 0 {
      ScanSignedOfNegativeText(n, rest);
    } else {
      ScanSignedOfNaturalText(n, rest);
    }
  }

  lemma {:induction false} ScanSignedOfNaturalText(n: nat, rest: string)
    requires rest == [] || !IsDigit(rest[0])
    ensures ScanSigned(IntToDecimal(n) + rest) == Some((n, rest))
  {
    var t := IntToDecimal(n) + rest;
    assert t == NatToDecimal(n) + rest;
    ScanDigitsOfText(n, rest);
    assert t[0] != '+' && t[0] != '-';
  }

  lemma {:induction false} ScanSignedOfNegativeText(n: int, rest: string)
    requires n < 0
    requires rest == [] || !IsDigit(rest[0])
    ensures ScanSigned(IntToDecimal(n) + rest) == Some((n, rest))
  {
    var t := IntToDecimal(n) + rest;
    var m: nat := -n;
    assert t[1..] == NatToDecimal(m) + rest;
    ScanDigitsOfText(m, rest);
    ScanSignedNegative(t, m, rest);
  }

  lemma ScanSignedNegative(t: string, m: nat, rest: string)
    requires |t| > 0 && t[0] == '-'
    requires ScanDigits(t[1..]) == Some((m, rest))
    ensures ScanSigned(t) == Some((-(m as int), rest))
  {
  }

  lemma {:induction false} ScanDigitsOfText(m: nat, rest: string)
    requires rest == [] || !IsDigit(rest[0])
    ensures ScanDigits(NatToDecimal(m) + rest) == Some((m, rest))
  {
    ScanDigitsOfDigits(NatToDecimal(m), rest);
    DecimalRoundTrip(m);
  }

  lemma {:induction false} SkipSpacesOver(ws: string, t: string)
    requires AllSpaces(ws)
    requires t == [] || !IsSpace(t[0])
    ensures SkipSpaces(ws + t) == t
  {
    SpaceRunOver(ws, t);
    assert (ws + t)[|ws|..] == t;
  }

  lemma {:induction false} SpaceRunOver(ws: string, t: string)
    requires AllSpaces(ws)
    requires t == [] || !IsSpace(t[0])
    ensures SpaceRun(ws + t) == |ws|
    decreases |ws|
  {
    if ws != [] {
      assert (ws + t)[1..] == ws[1..] + t;
      SpaceRunOver(ws[1..], t);
    }
  }

  lemma {:induction false} DigitRunOver(d: string, rest: string)
    requires AllDigits(d)
    requires rest == [] || !IsDigit(rest[0])
    ensures DigitRun(d + rest) == |d|
    decreases |d|
  {
    if d != [] {
      assert (d + rest)[1..] == d[1..] + rest;
      DigitRunOver(d[1..], rest);
    }
  }

  /** A `%d` directive that reads `v` assigns `v` and goes on after it. */
  lemma ScanConversionStep(fmt: seq<Directive>, s: string, v: int, rest: string)
    requires |fmt| > 0 && fmt[0] == IntConversion
    requires ScanDecimal(s) == Some((v, rest))
    ensures Scan(fmt, s) == [v] + Scan(fmt[1..], rest)
  {
  }

  /** An ordinary, non-space character of the format consumes the same input character. */
  lemma ScanOrdinaryStep(fmt: seq<Directive>, c: char, s: string)
    requires |fmt| > 0 && fmt[0] == Ordinary(c) && !IsSpace(c)
    ensures Scan(fmt, [c] + s) == Scan(fmt[1..], s)
  {
    assert ([c] + s)[1..] == s;
  }

  /** Conversely, a `%d` directive that assigns anything has read an integer: the first
      value assigned is that integer, and scanning went on right after it. */
  lemma ConversionStepInversion(fmt: seq<Directive>, s: string)
    requires |fmt| > 0 && fmt[0] == IntConversion
    requires |Scan(fmt, s)| > 0
    ensures ScanDecimal(s).Some?
    ensures Scan(fmt, s) == [ScanDecimal(s).value.0] + Scan(fmt[1..], ScanDecimal(s).value.1)
  {
  }

  /** Conversely, an ordinary non-space character that lets scanning assign anything
      further has matched the next input character. */
  lemma OrdinaryStepInversion(fmt: seq<Directive>, c: char, s: string)
    requires |fmt| > 0 && fmt[0] == Ordinary(c) && !IsSpace(c)
    requires |Scan(fmt, s)| > 0
    ensures |s| > 0 && s[0] == c
    ensures Scan(fmt, s) == Scan(fmt[1..], s[1..])
  {
  }

  /** Scanning stops at the first directive that fails: if the input does not begin with an
      integer, a format that begins with `%d` assigns nothing. */
  lemma ScanRejectsNonInteger(fmt: seq<Directive>, s: string)
    requires |fmt| > 0 && fmt[0] == IntConversion
    requires !StartsInteger(SkipSpaces(s))
    ensures Scan(fmt, s) == []
  {
  }
}
