/**
  Text helpers shared by the front end (JavaScript) and the back end (Python):
  whitespace trimming with each language's own whitespace set, blank tests,
  and the decimal rendering of integers used in messages and share texts.
*/
module Strings {

  /** Characters removed by JavaScript's `String.prototype.trim` (WhiteSpace and LineTerminator). */
  const JsWhitespace: set<char> :=
    { '\t', '\n', '\U{B}', '\U{C}', '\r', ' ', '\U{A0}', '\U{1680}',
      '\U{2000}', '\U{2001}', '\U{2002}', '\U{2003}', '\U{2004}', '\U{2005}',
      '\U{2006}', '\U{2007}', '\U{2008}', '\U{2009}', '\U{200A}',
      '\U{2028}', '\U{2029}', '\U{202F}', '\U{205F}', '\U{3000}', '\U{FEFF}' }

  /** Characters removed by Python's `str.strip()` with no argument (those for which `isspace()` holds). */
  const PyWhitespace: set<char> :=
    { '\t', '\n', '\U{B}', '\U{C}', '\r', '\U{1C}', '\U{1D}', '\U{1E}', '\U{1F}',
      ' ', '\U{85}', '\U{A0}', '\U{1680}',
      '\U{2000}', '\U{2001}', '\U{2002}', '\U{2003}', '\U{2004}', '\U{2005}',
      '\U{2006}', '\U{2007}', '\U{2008}', '\U{2009}', '\U{200A}',
      '\U{2028}', '\U{2029}', '\U{202F}', '\U{205F}', '\U{3000}' }

  /** `s` without its leading characters from `ws`. */
  function TrimStart(s: string, ws: set<char>): (r: string)
    ensures |r| <= |s| && r == s[|s| - |r|..]
    ensures r == [] || r[0] !in ws
    ensures forall i :: 0 <= i < |s| - |r| ==> s[i] in ws
    decreases |s|
  {
    if s != [] && s[0] in ws then TrimStart(s[1..], ws) else s
  }

  /** `s` without its trailing characters from `ws`. */
  function TrimEnd(s: string, ws: set<char>): (r: string)
    ensures |r| <= |s| && r == s[..|r|]
    ensures r == [] || r[|r| - 1] !in ws
    ensures forall i :: |r| <= i < |s| ==> s[i] in ws
    decreases |s|
  {
    if s != [] && s[|s| - 1] in ws then TrimEnd(s[..|s| - 1], ws) else s
  }

  /** `s` without leading and trailing characters from `ws`. */
  function TrimBy(s: string, ws: set<char>): (r: string)
    ensures |r| <= |s|
    ensures r == [] || (r[0] !in ws && r[|r| - 1] !in ws)
  {
    TrimEnd(TrimStart(s, ws), ws)
  }

  /** JavaScript's `s.trim()`. */
  function Trim(s: string): string {
    TrimBy(s, JsWhitespace)
  }

  /** Python's `s.strip()`. */
  function Strip(s: string): string {
    TrimBy(s, PyWhitespace)
  }

  /** `ss.map(s => s.trim())`. */
  function TrimAll(ss: seq<string>): (r: seq<string>)
    ensures |r| == |ss|
    ensures forall j :: 0 <= j < |r| ==> r[j] == Trim(ss[j])
  {
    seq(|ss|, j requires 0 <= j < |ss| => Trim(ss[j]))
  }

  /** Every character of `s` is in `ws`. */
  predicate AllIn(s: string, ws: set<char>) {
    s == [] || (s[0] in ws && AllIn(s[1..], ws))
  }

  /** A string made only of JavaScript whitespace: `!s.trim()` (see `BlankIffTrimEmpty`). */
  predicate Blank(s: string) {
    AllIn(s, JsWhitespace)
  }

  lemma {:induction false} AllInIndexed(s: string, ws: set<char>)
    ensures AllIn(s, ws) <==> forall i :: 0 <= i < |s| ==> s[i] in ws
  {
    if s != [] {
      AllInIndexed(s[1..], ws);
      assert forall i :: 1 <= i < |s| ==> s[i] == s[1..][i - 1];
    }
  }

  /** Trimming leaves nothing exactly when every character is whitespace. */
  lemma TrimByEmpty(s: string, ws: set<char>)
    ensures TrimBy(s, ws) == [] <==> AllIn(s, ws)
  {
    AllInIndexed(s, ws);
    var a := TrimStart(s, ws);
    if a != [] {
      assert a[0] !in ws;
      assert TrimEnd(a, ws) != [];
    }
  }

  /** `Blank` is JavaScript's `!s.trim()`: the trimmed string is the empty, falsy string. */
  lemma BlankIffTrimEmpty(s: string)
    ensures Blank(s) <==> Trim(s) == []
  {
    TrimByEmpty(s, JsWhitespace);
  }

  /** A string that starts and ends with a non-whitespace character is its own trim. */
  lemma {:induction false} TrimmedIsFixed(s: string, ws: set<char>)
    requires s == [] || (s[0] !in ws && s[|s| - 1] !in ws)
    ensures TrimBy(s, ws) == s
  {
    assert TrimStart(s, ws) == s;
  }

  /** Trimming is idempotent: trimming an already trimmed string changes nothing. */
  lemma TrimIdempotent(s: string)
    ensures Trim(Trim(s)) == Trim(s)
  {
    TrimmedIsFixed(Trim(s), JsWhitespace);
  }

  /** Trimming neither creates nor removes blankness. */
  lemma BlankTrim(s: string)
    ensures Blank(Trim(s)) == Blank(s)
  {
    BlankIffTrimEmpty(s);
    BlankIffTrimEmpty(Trim(s));
    TrimIdempotent(s);
  }

  // ---------------------------------------------------------------------------
  // Decimal rendering of integers (`${n}` in JavaScript, `str(n)` in Python).

  predicate IsDigit(c: char) {
    '0' <= c <= '9'
  }

  function DigitChar(d: nat): (c: char)
    requires d < 10
    ensures IsDigit(c)
  {
    "0123456789"[d]
  }

  /** The decimal digits of `n`, most significant first, without leading zeros. */
  function NatDigits(n: nat): (r: string)
    ensures |r| >= 1
    ensures forall i :: 0 <= i < |r| ==> IsDigit(r[i])
    ensures |r| > 1 ==> r[0] != '0'
  {
    if n < 10 then [DigitChar(n)] else NatDigits(n / 10) + [DigitChar(n % 10)]
  }

  /** The decimal text of an integer, with a leading '-' when it is negative. */
  function Dec(n: int): string {
    if n < 0 then "-" + NatDigits(-n) else NatDigits(n)
  }

  /** The value of a string of decimal digits. */
  function ParseDigits(s: string): nat
    requires forall i :: 0 <= i < |s| ==> IsDigit(s[i])
  {
    if s == [] then 0
    else ParseDigits(s[..|s| - 1]) * 10 + DigitValue(s[|s| - 1])
  }

  function DigitValue(c: char): (d: nat)
    requires IsDigit(c)
    ensures d < 10
  {
    (c as int) - ('0' as int)
  }

  /** Reading back the digits of `n` gives `n`. */
  lemma {:induction false} ParseNatDigits(n: nat)
    ensures ParseDigits(NatDigits(n)) == n
  {
    if n >= 10 {
      var s := NatDigits(n);
      assert s[..|s| - 1] == NatDigits(n / 10);
      ParseNatDigits(n / 10);
    }
  }

  /** The sign and the digits of a decimal text can be read off its first character. */
  lemma DecParts(n: int)
    ensures |Dec(n)| >= 1
    ensures n < 0 ==> Dec(n)[0] == '-' && Dec(n)[1..] == NatDigits(-n)
    ensures n >= 0 ==> IsDigit(Dec(n)[0]) && Dec(n) == NatDigits(n)
  {
  }

  /** The number of decimal digits at the start of `s`. */
  function LeadingDigits(s: string): (n: nat)
    ensures n <= |s|
  {
    if s == [] || !IsDigit(s[0]) then 0 else 1 + LeadingDigits(s[1..])
  }

  lemma {:induction false} LeadingDigitsOf(d: string, x: string)
    requires forall i :: 0 <= i < |d| ==> IsDigit(d[i])
    requires x == [] || !IsDigit(x[0])
    ensures LeadingDigits(d + x) == |d|
  {
    if d != [] {
      assert (d + x)[1..] == d[1..] + x;
      LeadingDigitsOf(d[1..], x);
    }
  }

  /**
    The digits of a natural number followed by a text that does not start with a
    digit can be split apart again: both the number and the rest are determined.
  */
  lemma {:induction false} DigitsPrefixUnique(a: nat, b: nat, x: string, y: string)
    requires NatDigits(a) + x == NatDigits(b) + y
    requires x == [] || !IsDigit(x[0])
    requires y == [] || !IsDigit(y[0])
    ensures a == b && x == y
  {
    var da, db := NatDigits(a), NatDigits(b);
    LeadingDigitsOf(da, x);
    LeadingDigitsOf(db, y);
    assert da == (da + x)[..|da|] == (db + y)[..|db|] == db;
    assert x == (da + x)[|da|..] == (db + y)[|db|..] == y;
    ParseNatDigits(a);
    ParseNatDigits(b);
  }
}
