/**
  UUIDs as the back end handles them: 128-bit values written by `str(uuid)` in
  the canonical lower-case 8-4-4-4-12 hexadecimal form and read back by
  Python's `UUID(text)`, plus the `",".join` used to store answer keys.
*/
module Uuids {
  import opened Optional

  newtype Nibble = x: int | 0 <= x < 16

  /** A UUID is its 32 hexadecimal digits, most significant first. */
  type Uuid = s: seq<Nibble> | |s| == 32 witness seq(32, _ => 0 as Nibble)

  const HexDigits: string := "0123456789abcdef"

  function HexChar(n: Nibble): (c: char)
    ensures c != '-' && c != ','
  {
    HexDigits[n as int]
  }

  /** The characters `int(text, 16)` takes as digits, in either case. */
  predicate IsHex(c: char) {
    '0' <= c <= '9' || 'a' <= c <= 'f' || 'A' <= c <= 'F'
  }

  function HexValue(c: char): (n: Nibble)
    requires IsHex(c)
  {
    if c <= '9' then (c as int - '0' as int) as Nibble
    else if c <= 'F' then (c as int - 'A' as int + 10) as Nibble
    else (c as int - 'a' as int + 10) as Nibble
  }

  lemma HexCharValue(n: Nibble)
    ensures IsHex(HexChar(n)) && HexValue(HexChar(n)) == n
  {
  }

  /** Lower-case hexadecimal text of a digit sequence. */
  function Hex(ns: seq<Nibble>): (r: string)
    ensures |r| == |ns|
    ensures forall i :: 0 <= i < |r| ==> r[i] == HexChar(ns[i])
  {
    seq(|ns|, i requires 0 <= i < |ns| => HexChar(ns[i]))
  }

  /** `str(u)`: groups of 8, 4, 4, 4 and 12 digits separated by hyphens. */
  function Str(u: Uuid): (r: string)
    ensures |r| == 36
  {
    Hex(u[..8]) + "-" + Hex(u[8..12]) + "-" + Hex(u[12..16]) + "-" + Hex(u[16..20]) + "-" + Hex(u[20..])
  }

  /** `s.replace('-', '')`. */
  function RemoveHyphens(s: string): (r: string)
    ensures |r| <= |s|
  {
    if s == [] then []
    else if s[0] == '-' then RemoveHyphens(s[1..])
    else [s[0]] + RemoveHyphens(s[1..])
  }

  lemma {:induction false} RemoveHyphensAppend(a: string, b: string)
    ensures RemoveHyphens(a + b) == RemoveHyphens(a) + RemoveHyphens(b)
  {
    if a == [] {
      assert a + b == b;
    } else {
      assert (a + b)[0] == a[0] && (a + b)[1..] == a[1..] + b;
      RemoveHyphensAppend(a[1..], b);
    }
  }

  /** Dropping the hyphens of `x + "-" + g` when `g` has none. */
  lemma HyphenGroup(x: string, g: string)
    requires forall i :: 0 <= i < |g| ==> g[i] != '-'
    ensures RemoveHyphens(x + "-" + g) == RemoveHyphens(x) + g
  {
    RemoveHyphensNone(g);
    RemoveHyphensAppend(x + "-", g);
    RemoveHyphensAppend(x, "-");
    assert RemoveHyphens("-") == [];
  }

  lemma {:induction false} RemoveHyphensNone(s: string)
    requires forall i :: 0 <= i < |s| ==> s[i] != '-'
    ensures RemoveHyphens(s) == s
  {
    if s != [] {
      RemoveHyphensNone(s[1..]);
    }
  }

  /**
    `UUID(text)`: hyphens are dropped, and what is left must be exactly 32
    hexadecimal digits; anything else raises `ValueError` (here `None`).
  */
  function Parse(s: string): (r: Option<Uuid>)
    ensures r.Some? ==> |RemoveHyphens(s)| == 32
  {
    var h := RemoveHyphens(s);
    if |h| == 32 && forall i :: 0 <= i < 32 ==> IsHex(h[i]) then
      Some(seq(32, i requires 0 <= i < 32 => HexValue(h[i])))
    else None
  }

  /** The hyphen-free text of `str(u)` is the 32 digits of `u`. */
  lemma StrDigits(u: Uuid)
    ensures RemoveHyphens(Str(u)) == Hex(u)
  {
    var g1, g2, g3, g4, g5 := Hex(u[..8]), Hex(u[8..12]), Hex(u[12..16]), Hex(u[16..20]), Hex(u[20..]);
    var s2 := g1 + "-" + g2;
    var s3 := s2 + "-" + g3;
    var s4 := s3 + "-" + g4;
    assert Str(u) == s4 + "-" + g5;
    RemoveHyphensNone(g1);
    HyphenGroup(g1, g2);
    HyphenGroup(s2, g3);
    HyphenGroup(s3, g4);
    HyphenGroup(s4, g5);
    assert g1 + g2 + g3 + g4 + g5 == Hex(u);
  }

  /** Reading back `str(u)` gives `u`. */
  lemma ParseStr(u: Uuid)
    ensures Parse(Str(u)) == Some(u)
  {
    StrDigits(u);
    var h := Hex(u);
    forall i | 0 <= i < 32 ensures IsHex(h[i]) && HexValue(h[i]) == u[i] {
      HexCharValue(u[i]);
    }
    assert seq(32, i requires 0 <= i < 32 => HexValue(h[i])) == u;
  }

  /** Different UUIDs have different texts. */
  lemma StrInjective(u: Uuid, v: Uuid)
    requires Str(u) == Str(v)
    ensures u == v
  {
    ParseStr(u);
    ParseStr(v);
  }

  /** The empty string is not a UUID. */
  lemma ParseEmpty()
    ensures Parse("") == None
  {
  }

  /** `sep.join(parts)`. */
  function Join(parts: seq<string>, sep: string): (r: string)
    ensures parts == [] ==> r == []
    ensures |parts| == 1 ==> r == parts[0]
    decreases |parts|
  {
    if parts == [] then []
    else if |parts| == 1 then parts[0]
    else parts[0] + sep + Join(parts[1..], sep)
  }

  /** The texts of a list of UUIDs. */
  function StrAll(us: seq<Uuid>): (r: seq<string>)
    ensures |r| == |us|
    ensures forall i :: 0 <= i < |r| ==> r[i] == Str(us[i])
  {
    seq(|us|, i requires 0 <= i < |us| => Str(us[i]))
  }

  /** Comma-joining `k >= 1` UUID texts leaves `33 * k - 1` characters once the hyphens are gone. */
  lemma {:induction false} JoinedLength(us: seq<Uuid>)
    requires |us| >= 1
    ensures |RemoveHyphens(Join(StrAll(us), ","))| == 33 * |us| - 1
    decreases |us|
  {
    StrDigits(us[0]);
    if |us| > 1 {
      var rest := Join(StrAll(us)[1..], ",");
      assert StrAll(us)[1..] == StrAll(us[1..]);
      JoinedLength(us[1..]);
      RemoveHyphensAppend(Str(us[0]) + ",", rest);
      RemoveHyphensAppend(Str(us[0]), ",");
      assert RemoveHyphens(",") == ",";
    }
  }

  /**
    A comma-joined list of UUID texts reads back as a UUID exactly when it
    holds a single UUID, and then it reads back as that one.
  */
  lemma ParseJoined(us: seq<Uuid>)
    ensures Parse(Join(StrAll(us), ",")).Some? <==> |us| == 1
    ensures |us| == 1 ==> Parse(Join(StrAll(us), ",")) == Some(us[0])
  {
    if |us| == 1 {
      ParseStr(us[0]);
    } else if |us| > 1 {
      JoinedLength(us);
    }
  }
}
