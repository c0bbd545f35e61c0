/** The JavaScript string primitives the dashboard relies on, over Dafny's
    `string` (a sequence of Unicode scalar values). */
module Text {

  /** ECMAScript's WhiteSpace and LineTerminator code points: what
      `String.prototype.trim` removes. */
  predicate IsWhitespace(c: char) {
    c == '\t' || c == '\n' || c == '\U{000B}' || c == '\U{000C}' || c == '\r' ||
    c == ' ' || c == '\U{00A0}' || c == '\U{1680}' ||
    ('\U{2000}' <= c <= '\U{200A}') ||
    c == '\U{2028}' || c == '\U{2029}' || c == '\U{202F}' || c == '\U{205F}' ||
    c == '\U{3000}' || c == '\U{FEFF}'
  }

  function TrimStart(s: string): (r: string)
    ensures |r| <= |s| && r == s[|s| - |r|..]
    ensures r == [] || !IsWhitespace(r[0])
    ensures forall i :: 0 <= i < |s| - |r| ==> IsWhitespace(s[i])
  {
    if s != [] && IsWhitespace(s[0]) then TrimStart(s[1..]) else s
  }

  function TrimEnd(s: string): (r: string)
    ensures |r| <= |s| && r == s[..|r|]
    ensures r == [] || !IsWhitespace(r[|r| - 1])
    ensures forall i :: |r| <= i < |s| ==> IsWhitespace(s[i])
  {
    if s != [] && IsWhitespace(s[|s| - 1]) then TrimEnd(s[..|s| - 1]) else s
  }

  /** `r` is the slice of `s` starting at `k`, and everything of `s` before
      and after that slice is whitespace. */
  predicate TrimmedAt(s: string, r: string, k: int) {
    && 0 <= k <= |s| - |r| && r == s[k..k + |r|]
    && (forall i :: 0 <= i < k ==> IsWhitespace(s[i]))
    && (forall i :: k + |r| <= i < |s| ==> IsWhitespace(s[i]))
  }

  /** `String.prototype.trim`: the result is the part of `s` left once the
      whitespace at both ends is removed, and neither of its ends is
      whitespace. */
  function Trim(s: string): (r: string)
    ensures |r| <= |s|
    ensures r == [] || (!IsWhitespace(r[0]) && !IsWhitespace(r[|r| - 1]))
    ensures exists k :: TrimmedAt(s, r, k)
  {
    var front := TrimStart(s);
    var k := |s| - |front|;
    var r := TrimEnd(front);
    assert r == s[k..k + |r|];
    assert forall i :: k + |r| <= i < |s| ==> s[i] == front[i - k];
    assert TrimmedAt(s, r, k);
    r
  }

  /** `!s.trim()`: the string is empty after trimming, which is to say
      that every character is whitespace; so "" is blank. */
  predicate IsBlank(s: string)
    ensures IsBlank(s) <==> forall i :: 0 <= i < |s| ==> IsWhitespace(s[i])
  {
    TrimStartEmpty(s);
    TrimEndOfNonBlank(TrimStart(s));
    Trim(s) == []
  }

  lemma {:induction false} TrimStartEmpty(s: string)
    ensures TrimStart(s) == [] <==> forall i :: 0 <= i < |s| ==> IsWhitespace(s[i])
    decreases |s|
  {
    if s != [] {
      TrimStartEmpty(s[1..]);
      if IsWhitespace(s[0]) {
        forall i | 0 <= i < |s| && (forall j :: 0 <= j < |s[1..]| ==> IsWhitespace(s[1..][j]))
          ensures IsWhitespace(s[i])
        {
          if i > 0 { assert s[i] == s[1..][i - 1]; }
        }
      }
    }
  }

  lemma {:induction false} TrimEndOfNonBlank(s: string)
    requires s == [] || !IsWhitespace(s[0])
    ensures TrimEnd(s) == [] <==> s == []
    decreases |s|
  {
    if s != [] && IsWhitespace(s[|s| - 1]) {
      assert |s| > 1;
      TrimEndOfNonBlank(s[..|s| - 1]);
    }
  }

  /** `toLowerCase` on one character: ASCII and the Latin-1 capitals. */
  function LowerChar(c: char): (r: char)
    ensures 'A' <= c <= 'Z' ==> r as int == c as int + 32
    ensures '\U{00C0}' <= c <= '\U{00DE}' && c != '\U{00D7}' ==> r as int == c as int + 32
    ensures 'a' <= c <= 'z' || '0' <= c <= '9' || c == '\U{00DF}' || c == '\U{00D7}' ==> r == c
  {
    if 'A' <= c <= 'Z' || ('\U{00C0}' <= c <= '\U{00DE}' && c != '\U{00D7}') then
      (c as int + 32) as char
    else c
  }

  /** `toUpperCase` on one character: ASCII and the Latin-1 small letters
      that have a one-character capital. */
  function UpperChar(c: char): (r: char)
    ensures 'a' <= c <= 'z' ==> r as int == c as int - 32
    ensures '\U{00E0}' <= c <= '\U{00FE}' && c != '\U{00F7}' ==> r as int == c as int - 32
    ensures c == '\U{00FF}' ==> r == '\U{0178}'
    ensures c == '\U{00B5}' ==> r == '\U{039C}'
    ensures 'A' <= c <= 'Z' || '0' <= c <= '9' || c == '\U{00DF}' || c == '\U{00F7}' ==> r == c
  {
    if 'a' <= c <= 'z' || ('\U{00E0}' <= c <= '\U{00FE}' && c != '\U{00F7}') then
      (c as int - 32) as char
    else if c == '\U{00FF}' then '\U{0178}'
    else if c == '\U{00B5}' then '\U{039C}'
    else c
  }

  function Lower(s: string): (r: string)
    ensures |r| == |s| && forall i :: 0 <= i < |s| ==> r[i] == LowerChar(s[i])
  {
    seq(|s|, i requires 0 <= i < |s| => LowerChar(s[i]))
  }

  function Upper(s: string): (r: string)
    ensures |r| == |s| && forall i :: 0 <= i < |s| ==> r[i] == UpperChar(s[i])
  {
    seq(|s|, i requires 0 <= i < |s| => UpperChar(s[i]))
  }

  /** Lowercasing an already lowercased string changes nothing. */
  lemma LowerIdempotent(s: string)
    ensures Lower(Lower(s)) == Lower(s)
  {
    assert forall i :: 0 <= i < |s| ==> LowerChar(LowerChar(s[i])) == LowerChar(s[i]);
  }

  /** `haystack.includes(needle)`: `needle` occurs somewhere in `haystack`.
      A prefix is contained, and a needle longer than the haystack never
      is. */
  predicate Contains(haystack: string, needle: string)
    ensures needle <= haystack ==> Contains(haystack, needle)
    ensures Contains(haystack, needle) ==> |needle| <= |haystack|
    decreases |haystack|
  {
    needle <= haystack || (haystack != [] && Contains(haystack[1..], needle))
  }

  /** `needle` occurs in `haystack` starting at index `k`. */
  predicate OccursAt(haystack: string, needle: string, k: int) {
    0 <= k <= |haystack| - |needle| && haystack[k..k + |needle|] == needle
  }

  /** `Contains` agrees with the positional definition of a substring. */
  lemma ContainsAt(haystack: string, needle: string)
    ensures Contains(haystack, needle) <==> exists k :: OccursAt(haystack, needle, k)
  {
    if Contains(haystack, needle) {
      var k := OccurrenceOf(haystack, needle);
    }
    forall k | OccursAt(haystack, needle, k) ensures Contains(haystack, needle) {
      ContainedWhereOccurs(haystack, needle, k);
    }
  }

  /** A position at which a contained needle occurs. */
  lemma {:induction false} OccurrenceOf(haystack: string, needle: string) returns (k: int)
    requires Contains(haystack, needle)
    ensures OccursAt(haystack, needle, k)
    decreases |haystack|
  {
    if needle <= haystack {
      k := 0;
      assert haystack[..|needle|] == needle;
    } else {
      var k' := OccurrenceOf(haystack[1..], needle);
      k := k' + 1;
      assert haystack[k..k + |needle|] == haystack[1..][k'..k' + |needle|];
    }
  }

  lemma {:induction false} ContainedWhereOccurs(haystack: string, needle: string, k: int)
    requires OccursAt(haystack, needle, k)
    ensures Contains(haystack, needle)
    decreases k
  {
    if k == 0 {
      assert needle == haystack[..|needle|];
    } else {
      assert haystack[1..][k - 1..k - 1 + |needle|] == haystack[k..k + |needle|];
      ContainedWhereOccurs(haystack[1..], needle, k - 1);
    }
  }

  function DigitChar(d: nat): char
    requires d < 10
  {
    "0123456789"[d]
  }

  /** Every character is one of the decimal digits '0' to '9'. */
  predicate AllDigits(s: string) {
    forall i :: 0 <= i < |s| ==> '0' <= s[i] <= '9'
  }

  function DigitValue(c: char): nat {
    if '0' <= c <= '9' then c as int - '0' as int else 0
  }

  /** `Number.prototype.toString()` for a non-negative integer. */
  function NatToString(n: nat): (r: string)
    ensures 1 <= |r| && AllDigits(r)
    ensures n < 10 ==> |r| == 1
    ensures n < 100 ==> |r| <= 2
    ensures n >= 10 ==> |r| >= 2
    ensures n > 0 ==> r[0] != '0'
    decreases n
  {
    if n < 10 then [DigitChar(n)] else NatToString(n / 10) + [DigitChar(n % 10)]
  }

  /** `Number.prototype.toString()` for any integer: a minus sign exactly
      for a negative number, then its digits. */
  function IntToString(i: int): (r: string)
    ensures 2 <= |r| <==> i < 0 || i >= 10
    ensures r != [] && (r[0] == '-' <==> i < 0)
    ensures AllDigits(if i < 0 then r[1..] else r)
    ensures ParseDigits(if i < 0 then r[1..] else r) == if i < 0 then -i else i
    ensures (if i < 0 then r[1..] else r)[0] != '0' || i == 0
  {
    ParseNatToString(if i < 0 then -i else i);
    if i < 0 then "-" + NatToString(-i) else NatToString(i)
  }

  /** `s.padStart(width, fill)`. */
  function PadStart(s: string, width: nat, fill: char): (r: string)
    ensures |r| == if |s| < width then width else |s|
    ensures r[|r| - |s|..] == s
    ensures forall i :: 0 <= i < |r| - |s| ==> r[i] == fill
    ensures fill == '0' && AllDigits(s) ==> AllDigits(r)
  {
    if |s| < width then seq(width - |s|, _ => fill) + s else s
  }

  /** The value of a string of decimal digits, read from the left. */
  function ParseDigits(s: string): nat
    decreases |s|
  {
    if s == [] then 0 else ParseDigits(s[..|s| - 1]) * 10 + DigitValue(s[|s| - 1])
  }

  /** Printing a natural number and reading it back gives the number. */
  lemma {:induction false} ParseNatToString(n: nat)
    ensures ParseDigits(NatToString(n)) == n
    decreases n
  {
    if n >= 10 {
      ParseNatToString(n / 10);
      var s := NatToString(n);
      assert s[..|s| - 1] == NatToString(n / 10);
    }
  }

  lemma {:induction false} ZerosParseToZero(z: string)
    requires forall i :: 0 <= i < |z| ==> z[i] == '0'
    ensures ParseDigits(z) == 0
    decreases |z|
  {
    if z != [] {
      ZerosParseToZero(z[..|z| - 1]);
    }
  }

  /** Leading zeros do not change the value of a digit string. */
  lemma {:induction false} LeadingZeros(z: string, s: string)
    requires forall i :: 0 <= i < |z| ==> z[i] == '0'
    ensures ParseDigits(z + s) == ParseDigits(s)
    decreases |s|
  {
    if s == [] {
      assert z + s == z;
      ZerosParseToZero(z);
    } else {
      assert (z + s)[..|z + s| - 1] == z + s[..|s| - 1];
      LeadingZeros(z, s[..|s| - 1]);
    }
  }

  /** Zero-padding a printed natural number keeps its value. */
  lemma PaddedNatValue(n: nat, width: nat)
    ensures ParseDigits(PadStart(NatToString(n), width, '0')) == n
  {
    var s := NatToString(n);
    var r := PadStart(s, width, '0');
    ParseNatToString(n);
    assert r == r[..|r| - |s|] + s;
    LeadingZeros(r[..|r| - |s|], s);
  }
}
