/**
 * String helpers shared by the routes: ASCII lower-casing (String.prototype.toLowerCase
 * restricted to ASCII), substring search (String.prototype.includes), decimal rendering of
 * naturals (Number.prototype.toString) and the JavaScript notion of a blank string
 * (`!s.trim()`).
 */
module Strings {

  predicate IsUpper(c: char) {
    'A' <= c <= 'Z'
  }

  /** ASCII lower-casing of one character; every other character is left alone. */
  function LowerChar(c: char): (r: char)
    ensures IsUpper(c) ==> r as int == c as int + 32
    ensures !IsUpper(c) ==> r == c
    ensures !IsUpper(r)
  {
    if IsUpper(c) then (c as int + 32) as char else c
  }

  function ToLower(s: string): (r: string)
    ensures |r| == |s|
    ensures forall i :: 0 <= i < |s| ==> r[i] == LowerChar(s[i])
  {
    if s == [] then [] else [LowerChar(s[0])] + ToLower(s[1..])
  }

  /** Two strings are equal ignoring ASCII case. */
  predicate EqualIgnoringCase(a: string, b: string) {
    ToLower(a) == ToLower(b)
  }

  lemma {:induction false} ToLowerIdempotent(s: string)
    ensures ToLower(ToLower(s)) == ToLower(s)
  {
    if s != [] {
      ToLowerIdempotent(s[1..]);
    }
  }

  /** `p` occurs in `s` starting at index `i`. */
  predicate OccursAt(s: string, p: string, i: int) {
    0 <= i && i + |p| <= |s| && s[i..i + |p|] == p
  }

  /** String.prototype.includes: `p` occurs somewhere in `s`. */
  function Contains(s: string, p: string): (r: bool)
    ensures r <==> exists i :: OccursAt(s, p, i)
    decreases |s|
  {
    if |p| <= |s| && s[..|p|] == p then
      assert OccursAt(s, p, 0);
      true
    else if s == [] then
      false
    else
      var rest := Contains(s[1..], p);
      assert rest ==> exists i :: OccursAt(s, p, i) by {
        if rest {
          var i :| OccursAt(s[1..], p, i);
          assert s[i + 1..i + 1 + |p|] == s[1..][i..i + |p|];
          assert OccursAt(s, p, i + 1);
        }
      }
      assert (exists i :: OccursAt(s, p, i)) ==> rest by {
        if exists i :: OccursAt(s, p, i) {
          var i :| OccursAt(s, p, i);
          assert i != 0;
          assert s[1..][i - 1..i - 1 + |p|] == s[i..i + |p|];
          assert OccursAt(s[1..], p, i - 1);
        }
      }
      rest
  }

  // ---------------------------------------------------------------------------
  // Decimal numerals

  predicate IsDigit(c: char) {
    '0' <= c <= '9'
  }

  function DigitChar(d: nat): (c: char)
    requires d < 10
    ensures IsDigit(c)
  {
    ('0' as int + d) as char
  }

  function DigitValue(c: char): (d: nat)
    requires IsDigit(c)
    ensures d < 10
  {
    c as int - '0' as int
  }

  /** The decimal numeral of `n`, as Number.prototype.toString writes it. */
  function NatToString(n: nat): (s: string)
    ensures |s| > 0
    ensures forall i :: 0 <= i < |s| ==> IsDigit(s[i])
    ensures n > 0 ==> s[0] != '0'
  {
    if n < 10 then [DigitChar(n)] else NatToString(n / 10) + [DigitChar(n % 10)]
  }

  /** Reads a string of digits back as a natural number. */
  function ParseDigits(s: string): nat
    requires forall i :: 0 <= i < |s| ==> IsDigit(s[i])
  {
    if s == [] then 0 else 10 * ParseDigits(s[..|s| - 1]) + DigitValue(s[|s| - 1])
  }

  lemma {:induction false} ParseNatToString(n: nat)
    ensures ParseDigits(NatToString(n)) == n
  {
    if n >= 10 {
      var s := NatToString(n);
      assert s[..|s| - 1] == NatToString(n / 10);
      ParseNatToString(n / 10);
    }
  }

  /** Decimal numerals are injective: distinct numbers never print alike. */
  lemma NatToStringInjective(m: nat, n: nat)
    requires NatToString(m) == NatToString(n)
    ensures m == n
  {
    ParseNatToString(m);
    ParseNatToString(n);
  }

  // ---------------------------------------------------------------------------
  // Blank strings

  /** The characters String.prototype.trim removes: WhiteSpace and LineTerminator. */
  predicate IsSpace(c: char) {
    c == ' ' || c == '\t' || c == '\n' || c == '\r' || c == '\U{0B}' || c == '\U{0C}'
    || c == '\U{A0}' || c == '\U{1680}' || ('\U{2000}' <= c <= '\U{200A}')
    || c == '\U{2028}' || c == '\U{2029}' || c == '\U{202F}' || c == '\U{205F}'
    || c == '\U{3000}' || c == '\U{FEFF}'
  }

  function TrimStart(s: string): (r: string)
    ensures |r| <= |s| && r == s[|s| - |r|..]
    ensures r != [] ==> !IsSpace(r[0])
    ensures forall i :: 0 <= i < |s| - |r| ==> IsSpace(s[i])
  {
    if s != [] && IsSpace(s[0]) then TrimStart(s[1..]) else s
  }

  function TrimEnd(s: string): (r: string)
    ensures |r| <= |s| && r == s[..|r|]
    ensures r != [] ==> !IsSpace(r[|r| - 1])
    ensures forall i :: |r| <= i < |s| ==> IsSpace(s[i])
  {
    if s != [] && IsSpace(s[|s| - 1]) then TrimEnd(s[..|s| - 1]) else s
  }

  /** String.prototype.trim. */
  function Trim(s: string): string {
    TrimEnd(TrimStart(s))
  }

  /** `!s.trim()` in JavaScript: the string is empty once trimmed. */
  predicate IsBlank(s: string) {
    Trim(s) == ""
  }

  lemma {:induction false} TrimStartOfSpaces(s: string)
    requires forall i :: 0 <= i < |s| ==> IsSpace(s[i])
    ensures TrimStart(s) == []
  {
    if s != [] {
      TrimStartOfSpaces(s[1..]);
    }
  }

  /** Trimming the end never empties a string that starts with a non-space. */
  lemma TrimEndKeepsFirst(t: string)
    requires t != [] && !IsSpace(t[0])
    ensures TrimEnd(t) != []
  {
  }

  /** A string with a character that is not white space is not blank. */
  lemma NonSpaceNotBlank(s: string, j: nat)
    requires j < |s| && !IsSpace(s[j])
    ensures !IsBlank(s)
  {
    var t := TrimStart(s);
    assert j >= |s| - |t|;
    assert t[j - (|s| - |t|)] == s[j];
    TrimEndKeepsFirst(t);
  }

  /** A string is blank exactly when every one of its characters is white space. */
  lemma BlankIffAllSpace(s: string)
    ensures IsBlank(s) <==> forall i :: 0 <= i < |s| ==> IsSpace(s[i])
  {
    if forall i :: 0 <= i < |s| ==> IsSpace(s[i]) {
      TrimStartOfSpaces(s);
    } else {
      var j :| 0 <= j < |s| && !IsSpace(s[j]);
      NonSpaceNotBlank(s, j);
    }
  }
}
