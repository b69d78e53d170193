/**
 * The JavaScript string operations the pages rely on: `trim`, the `\s`
 * class, `\d`, ASCII `toLowerCase`, `includes`, `split(',')[0]`,
 * `parseInt` (radix omitted) and the decimal rendering of a number in a
 * template literal.
 */
module Text {
  import opened Wrappers
  import opened Seqs

  /**
   * ECMAScript WhiteSpace and LineTerminator code points: the set that
   * `trim` removes and that `\s` matches.
   */
  predicate IsWhitespace(c: char) {
    var n := c as int;
    || 0x09 <= n <= 0x0D                        // tab, line feed, vertical tab, form feed, carriage return
    || n == 0x20 || n == 0xA0 || n == 0x1680    // space, no-break space, ogham space mark
    || 0x2000 <= n <= 0x200A                    // en quad .. hair space
    || n == 0x2028 || n == 0x2029               // line and paragraph separators
    || n == 0x202F || n == 0x205F || n == 0x3000
    || n == 0xFEFF                              // byte order mark
  }

  function NotWhitespace(c: char): bool { !IsWhitespace(c) }

  /** Every character is whitespace (the empty string included). */
  predicate IsBlank(s: string) {
    forall i :: 0 <= i < |s| ==> IsWhitespace(s[i])
  }

  /** Drop the leading whitespace. */
  function TrimStart(s: string): string {
    if s != [] && IsWhitespace(s[0]) then TrimStart(s[1..]) else s
  }

  /** What `TrimStart` keeps is a suffix that starts with a non-space, after a blank prefix. */
  lemma {:induction false} TrimStartSpec(s: string)
    ensures var r := TrimStart(s);
      && |r| <= |s| && r == s[|s| - |r|..]
      && (r != [] ==> !IsWhitespace(r[0]))
      && IsBlank(s[..|s| - |r|])
  {
    if s != [] && IsWhitespace(s[0]) {
      var s' := s[1..];
      TrimStartSpec(s');
      var r := TrimStart(s');
      assert TrimStart(s) == r;
      assert s'[|s'| - |r|..] == s[|s| - |r|..];
      var b := s[..|s| - |r|];
      assert b == [s[0]] + s'[..|s'| - |r|];
      assert IsBlank(b) by {
        forall i | 0 <= i < |b| ensures IsWhitespace(b[i]) {
          if i > 0 { assert b[i] == s'[..|s'| - |r|][i - 1]; }
        }
      }
    }
  }

  /** Drop the trailing whitespace. */
  function TrimEnd(s: string): string {
    if s != [] && IsWhitespace(s[|s| - 1]) then TrimEnd(s[..|s| - 1]) else s
  }

  /** What `TrimEnd` keeps is a prefix that ends with a non-space, before a blank suffix. */
  lemma {:induction false} TrimEndSpec(s: string)
    ensures var r := TrimEnd(s);
      && |r| <= |s| && r == s[..|r|]
      && (r != [] ==> !IsWhitespace(r[|r| - 1]))
      && IsBlank(s[|r|..])
  {
    if s != [] && IsWhitespace(s[|s| - 1]) {
      var s' := s[..|s| - 1];
      TrimEndSpec(s');
      var r := TrimEnd(s');
      assert s[|r|..] == s'[|r|..] + [s[|s| - 1]];
    }
  }

  /** `s.trim()`. */
  function Trim(s: string): string {
    TrimEnd(TrimStart(s))
  }

  /** `!s.trim()` holds exactly when the string is made of whitespace only. */
  lemma TrimEmptyIffBlank(s: string)
    ensures Trim(s) == "" <==> IsBlank(s)
  {
    var t := TrimStart(s);
    TrimStartSpec(s);
    TrimEndSpec(t);
    if Trim(s) == "" {
      assert IsBlank(t) by { assert t[0..] == t; }
      assert s == s[..|s| - |t|] + t;
    } else {
      var r := Trim(s);
      assert !IsWhitespace(r[0]);
      assert r[0] == s[|s| - |t|];
    }
  }

  /** `s.replace(/\s/g, '')`. */
  function RemoveWhitespace(s: string): (r: string)
    ensures SelectsInOrder(r, s, NotWhitespace)
    ensures forall c :: c in r <==> c in s && !IsWhitespace(c)
  {
    FilterMembershipAll(s, NotWhitespace);
    FilterSelectsInOrder(s, NotWhitespace);
    Filter(s, NotWhitespace)
  }

  /** `\d`: ASCII digits only. */
  predicate IsDigit(c: char) {
    '0' <= c <= '9'
  }

  predicate AllDigits(s: string) {
    forall i :: 0 <= i < |s| ==> IsDigit(s[i])
  }

  function IsDigitChar(c: char): bool { IsDigit(c) }

  /** `s.replace(/[^0-9]/g, '')`. */
  function DigitsOnly(s: string): (r: string)
    ensures SelectsInOrder(r, s, IsDigitChar)
    ensures AllDigits(r)
    ensures forall c :: c in r <==> c in s && IsDigit(c)
  {
    FilterMembershipAll(s, IsDigitChar);
    FilterSelectsInOrder(s, IsDigitChar);
    FilterAllDigits(s);
    Filter(s, IsDigitChar)
  }

  lemma FilterAllDigits(s: string)
    ensures AllDigits(Filter(s, IsDigitChar))
  {
    var r := Filter(s, IsDigitChar);
    forall i | 0 <= i < |r| ensures IsDigit(r[i]) {
      FilterMembership(s, IsDigitChar, r[i]);
    }
  }

  lemma FilterMembershipAll(s: string, p: char -> bool)
    ensures forall c :: c in Filter(s, p) <==> c in s && p(c)
  {
    forall c ensures c in Filter(s, p) <==> c in s && p(c) {
      FilterMembership(s, p, c);
    }
  }

  /** ASCII case mapping; other characters are left as they are. */
  function LowerChar(c: char): (r: char)
    ensures 'A' <= c <= 'Z' ==> r as int == c as int + 32
    ensures !('A' <= c <= 'Z') ==> r == c
  {
    if 'A' <= c <= 'Z' then (c as int + 32) as char else c
  }

  /** `s.toLowerCase()`, restricted to ASCII letters. */
  function ToLower(s: string): (r: string)
    ensures |r| == |s|
    ensures forall i :: 0 <= i < |s| ==> r[i] == LowerChar(s[i])
  {
    if s == [] then [] else [LowerChar(s[0])] + ToLower(s[1..])
  }

  /** `hay.includes(needle)`: `needle` occurs as a contiguous piece of `hay`. */
  predicate Includes(hay: string, needle: string) {
    exists i :: 0 <= i <= |hay| - |needle| && OccursAt(hay, needle, i)
  }

  predicate OccursAt(hay: string, needle: string, i: int)
    requires 0 <= i <= |hay| - |needle|
  {
    hay[i..i + |needle|] == needle
  }

  /** `s.split(',')[0]`: everything before the first comma. */
  function FirstSegment(s: string): (r: string)
    ensures r <= s
    ensures ',' !in r
    ensures |r| < |s| ==> s[|r|] == ','
  {
    if s == [] || s[0] == ',' then [] else [s[0]] + FirstSegment(s[1..])
  }

  function DigitValue(c: char): (d: nat)
    requires IsDigit(c)
    ensures d < 10
  {
    c as int - '0' as int
  }

  function DigitChar(d: nat): (c: char)
    requires d < 10
    ensures IsDigit(c) && DigitValue(c) == d
  {
    ('0' as int + d) as char
  }

  /** The value of a string of decimal digits. */
  function DecimalValue(d: string): nat
    requires AllDigits(d)
  {
    if d == [] then 0 else 10 * DecimalValue(d[..|d| - 1]) + DigitValue(d[|d| - 1])
  }

  predicate IsHexDigit(c: char) {
    IsDigit(c) || 'a' <= c <= 'f' || 'A' <= c <= 'F'
  }

  function HexDigitValue(c: char): (d: nat)
    requires IsHexDigit(c)
    ensures d < 16
  {
    if IsDigit(c) then DigitValue(c)
    else if 'a' <= c <= 'f' then c as int - 'a' as int + 10
    else c as int - 'A' as int + 10
  }

  /** The value of a string of hexadecimal digits. */
  function HexValue(h: string): nat
    requires forall i :: 0 <= i < |h| ==> IsHexDigit(h[i])
  {
    if h == [] then 0 else 16 * HexValue(h[..|h| - 1]) + HexDigitValue(h[|h| - 1])
  }

  /** The longest prefix made of decimal digits. */
  function LeadingDigits(s: string): (r: string)
    ensures r <= s && AllDigits(r)
    ensures |r| < |s| ==> !IsDigit(s[|r|])
  {
    if s == [] || !IsDigit(s[0]) then [] else [s[0]] + LeadingDigits(s[1..])
  }

  /** The longest prefix made of hexadecimal digits. */
  function LeadingHexDigits(s: string): (r: string)
    ensures r <= s && forall i :: 0 <= i < |r| ==> IsHexDigit(r[i])
    ensures |r| < |s| ==> !IsHexDigit(s[|r|])
  {
    if s == [] || !IsHexDigit(s[0]) then [] else [s[0]] + LeadingHexDigits(s[1..])
  }

  /**
   * `parseInt(s)` with no radix: skip leading whitespace, take an optional
   * sign, a `0x`/`0X` prefix switches to hexadecimal, then read the longest
   * run of digits; no digits at all gives `NaN` (`None`).
   */
  function ParseInt(s: string): Option<int> {
    var t := TrimStart(s);
    var sign := if t != [] && t[0] == '-' then -1 else 1;
    var u := if t != [] && (t[0] == '-' || t[0] == '+') then t[1..] else t;
    if |u| >= 2 && u[0] == '0' && (u[1] == 'x' || u[1] == 'X') then
      var h := LeadingHexDigits(u[2..]);
      if h == [] then None else Some(sign * HexValue(h))
    else
      var d := LeadingDigits(u);
      if d == [] then None else Some(sign * DecimalValue(d))
  }

  /** The decimal rendering of a natural number, as in `${n}`. */
  function NatToString(n: nat): (r: string)
    ensures r != [] && AllDigits(r)
  {
    if n < 10 then [DigitChar(n)] else NatToString(n / 10) + [DigitChar(n % 10)]
  }

  lemma {:induction false} DecimalValueOfNatToString(n: nat)
    ensures DecimalValue(NatToString(n)) == n
  {
    if n >= 10 {
      var r := NatToString(n);
      assert r[..|r| - 1] == NatToString(n / 10);
      DecimalValueOfNatToString(n / 10);
    }
  }

  lemma {:induction false} LeadingDigitsOfDigits(d: string)
    requires AllDigits(d)
    ensures LeadingDigits(d) == d
  {
    if d != [] {
      LeadingDigitsOfDigits(d[1..]);
    }
  }

  /** `parseInt` of a non-empty run of decimal digits is its decimal value. */
  lemma ParseIntOfDigits(d: string)
    requires d != [] && AllDigits(d)
    ensures ParseInt(d) == Some(DecimalValue(d))
  {
    assert !IsWhitespace(d[0]);
    assert TrimStart(d) == d;
    LeadingDigitsOfDigits(d);
  }

  /** Rendering a number and parsing it back gives the number: `parseInt(`${n}`) == n`. */
  lemma ParseIntOfNatToString(n: nat)
    ensures ParseInt(NatToString(n)) == Some(n)
  {
    ParseIntOfDigits(NatToString(n));
    DecimalValueOfNatToString(n);
  }
}
