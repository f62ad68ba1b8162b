/**
 * The string primitives the forms and the product search rely on, with the meaning
 * ECMAScript gives them: `trim`, `toLowerCase` (restricted to ASCII letters),
 * `includes`, `parseInt(s, 10)` and the unanchored test of the pattern `\S+@\S+\.\S+`.
 */
module JsString {
  import opened Wrappers

  /** WhiteSpace and LineTerminator code points (sections 12.2 and 12.3 of ECMA-262):
      the set that `\s` matches and that `String.prototype.trim` strips. */
  predicate IsWhite(c: char) {
    c == '\t' || c == '\n' || c == '\U{000B}' || c == '\U{000C}' || c == '\r' || c == ' '
    || c == '\U{00A0}' || c == '\U{1680}' || ('\U{2000}' <= c <= '\U{200A}')
    || c == '\U{2028}' || c == '\U{2029}' || c == '\U{202F}' || c == '\U{205F}'
    || c == '\U{3000}' || c == '\U{FEFF}'
  }

  /** Every character of s[lo..hi] is matched by `\S`. */
  predicate NoWhiteIn(s: string, lo: int, hi: int)
    requires 0 <= lo <= hi <= |s|
  {
    forall k :: lo <= k < hi ==> !IsWhite(s[k])
  }

  /** Every character of s is white space. */
  predicate IsBlank(s: string) {
    forall k :: 0 <= k < |s| ==> IsWhite(s[k])
  }

  /** `String.prototype.trimStart`: the suffix left after the leading white space. */
  function TrimStart(s: string): string {
    if s != [] && IsWhite(s[0]) then TrimStart(s[1..]) else s
  }

  /** trimStart removes a run of white space and stops at the first other character. */
  lemma {:induction false} TrimStartSpec(s: string)
    ensures var r := TrimStart(s);
            && |r| <= |s| && r == s[|s| - |r|..]
            && (r == [] || !IsWhite(r[0]))
            && forall k :: 0 <= k < |s| - |r| ==> IsWhite(s[k])
  {
    if s != [] && IsWhite(s[0]) {
      TrimStartSpec(s[1..]);
      var r := TrimStart(s[1..]);
      forall k | 0 <= k < |s| - |r| ensures IsWhite(s[k]) {
        if k > 0 {
          assert s[k] == s[1..][k - 1];
        }
      }
    }
  }

  /** `String.prototype.trimEnd`: the prefix left before the trailing white space. */
  function TrimEnd(s: string): string {
    if s != [] && IsWhite(s[|s| - 1]) then TrimEnd(s[..|s| - 1]) else s
  }

  /** trimEnd removes a run of trailing white space and stops at the last other character. */
  lemma {:induction false} TrimEndSpec(s: string)
    ensures var r := TrimEnd(s);
            && |r| <= |s| && r == s[..|r|]
            && (r == [] || !IsWhite(r[|r| - 1]))
            && forall k :: |r| <= k < |s| ==> IsWhite(s[k])
  {
    if s != [] && IsWhite(s[|s| - 1]) {
      var init := s[..|s| - 1];
      TrimEndSpec(init);
      var r := TrimEnd(init);
      assert init[..|r|] == s[..|r|];
      forall k | |r| <= k < |s| ensures IsWhite(s[k]) {
        if k < |s| - 1 {
          assert s[k] == init[k];
        }
      }
    }
  }

  /** `String.prototype.trim`: s without its leading and trailing white space. */
  function Trim(s: string): string {
    TrimEnd(TrimStart(s))
  }

  /** The trimmed string starts and ends with a non-space and occurs in the original. */
  lemma TrimSpec(s: string)
    ensures var r := Trim(s);
            (r == [] || (!IsWhite(r[0]) && !IsWhite(r[|r| - 1]))) && Contains(s, r)
  {
    var t := TrimStart(s);
    TrimStartSpec(s);
    TrimEndSpec(t);
    var r := TrimEnd(t);
    if r != [] {
      assert r[0] == t[0];
    }
    assert s[|s| - |t|..][..|r|] == r;
    assert OccursAt(s, r, |s| - |t|);
  }

  /** The forms test `!s.trim()`, which holds exactly when s is blank. */
  lemma TrimEmptyIffBlank(s: string)
    ensures Trim(s) == [] <==> IsBlank(s)
  {
    var t := TrimStart(s);
    TrimStartSpec(s);
    TrimEndSpec(t);
    var r := TrimEnd(t);
    if r == [] {
      assert t == [];
    } else {
      assert !IsWhite(s[|s| - |t|]);
    }
  }

  /** ASCII case mapping of `String.prototype.toLowerCase`. */
  function LowerChar(c: char): char {
    if 'A' <= c <= 'Z' then (c as int + 32) as char else c
  }

  function Lower(s: string): (r: string)
    ensures |r| == |s|
    ensures forall k :: 0 <= k < |s| ==> r[k] == LowerChar(s[k])
  {
    seq(|s|, k requires 0 <= k < |s| => LowerChar(s[k]))
  }

  /** Lowercasing a lowercased string changes nothing. */
  lemma LowerIdempotent(s: string)
    ensures Lower(Lower(s)) == Lower(s)
  {
  }

  /** needle occurs in hay starting at position i. */
  predicate OccursAt(hay: string, needle: string, i: int)
    requires 0 <= i <= |hay| - |needle|
  {
    hay[i..i + |needle|] == needle
  }

  /** `String.prototype.includes`. */
  predicate Contains(hay: string, needle: string) {
    exists i | 0 <= i <= |hay| - |needle| :: OccursAt(hay, needle, i)
  }

  // ---------------------------------------------------------------------------
  // The test `/\S+@\S+\.\S+/.test(s)`
  // ---------------------------------------------------------------------------

  /** The pattern matches s[a..b] with its '@' at i and its '.' at j: each of the three
      `\S+` runs is non-empty and free of white space. */
  ghost predicate EmailRegexMatchesAt(s: string, a: int, i: int, j: int, b: int) {
    && 0 <= a < i && i + 1 < j && j + 1 < b <= |s|
    && s[i] == '@' && s[j] == '.'
    && NoWhiteIn(s, a, i) && NoWhiteIn(s, i + 1, j) && NoWhiteIn(s, j + 1, b)
  }

  /** The regular expression is unanchored: it is satisfied when some substring matches. */
  ghost predicate EmailRegexMatches(s: string) {
    exists a, i, j, b :: EmailRegexMatchesAt(s, a, i, j, b)
  }

  /** '@' at i, '.' at j, a non-space just before the '@', a non-space just after the '.',
      and only non-spaces between them. */
  predicate EmailShapeAt(s: string, i: int, j: int)
    requires 1 <= i < |s| && i + 1 < j < |s| - 1
  {
    s[i] == '@' && s[j] == '.' && !IsWhite(s[i - 1]) && !IsWhite(s[j + 1]) && NoWhiteIn(s, i + 1, j)
  }

  /** The executable form of the email test the two forms run. */
  predicate EmailPattern(s: string) {
    exists i, j | 1 <= i < |s| && i + 1 < j < |s| - 1 :: EmailShapeAt(s, i, j)
  }

  /** The executable test agrees with the regular expression on every string. */
  lemma EmailPatternIsRegex(s: string)
    ensures EmailPattern(s) <==> EmailRegexMatches(s)
  {
    if EmailPattern(s) {
      var i, j :| 1 <= i < |s| && i + 1 < j < |s| - 1 && EmailShapeAt(s, i, j);
      assert EmailRegexMatchesAt(s, i - 1, i, j, j + 2);
    }
    if EmailRegexMatches(s) {
      var a, i, j, b :| EmailRegexMatchesAt(s, a, i, j, b);
      assert !IsWhite(s[i - 1]);
      assert !IsWhite(s[j + 1]);
      assert EmailShapeAt(s, i, j);
    }
  }

  lemma {:induction false} NoAtSignNoEmail(s: string)
    requires forall k :: 0 <= k < |s| ==> s[k] != '@'
    ensures !EmailPattern(s)
  {
    forall i, j | 1 <= i < |s| && i + 1 < j < |s| - 1 ensures !EmailShapeAt(s, i, j) {
      assert s[i] != '@';
    }
  }

  // ---------------------------------------------------------------------------
  // parseInt(s, 10)
  // ---------------------------------------------------------------------------

  predicate IsDigit(c: char) {
    '0' <= c <= '9'
  }

  predicate AllDigits(s: string) {
    forall k :: 0 <= k < |s| ==> IsDigit(s[k])
  }

  /** The longest prefix of s made of decimal digits. */
  function DigitPrefix(s: string): (r: string)
    ensures |r| <= |s| && r == s[..|r|] && AllDigits(r)
    ensures |r| < |s| ==> !IsDigit(s[|r|])
  {
    if s != [] && IsDigit(s[0]) then [s[0]] + DigitPrefix(s[1..]) else []
  }

  /** The number a string of decimal digits denotes. */
  function DigitsValue(ds: string): nat
    requires AllDigits(ds)
  {
    if ds == [] then 0 else DigitsValue(ds[..|ds| - 1]) * 10 + (ds[|ds| - 1] as int - '0' as int)
  }

  /** `parseInt(s, 10)`: leading white space is skipped, one optional sign is read, then the
      longest run of digits; `None` stands for `NaN` (no digit at that point). */
  function ParseInt(s: string): (r: Option<int>)
  {
    var t := TrimStart(s);
    var negative := t != [] && t[0] == '-';
    var body := if t != [] && (t[0] == '-' || t[0] == '+') then t[1..] else t;
    var ds := DigitPrefix(body);
    if ds == [] then None
    else
      var v: int := DigitsValue(ds);
      Some(if negative then -v else v)
  }

  /** The decimal rendering of a natural number, as a number input holds it. */
  function Decimal(n: nat): (r: string)
    ensures r != [] && AllDigits(r)
  {
    if n < 10 then [('0' as int + n) as char] else Decimal(n / 10) + [('0' as int + n % 10) as char]
  }

  lemma {:induction false} DecimalValue(n: nat)
    ensures DigitsValue(Decimal(n)) == n
  {
    var r := Decimal(n);
    if n >= 10 {
      DecimalValue(n / 10);
      assert r[..|r| - 1] == Decimal(n / 10);
    } else {
      assert r[..0] == [];
    }
  }

  lemma {:induction false} DigitPrefixOfDigits(ds: string)
    requires AllDigits(ds)
    ensures DigitPrefix(ds) == ds
  {
    if ds != [] {
      DigitPrefixOfDigits(ds[1..]);
    }
  }

  lemma {:induction false} TrimStartOfDigits(ds: string)
    requires ds != [] && AllDigits(ds)
    ensures TrimStart(ds) == ds
  {
    assert IsDigit(ds[0]);
  }

  lemma {:induction false} ParseIntOfDigits(ds: string)
    requires ds != [] && AllDigits(ds)
    ensures ParseInt(ds) == Some(DigitsValue(ds))
  {
    TrimStartOfDigits(ds);
    DigitPrefixOfDigits(ds);
  }

  lemma {:induction false} ParseIntOfNegatedDigits(ds: string)
    requires ds != [] && AllDigits(ds)
    ensures ParseInt("-" + ds) == Some(-(DigitsValue(ds) as int))
  {
    var m := ['-'] + ds;
    assert m[0] == '-';
    assert !IsWhite(m[0]);
    assert TrimStart(m) == m;
    assert m[1..] == ds;
    DigitPrefixOfDigits(ds);
    assert DigitPrefix(m[1..]) == ds;
  }

  /** `parseInt` reads back the decimal rendering of every integer. */
  lemma ParseIntDecimal(n: nat)
    ensures ParseInt(Decimal(n)) == Some(n)
    ensures ParseInt("-" + Decimal(n)) == Some(-(n as int))
  {
    DecimalValue(n);
    ParseIntOfDigits(Decimal(n));
    ParseIntOfNegatedDigits(Decimal(n));
  }

  /** `parseInt` yields NaN exactly when no digit follows the white space and the sign. */
  lemma ParseIntNaN(s: string)
    ensures var t := TrimStart(s);
            var body := if t != [] && (t[0] == '-' || t[0] == '+') then t[1..] else t;
            ParseInt(s).None? <==> (body == [] || !IsDigit(body[0]))
  {
  }
}
