/** The string primitives of ECMAScript that the modelled code relies on. */
module Strings {
  import opened Wrappers

  // ---------------------------------------------------------------------------
  // Whitespace and trimming (String.prototype.trim)
  // ---------------------------------------------------------------------------

  /** WhiteSpace and LineTerminator code points of ECMAScript, the set `trim` removes. */
  predicate IsWhitespace(c: char) {
    c == '\t' || c == '\n' || c == '\U{000B}' || c == '\U{000C}' || c == '\r' || c == ' '
    || c == '\U{00A0}' || c == '\U{1680}' || ('\U{2000}' <= c <= '\U{200A}')
    || c == '\U{2028}' || c == '\U{2029}' || c == '\U{202F}' || c == '\U{205F}'
    || c == '\U{3000}' || c == '\U{FEFF}'
  }

  /** Reference meaning of "blank": every character is whitespace. */
  predicate IsBlank(s: string) {
    forall i | 0 <= i < |s| :: IsWhitespace(s[i])
  }

  function TrimStart(s: string): (r: string)
    ensures |r| <= |s| && r == s[|s| - |r|..]
    ensures forall i | 0 <= i < |s| - |r| :: IsWhitespace(s[i])
    ensures |r| > 0 ==> !IsWhitespace(r[0])
  {
    if |s| > 0 && IsWhitespace(s[0]) then TrimStart(s[1..]) else s
  }

  function TrimEnd(s: string): (r: string)
    ensures |r| <= |s| && r == s[..|r|]
    ensures forall i | |r| <= i < |s| :: IsWhitespace(s[i])
    ensures |r| > 0 ==> !IsWhitespace(r[|r| - 1])
  {
    if |s| > 0 && IsWhitespace(s[|s| - 1]) then TrimEnd(s[..|s| - 1]) else s
  }

  /** `s.trim()`: leading and trailing whitespace removed. */
  function Trim(s: string): string {
    TrimEnd(TrimStart(s))
  }

  /** `s.trim() !== ''` holds exactly when `s` has a non-whitespace character. */
  lemma TrimEmptyIffBlank(s: string)
    ensures Trim(s) == "" <==> IsBlank(s)
  {
    var t := TrimStart(s);
    if Trim(s) == "" {
      assert |t| == 0;
    } else {
      var r := Trim(s);
      assert r[0] == t[0];
      assert !IsWhitespace(s[|s| - |t|]);
    }
  }

  // ---------------------------------------------------------------------------
  // Case mapping (String.prototype.toLowerCase, ASCII range)
  // ---------------------------------------------------------------------------

  function LowerChar(c: char): char {
    if 'A' <= c <= 'Z' then (c as int + 32) as char else c
  }

  function ToLower(s: string): (r: string)
    ensures |r| == |s|
    ensures forall i | 0 <= i < |s| :: r[i] == LowerChar(s[i])
  {
    if |s| == 0 then "" else [LowerChar(s[0])] + ToLower(s[1..])
  }

  // ---------------------------------------------------------------------------
  // Searching (includes, endsWith, replace with a string pattern)
  // ---------------------------------------------------------------------------

  /** Reference meaning of "`pat` occurs in `text` at position `i`". */
  predicate OccursAt(text: string, pat: string, i: int) {
    0 <= i && i + |pat| <= |text| && text[i..i + |pat|] == pat
  }

  /** Reference: `pat` occurs somewhere in `text`. */
  ghost predicate OccursIn(text: string, pat: string) {
    exists i :: OccursAt(text, pat, i)
  }

  /** `text.includes(pat)`. */
  predicate Contains(text: string, pat: string)
    decreases |text|
  {
    |pat| <= |text| && (text[..|pat|] == pat || (|text| > 0 && Contains(text[1..], pat)))
  }

  lemma {:induction false} ContainsIffOccurs(text: string, pat: string)
    ensures Contains(text, pat) <==> exists i :: OccursAt(text, pat, i)
    decreases |text|
  {
    if |pat| <= |text| && text[..|pat|] != pat && |text| > 0 {
      ContainsIffOccurs(text[1..], pat);
      if Contains(text[1..], pat) {
        var i :| OccursAt(text[1..], pat, i);
        assert text[i + 1..i + 1 + |pat|] == text[1..][i..i + |pat|];
        assert OccursAt(text, pat, i + 1);
      } else if exists i :: OccursAt(text, pat, i) {
        var i :| OccursAt(text, pat, i);
        assert i != 0;
        assert text[1..][i - 1..i - 1 + |pat|] == text[i..i + |pat|];
        assert OccursAt(text[1..], pat, i - 1);
        assert false;
      }
    } else if |pat| <= |text| && text[..|pat|] == pat {
      assert OccursAt(text, pat, 0);
    }
  }

  /** The empty string is contained in every string. */
  lemma ContainsEmpty(text: string)
    ensures Contains(text, "")
  {
    assert text[..0] == "";
  }

  predicate EndsWith(s: string, suffix: string) {
    |suffix| <= |s| && s[|s| - |suffix|..] == suffix
  }

  /** Index of the first occurrence of `pat` in `text`, if any (`indexOf`). */
  function IndexOf(text: string, pat: string): (r: Option<nat>)
    ensures r.Some? ==> OccursAt(text, pat, r.value)
    ensures r.Some? ==> forall j | 0 <= j < r.value :: !OccursAt(text, pat, j)
    ensures r.None? ==> forall j :: !OccursAt(text, pat, j)
    decreases |text|
  {
    if |pat| > |text| then None
    else if text[..|pat|] == pat then Some(0)
    else
      var rest := IndexOf(text[1..], pat);
      assert forall j | 1 <= j && OccursAt(text, pat, j) :: OccursAt(text[1..], pat, j - 1) by {
        forall j | 1 <= j && OccursAt(text, pat, j) ensures OccursAt(text[1..], pat, j - 1) {
          OccursInTail(text, pat, j - 1);
        }
      }
      match rest
      case None => None
      case Some(k) =>
        OccursInTail(text, pat, k);
        Some(k + 1)
  }

  /** An occurrence in the tail is an occurrence one place further on in the whole string. */
  lemma OccursInTail(text: string, pat: string, j: nat)
    requires |text| > 0
    ensures OccursAt(text, pat, j + 1) <==> OccursAt(text[1..], pat, j)
  {
    if j + 1 + |pat| <= |text| {
      assert text[1..][j..j + |pat|] == text[j + 1..j + 1 + |pat|];
    }
  }

  /** `s.replace(pat, '')` with a string pattern: only the first occurrence is removed. */
  function RemoveFirst(s: string, pat: string): (r: string)
    ensures IndexOf(s, pat).None? ==> r == s
    ensures IndexOf(s, pat).Some? ==> |r| == |s| - |pat|
    ensures IndexOf(s, pat).Some? ==>
      var i := IndexOf(s, pat).value;
      i <= |r| && s == r[..i] + pat + r[i..] && forall j | 0 <= j < i :: !OccursAt(s, pat, j)
  {
    match IndexOf(s, pat)
    case None => s
    case Some(i) => s[..i] + s[i + |pat|..]
  }

  /** No string occurs twice in the list. */
  predicate Distinct(s: seq<string>) {
    forall i, j | 0 <= i < j < |s| :: s[i] != s[j]
  }

  // ---------------------------------------------------------------------------
  // Joining (Array.prototype.join)
  // ---------------------------------------------------------------------------

  function Join(xs: seq<string>, sep: string): string {
    if |xs| == 0 then ""
    else if |xs| == 1 then xs[0]
    else xs[0] + sep + Join(xs[1..], sep)
  }

  // ---------------------------------------------------------------------------
  // Decimal numerals (Number.prototype.toString, Number(digits), parseInt)
  // ---------------------------------------------------------------------------

  predicate IsDigit(c: char) {
    '0' <= c <= '9'
  }

  predicate AllDigits(s: string) {
    forall i | 0 <= i < |s| :: IsDigit(s[i])
  }

  function DigitValue(c: char): nat
    requires IsDigit(c)
  {
    c as int - '0' as int
  }

  /** The value of a decimal numeral, leading zeros allowed. */
  function DigitsValue(s: string): nat
    requires AllDigits(s)
  {
    if |s| == 0 then 0 else 10 * DigitsValue(s[..|s| - 1]) + DigitValue(s[|s| - 1])
  }

  /** `n.toString()` for a non-negative integer: shortest decimal numeral. */
  function NatToString(n: nat): (r: string)
    ensures |r| > 0 && AllDigits(r)
    ensures |r| > 1 ==> r[0] != '0'
  {
    if n < 10 then ['0' + n as char]
    else NatToString(n / 10) + ['0' + (n % 10) as char]
  }

  /** `i.toString()` for any integer. */
  function IntToString(i: int): string {
    if i < 0 then "-" + NatToString(-i) else NatToString(i)
  }

  lemma {:induction false} NatToStringRoundTrip(n: nat)
    ensures DigitsValue(NatToString(n)) == n
  {
    if n >= 10 {
      var s := NatToString(n);
      assert s[..|s| - 1] == NatToString(n / 10);
      NatToStringRoundTrip(n / 10);
    }
  }

  /** Distinct numbers print differently. */
  lemma NatToStringInjective(a: nat, b: nat)
    requires NatToString(a) == NatToString(b)
    ensures a == b
  {
    NatToStringRoundTrip(a);
    NatToStringRoundTrip(b);
  }

  /** Longest prefix of decimal digits. */
  function DigitPrefix(s: string): (r: string)
    ensures AllDigits(r) && |r| <= |s| && r == s[..|r|]
    ensures |r| < |s| ==> !IsDigit(s[|r|])
  {
    if |s| > 0 && IsDigit(s[0]) then [s[0]] + DigitPrefix(s[1..]) else ""
  }

  /**
   * `parseInt(s, 10)`: skip leading whitespace, read an optional sign, then the
   * longest run of decimal digits; `None` stands for NaN (no digit found).
   */
  function ParseInt(s: string): (r: Option<int>)
    ensures r.None? <==> |DigitPrefix(SignFree(TrimStart(s)))| == 0
  {
    var t := TrimStart(s);
    var negative := |t| > 0 && t[0] == '-';
    var digits := DigitPrefix(SignFree(t));
    if |digits| == 0 then None
    else
      var magnitude: int := DigitsValue(digits);
      if negative then Some(-magnitude) else Some(magnitude)
  }

  /** Drops one leading `+` or `-`. */
  function SignFree(t: string): string {
    if |t| > 0 && (t[0] == '-' || t[0] == '+') then t[1..] else t
  }

  /** `parseInt` reads back the decimal form of every integer. */
  lemma ParseIntRoundTrip(i: int)
    ensures ParseInt(IntToString(i)) == Some(i)
  {
    if i < 0 {
      ParseNegativeNumeral(i);
    } else {
      ParseNumeral(i);
    }
  }

  /** A numeral starts with a digit, which is not whitespace. */
  lemma NumeralUntrimmed(n: nat)
    ensures TrimStart(NatToString(n)) == NatToString(n)
  {
    var d := NatToString(n);
    assert IsDigit(d[0]);
    assert !IsWhitespace(d[0]);
  }

  lemma ParseNumeral(n: nat)
    ensures ParseInt(IntToString(n)) == Some(n)
  {
    var d := NatToString(n);
    assert IntToString(n) == d;
    NumeralUntrimmed(n);
    assert SignFree(d) == d;
    DigitPrefixAllDigits(d);
    NatToStringRoundTrip(n);
  }

  lemma ParseNegativeNumeral(i: int)
    requires i < 0
    ensures ParseInt(IntToString(i)) == Some(i)
  {
    var d := NatToString(-i);
    var s := "-" + d;
    assert IntToString(i) == s;
    assert !IsWhitespace(s[0]);
    assert TrimStart(s) == s;
    assert SignFree(s) == d;
    DigitPrefixAllDigits(d);
    NatToStringRoundTrip(-i);
  }

  lemma {:induction false} DigitPrefixAllDigits(s: string)
    requires AllDigits(s)
    ensures DigitPrefix(s) == s
  {
    if |s| > 0 {
      DigitPrefixAllDigits(s[1..]);
    }
  }

  /**
   * `parseInt` skips leading whitespace, honours one sign, ignores leading zeros and
   * stops at the first non-digit: `parseInt(" +007abc")` is 7.
   */
  lemma ParseIntOfNumeral(ws: string, sign: string, zeros: string, n: nat, rest: string)
    requires IsBlank(ws)
    requires sign == "" || sign == "+" || sign == "-"
    requires forall i | 0 <= i < |zeros| :: zeros[i] == '0'
    requires |rest| == 0 || !IsDigit(rest[0])
    ensures ParseInt(ws + sign + zeros + NatToString(n) + rest) == Some(if sign == "-" then -(n as int) else n)
  {
    var d := zeros + NatToString(n);
    NumeralValue(zeros, n);
    Regroup(ws, sign, zeros, NatToString(n), rest);
    SignedNumeralStart(sign, d, rest);
    TrimStartBlank(ws, sign + (d + rest));
    DigitPrefixStops(d, rest);
    ParseIntParts(ws + sign + zeros + NatToString(n) + rest, sign, d, rest, n);
  }

  /** A numeral with leading zeros still denotes its number. */
  lemma NumeralValue(zeros: string, n: nat)
    requires forall i | 0 <= i < |zeros| :: zeros[i] == '0'
    ensures var d := zeros + NatToString(n); |d| > 0 && AllDigits(d) && DigitsValue(d) == n
  {
    LeadingZerosValue(zeros, NatToString(n));
    NatToStringRoundTrip(n);
  }

  lemma Regroup(a: string, b: string, c: string, d: string, e: string)
    ensures a + b + c + d + e == a + (b + ((c + d) + e))
  {
  }

  /** `parseInt` once the whitespace, the sign and the digit run are known. */
  lemma ParseIntParts(s: string, sign: string, d: string, rest: string, n: nat)
    requires sign == "" || sign == "+" || sign == "-"
    requires TrimStart(s) == sign + (d + rest)
    requires |d| > 0 && AllDigits(d) && DigitPrefix(d + rest) == d && DigitsValue(d) == n
    ensures ParseInt(s) == Some(if sign == "-" then -(n as int) else n)
  {
    SignedNumeralStart(sign, d, rest);
    var t := TrimStart(s);
    assert DigitPrefix(SignFree(t)) == d;
    assert (|t| > 0 && t[0] == '-') == (sign == "-");
  }

  /** A sign or a digit is not whitespace, and `SignFree` removes exactly the sign. */
  lemma SignedNumeralStart(sign: string, d: string, rest: string)
    requires sign == "" || sign == "+" || sign == "-"
    requires |d| > 0 && AllDigits(d)
    ensures var t := sign + (d + rest);
      !IsWhitespace(t[0]) && SignFree(t) == d + rest
      && (|t| > 0 && t[0] == '-' <==> sign == "-")
  {
    assert IsDigit(d[0]);
    var t := sign + (d + rest);
    if sign == "" {
      assert t == d + rest;
    } else {
      assert t[1..] == d + rest;
    }
  }

  /** Leading whitespace is exactly what `TrimStart` drops. */
  lemma {:induction false} TrimStartBlank(ws: string, t: string)
    requires IsBlank(ws)
    requires |t| == 0 || !IsWhitespace(t[0])
    ensures TrimStart(ws + t) == t
  {
    if |ws| > 0 {
      assert (ws + t)[1..] == ws[1..] + t;
      TrimStartBlank(ws[1..], t);
    } else {
      assert ws + t == t;
    }
  }

  /** The digit run ends where the first non-digit starts. */
  lemma {:induction false} DigitPrefixStops(d: string, rest: string)
    requires AllDigits(d)
    requires |rest| == 0 || !IsDigit(rest[0])
    ensures DigitPrefix(d + rest) == d
  {
    if |d| > 0 {
      assert (d + rest)[1..] == d[1..] + rest;
      DigitPrefixStops(d[1..], rest);
      assert d == [d[0]] + d[1..];
    } else {
      assert d + rest == rest;
    }
  }

  /** A leading zero does not change a numeral's value. */
  lemma {:induction false} LeadingZeroValue(d: string)
    requires AllDigits(d)
    ensures AllDigits("0" + d) && DigitsValue("0" + d) == DigitsValue(d)
  {
    if |d| > 0 {
      var z := "0" + d;
      assert z[..|z| - 1] == "0" + d[..|d| - 1];
      LeadingZeroValue(d[..|d| - 1]);
    }
  }

  lemma {:induction false} LeadingZerosValue(zeros: string, d: string)
    requires forall i | 0 <= i < |zeros| :: zeros[i] == '0'
    requires AllDigits(d)
    ensures AllDigits(zeros + d) && DigitsValue(zeros + d) == DigitsValue(d)
  {
    if |zeros| == 0 {
      assert zeros + d == d;
    } else {
      var tail := zeros[1..];
      LeadingZerosValue(tail, d);
      assert zeros + d == "0" + (tail + d);
      LeadingZeroValue(tail + d);
    }
  }
}
