/** Values and string functions shared by the client components and the API route:
    an optional value, JavaScript's `\s` character class, decimal text for numbers
    (`Number#toString`, `Number(...)`), ASCII lower-casing and substring search. */
module Common {

  datatype Option<T> = None | Some(value: T)

  /** The characters matched by the JavaScript regular-expression class `\s`. */
  predicate IsJsWhitespace(c: char) {
    || c == '\t' || c == '\n' || c == '\U{000B}' || c == '\U{000C}' || c == '\r' || c == ' '
    || c == '\U{00A0}' || c == '\U{1680}' || ('\U{2000}' <= c <= '\U{200A}')
    || c == '\U{2028}' || c == '\U{2029}' || c == '\U{202F}' || c == '\U{205F}'
    || c == '\U{3000}' || c == '\U{FEFF}'
  }

  predicate HasNoWhitespace(s: string) {
    forall i :: 0 <= i < |s| ==> !IsJsWhitespace(s[i])
  }

  /** `s.replace(/\s/g, '-')`: every whitespace character becomes a dash. */
  function ReplaceWhitespace(s: string): (r: string)
    ensures |r| == |s|
    ensures forall i :: 0 <= i < |s| ==> r[i] == (if IsJsWhitespace(s[i]) then '-' else s[i])
  {
    if s == [] then [] else [if IsJsWhitespace(s[0]) then '-' else s[0]] + ReplaceWhitespace(s[1..])
  }

  /** The replacement leaves no whitespace behind, keeps every other character in place,
      and changes nothing in a string that had no whitespace to begin with. */
  lemma ReplaceWhitespaceSanitizes(s: string)
    ensures HasNoWhitespace(ReplaceWhitespace(s))
    ensures HasNoWhitespace(s) ==> ReplaceWhitespace(s) == s
    ensures ReplaceWhitespace(ReplaceWhitespace(s)) == ReplaceWhitespace(s)
  {
    var r := ReplaceWhitespace(s);
    assert !IsJsWhitespace('-');
    forall i | 0 <= i < |r| ensures !IsJsWhitespace(r[i]) {
    }
  }

  lemma NoWhitespaceConcat(a: string, b: string)
    requires HasNoWhitespace(a) && HasNoWhitespace(b)
    ensures HasNoWhitespace(a + b)
  {
    forall i | 0 <= i < |a + b| ensures !IsJsWhitespace((a + b)[i]) {
      if i >= |a| {
        assert (a + b)[i] == b[i - |a|];
      }
    }
  }

  /** The POSIX path separator `/`, where `path.join` splits a path. No file system allows it
      inside a file name. */
  predicate IsSeparator(c: char) {
    c == '/'
  }

  predicate HasNoSeparator(s: string) {
    forall i :: 0 <= i < |s| ==> !IsSeparator(s[i])
  }

  lemma NoSeparatorConcat(a: string, b: string)
    requires HasNoSeparator(a) && HasNoSeparator(b)
    ensures HasNoSeparator(a + b)
  {
    forall i | 0 <= i < |a + b| ensures !IsSeparator((a + b)[i]) {
      if i >= |a| {
        assert (a + b)[i] == b[i - |a|];
      }
    }
  }

  /** `t` is a suffix of `s`. */
  predicate EndsWith(s: string, t: string) {
    |t| <= |s| && s[|s| - |t|..] == t
  }

  lemma EndsWithConcat(a: string, b: string, t: string)
    requires EndsWith(b, t)
    ensures EndsWith(a + b, t)
  {
    assert (a + b)[|a + b| - |t|..] == b[|b| - |t|..];
  }

  predicate IsDigit(c: char) {
    '0' <= c <= '9'
  }

  predicate AllDigits(s: string) {
    forall i :: 0 <= i < |s| ==> IsDigit(s[i])
  }

  function DigitChar(d: nat): (c: char)
    requires d < 10
  {
    (('0' as int) + d) as char
  }

  /** The decimal digits of a natural number, most significant first, without leading zeros. */
  function NatToDecimal(n: nat): (r: string)
    ensures |r| > 0 && AllDigits(r)
    ensures |r| > 1 ==> r[0] != '0'
  {
    if n < 10 then [DigitChar(n)] else NatToDecimal(n / 10) + [DigitChar(n % 10)]
  }

  /** The number a string of decimal digits denotes. */
  function DecimalValue(s: string): nat
    requires AllDigits(s)
  {
    if s == [] then 0 else 10 * DecimalValue(s[..|s| - 1]) + ((s[|s| - 1] as int) - ('0' as int))
  }

  lemma {:induction false} DecimalRoundTrip(n: nat)
    ensures DecimalValue(NatToDecimal(n)) == n
  {
    var r := NatToDecimal(n);
    if n >= 10 {
      DecimalRoundTrip(n / 10);
      assert r[..|r| - 1] == NatToDecimal(n / 10);
    }
  }

  /** `Number#toString()` on an integer. */
  function IntToString(i: int): string {
    if i < 0 then "-" + NatToDecimal(-i) else NatToDecimal(i)
  }

  /** `Number(s)` restricted to integer text: the empty string is 0, an optional minus sign
      followed by digits is that integer, anything else is NaN (None). */
  function JsNumber(s: string): Option<int> {
    if s == [] then Some(0)
    else if s[0] == '-' && |s| > 1 && AllDigits(s[1..]) then Some(-(DecimalValue(s[1..]) as int))
    else if AllDigits(s) then Some(DecimalValue(s))
    else None
  }

  /** The text `Number#toString()` produces is read back by `Number(...)` as the same integer. */
  lemma NumberOfToString(i: int)
    ensures JsNumber(IntToString(i)) == Some(i)
  {
    var s := IntToString(i);
    if i < 0 {
      assert s[1..] == NatToDecimal(-i);
      DecimalRoundTrip(-i);
    } else {
      DecimalRoundTrip(i);
    }
  }

  function LowerChar(c: char): char {
    if 'A' <= c <= 'Z' then ((c as int) + 32) as char else c
  }

  /** ASCII lower-casing, character by character. */
  function Lower(s: string): (r: string)
    ensures |r| == |s|
    ensures forall i :: 0 <= i < |s| ==> r[i] == LowerChar(s[i])
  {
    if s == [] then [] else [LowerChar(s[0])] + Lower(s[1..])
  }

  /** `p` occurs in `s` as a contiguous piece. */
  predicate IsSubstring(p: string, s: string) {
    exists i :: 0 <= i <= |s| - |p| && OccursAt(p, s, i)
  }

  predicate OccursAt(p: string, s: string, i: int) {
    0 <= i && i + |p| <= |s| && s[i..i + |p|] == p
  }

  /** Case-insensitive substring test used for SQL `ilike '%p%'` (ASCII letters only). */
  predicate ContainsIgnoringCase(s: string, p: string) {
    IsSubstring(Lower(p), Lower(s))
  }
}
