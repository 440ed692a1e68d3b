/** String helpers used by the screens and the Kotlin utilities: decimal
    digits and numerals, ASCII lower-casing, substring search, whitespace
    trimming (JavaScript's and Kotlin's whitespace sets) and literal
    replacement. Characters are Unicode scalar values. */
module Text {
  import opened Wrappers

  predicate IsDigit(c: char) {
    '0' <= c <= '9'
  }

  predicate AllDigits(s: string) {
    forall i :: 0 <= i < |s| ==> IsDigit(s[i])
  }

  function DigitValue(c: char): nat
    requires IsDigit(c)
  {
    (c as int) - ('0' as int)
  }

  /** The value of a string of decimal digits, most significant first ("" is 0). */
  function DigitsValue(s: string): nat
    requires AllDigits(s)
  {
    if s == [] then 0 else 10 * DigitsValue(s[..|s| - 1]) + DigitValue(s[|s| - 1])
  }

  /** The decimal numeral of a natural number, without leading zeros. */
  function NatToString(n: nat): (r: string)
    ensures |r| >= 1 && AllDigits(r)
    ensures |r| > 1 ==> r[0] != '0'
  {
    var d := ['0' + ((n % 10) as char)];
    if n < 10 then d else NatToString(n / 10) + d
  }

  lemma {:induction false} NatToStringValue(n: nat)
    ensures DigitsValue(NatToString(n)) == n
  {
    var r := NatToString(n);
    if n >= 10 {
      NatToStringValue(n / 10);
      assert r[..|r| - 1] == NatToString(n / 10);
    }
  }

  /** `n.toString()` for an integer: a minus sign for negatives, then the digits. */
  function IntToString(n: int): (r: string)
    ensures |r| >= 1
    ensures n >= 0 ==> AllDigits(r) && DigitsValue(r) == n
    ensures n < 0 ==> r[0] == '-' && AllDigits(r[1..]) && DigitsValue(r[1..]) == -n
  {
    if n < 0 then
      NatToStringValue(-n);
      assert ("-" + NatToString(-n))[1..] == NatToString(-n);
      "-" + NatToString(-n)
    else
      NatToStringValue(n);
      NatToString(n)
  }

  /** Lower-cases the ASCII letters `A`-`Z` and leaves every other character alone. */
  function LowerChar(c: char): (r: char)
    ensures 'A' <= c <= 'Z' ==> 'a' <= r <= 'z'
    ensures !('A' <= c <= 'Z') ==> r == c
  {
    if 'A' <= c <= 'Z' then (c as int + 32) as char else c
  }

  function ToLower(s: string): (r: string)
    ensures |r| == |s|
    ensures forall i :: 0 <= i < |s| ==> r[i] == LowerChar(s[i])
  {
    if s == [] then [] else [LowerChar(s[0])] + ToLower(s[1..])
  }

  lemma ToLowerIdempotent(s: string)
    ensures ToLower(ToLower(s)) == ToLower(s)
  {
  }

  /** Digits (and the minus sign) are unaffected by lower-casing. */
  lemma {:induction false} ToLowerNumeral(n: int)
    ensures ToLower(IntToString(n)) == IntToString(n)
  {
    var r := IntToString(n);
    forall i | 0 <= i < |r| ensures LowerChar(r[i]) == r[i] {
      if n < 0 && i > 0 {
        assert r[i] == r[1..][i - 1];
      }
    }
  }

  /** `s.includes(sub)`: `sub` occurs in `s` at some position. */
  predicate Contains(s: string, sub: string) {
    exists i :: 0 <= i <= |s| && sub <= s[i..]
  }

  /** The characters JavaScript's `String.prototype.trim` removes: white space and line terminators. */
  predicate IsJsWhitespace(c: char) {
    ('\t' <= c <= '\r') || c == ' ' || c == '\U{00A0}' || c == '\U{1680}'
    || ('\U{2000}' <= c <= '\U{200A}') || c == '\U{2028}' || c == '\U{2029}'
    || c == '\U{202F}' || c == '\U{205F}' || c == '\U{3000}' || c == '\U{FEFF}'
  }

  /** The characters Kotlin's `String.trim()` removes: those for which `Char.isWhitespace()` holds. */
  predicate IsKotlinWhitespace(c: char) {
    ('\t' <= c <= '\r') || ('\U{001C}' <= c <= '\U{001F}') || c == ' ' || c == '\U{00A0}'
    || c == '\U{1680}' || ('\U{2000}' <= c <= '\U{200A}') || c == '\U{2028}' || c == '\U{2029}'
    || c == '\U{202F}' || c == '\U{205F}' || c == '\U{3000}'
  }

  function DropLeading(s: string, ws: char -> bool): (r: string)
    ensures |r| <= |s| && r == s[|s| - |r|..]
    ensures forall i :: 0 <= i < |s| - |r| ==> ws(s[i])
    ensures r != [] ==> !ws(r[0])
  {
    if s != [] && ws(s[0]) then DropLeading(s[1..], ws) else s
  }

  function DropTrailing(s: string, ws: char -> bool): (r: string)
    ensures |r| <= |s| && r == s[..|r|]
    ensures forall i :: |r| <= i < |s| ==> ws(s[i])
    ensures r != [] ==> !ws(r[|r| - 1])
  {
    if s != [] && ws(s[|s| - 1]) then DropTrailing(s[..|s| - 1], ws) else s
  }

  /** Removes the leading and trailing characters that satisfy `ws`: what is left neither
      starts nor ends with such a character, and nothing is left exactly when every
      character satisfies `ws`. */
  function Trim(s: string, ws: char -> bool): (r: string)
    ensures |r| <= |s|
    ensures r != [] ==> !ws(r[0]) && !ws(r[|r| - 1])
    ensures r == [] <==> forall i :: 0 <= i < |s| ==> ws(s[i])
  {
    TrimEmpty(s, ws);
    DropTrailing(DropLeading(s, ws), ws)
  }

  lemma TrimEmpty(s: string, ws: char -> bool)
    ensures DropTrailing(DropLeading(s, ws), ws) == [] <==> forall i :: 0 <= i < |s| ==> ws(s[i])
  {
    var a := DropLeading(s, ws);
    var i := |s| - |a|;
    if DropTrailing(a, ws) == [] {
      forall k | 0 <= k < |s| ensures ws(s[k]) {
        if k >= i {
          assert s[k] == a[k - i];
        }
      }
    } else {
      assert !ws(a[0]) && s[i] == a[0];
    }
  }

  /** Trimming only removes characters. */
  lemma TrimKeeps(s: string, ws: char -> bool)
    ensures forall x :: x in Trim(s, ws) ==> x in s
  {
    var a := DropLeading(s, ws);
    var r := DropTrailing(a, ws);
    assert Trim(s, ws) == r;
    forall x | x in r ensures x in s {
      var k :| 0 <= k < |r| && r[k] == x;
      assert a[k] == x;
      assert s[|s| - |a| + k] == x;
    }
  }

  function JsTrim(s: string): string {
    Trim(s, IsJsWhitespace)
  }

  function KotlinTrim(s: string): string {
    Trim(s, IsKotlinWhitespace)
  }

  /** `s.replace(/c/g, '')` and `s.replace("c", "")` for a single character. */
  function DeleteChar(s: string, c: char): (r: string)
    ensures c !in r
    ensures |r| <= |s|
    ensures c !in s ==> r == s
  {
    if s == [] then [] else (if s[0] == c then [] else [s[0]]) + DeleteChar(s[1..], c)
  }

  lemma {:induction false} DeleteCharAppend(a: string, b: string, c: char)
    ensures DeleteChar(a + b, c) == DeleteChar(a, c) + DeleteChar(b, c)
  {
    if a == [] {
      assert a + b == b;
    } else {
      assert (a + b)[1..] == a[1..] + b;
      DeleteCharAppend(a[1..], b, c);
    }
  }

  /** Kotlin's `s.replace(pat, "")`: every non-overlapping occurrence of `pat`, found
      from left to right, is deleted. */
  function DeleteAll(s: string, pat: string): (r: string)
    requires |pat| > 0
    ensures |r| <= |s|
    decreases |s|
  {
    if |s| >= |pat| && s[..|pat|] == pat then DeleteAll(s[|pat|..], pat)
    else if s == [] then []
    else [s[0]] + DeleteAll(s[1..], pat)
  }

  /** JavaScript's `parseInt(s)` without a radix: leading white space is skipped, then an
      optional sign; "0x" or "0X" switches to base 16; the value is that of the longest run
      of digits of the base that follows, or `None` (NaN) when the run is empty. */
  function JsParseInt(s: string): (r: Option<int>)
  {
    var t := DropLeading(s, IsJsWhitespace);
    var negative := t != [] && t[0] == '-';
    var u := if t != [] && (t[0] == '-' || t[0] == '+') then t[1..] else t;
    var sign := if negative then -1 else 1;
    if |u| >= 2 && u[0] == '0' && (u[1] == 'x' || u[1] == 'X') then
      var h := LeadingHexDigits(u[2..]);
      if h == [] then None else Some(sign * HexValue(h))
    else
      var d := LeadingDigits(u);
      if d == [] then None else Some(sign * DigitsValue(d))
  }

  predicate IsHexDigit(c: char) {
    IsDigit(c) || ('a' <= c <= 'f') || ('A' <= c <= 'F')
  }

  function HexDigitValue(c: char): (v: nat)
    requires IsHexDigit(c)
    ensures v < 16
  {
    if IsDigit(c) then DigitValue(c)
    else if 'a' <= c <= 'f' then (c as int) - ('a' as int) + 10
    else (c as int) - ('A' as int) + 10
  }

  /** The value of a string of hexadecimal digits, most significant first. */
  function HexValue(s: string): nat
    requires forall i :: 0 <= i < |s| ==> IsHexDigit(s[i])
  {
    if s == [] then 0 else 16 * HexValue(s[..|s| - 1]) + HexDigitValue(s[|s| - 1])
  }

  function LeadingHexDigits(s: string): (r: string)
    ensures |r| <= |s| && r == s[..|r|]
    ensures forall i :: 0 <= i < |r| ==> IsHexDigit(r[i])
  {
    if s != [] && IsHexDigit(s[0]) then [s[0]] + LeadingHexDigits(s[1..]) else []
  }

  /** A non-empty string of decimal digits parses to its value. */
  lemma ParseIntOfDigits(s: string)
    requires s != [] && AllDigits(s)
    ensures JsParseInt(s) == Some(DigitsValue(s))
  {
    assert DropLeading(s, IsJsWhitespace) == s by {
      assert !IsJsWhitespace(s[0]);
    }
    assert IsDigit(s[0]) && s[0] != '-' && s[0] != '+';
    assert !(|s| >= 2 && s[0] == '0' && (s[1] == 'x' || s[1] == 'X')) by {
      if |s| >= 2 {
        assert IsDigit(s[1]);
      }
    }
    assert LeadingDigits(s) == s by {
      LeadingDigitsOfDigits(s);
    }
  }

  /** `parseInt` reads back every decimal numeral `toString` writes. */
  lemma ParseIntOfNumeral(n: nat)
    ensures JsParseInt(NatToString(n)) == Some(n)
  {
    ParseIntOfDigits(NatToString(n));
    NatToStringValue(n);
  }

  /** A string with no decimal digit at all, and no "0x" start, is NaN. */
  lemma ParseIntNoDigits(s: string)
    requires forall i :: 0 <= i < |s| ==> !IsDigit(s[i])
    ensures JsParseInt(s) == None
  {
    var t := DropLeading(s, IsJsWhitespace);
    var u := if t != [] && (t[0] == '-' || t[0] == '+') then t[1..] else t;
    assert t == s[|s| - |t|..];
    assert u != [] ==> u[0] == s[|s| - |u|];
  }

  /** The longest prefix of `s` made of decimal digits. */
  function LeadingDigits(s: string): (r: string)
    ensures |r| <= |s| && AllDigits(r) && r == s[..|r|]
    ensures |r| < |s| ==> !IsDigit(s[|r|])
  {
    if s != [] && IsDigit(s[0]) then [s[0]] + LeadingDigits(s[1..]) else []
  }

  lemma {:induction false} LeadingDigitsOfDigits(s: string)
    requires AllDigits(s)
    ensures LeadingDigits(s) == s
  {
    if s != [] {
      LeadingDigitsOfDigits(s[1..]);
    }
  }
}
