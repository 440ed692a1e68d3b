/** The currency helpers of the Android app: `parseCurrency` strips the rupiah symbol and
    every `.` and `,`, trims, and reads what is left as a number, giving 0 when that fails;
    `formatCurrencyWithoutSymbol` strips the symbol from a formatted amount. Amounts are
    whole rupiah. */
module CurrencyUtils {
  import opened Wrappers
  import opened Seqs
  import opened Text

  /** `currencyString.replace("Rp", "").replace(".", "").replace(",", "").trim()`. */
  function CleanCurrency(s: string): (r: string)
    ensures '.' !in r && ',' !in r
    ensures r != [] ==> !IsKotlinWhitespace(r[0]) && !IsKotlinWhitespace(r[|r| - 1])
  {
    var stripped := DeleteChar(DeleteChar(DeleteAll(s, "Rp"), '.'), ',');
    DeleteCharKeeps(DeleteChar(DeleteAll(s, "Rp"), '.'), ',');
    TrimKeeps(stripped, IsKotlinWhitespace);
    KotlinTrim(stripped)
  }

  /** Deleting a character only removes characters. */
  lemma {:induction false} DeleteCharKeeps(s: string, c: char)
    ensures forall x :: x in DeleteChar(s, c) ==> x in s
  {
    if s != [] {
      DeleteCharKeeps(s[1..], c);
      assert s == [s[0]] + s[1..];
    }
  }

  /** The characters `java.lang.String.trim()` removes, which `toDouble` skips at both ends. */
  predicate IsJavaSpace(c: char) {
    c <= ' '
  }

  /** An optional sign followed by at least one decimal digit. */
  predicate SignedDigits(t: string) {
    t != [] &&
    if t[0] == '+' || t[0] == '-' then |t| > 1 && AllDigits(t[1..]) else AllDigits(t)
  }

  function SignedValue(t: string): int
    requires SignedDigits(t)
  {
    if t[0] == '-' then 0 - DigitsValue(t[1..]) as int
    else if t[0] == '+' then DigitsValue(t[1..])
    else DigitsValue(t)
  }

  /** Text in which `toDouble` finds no number at all: no digit, and neither `NaN` nor
      `Infinity`. */
  predicate NoNumber(t: string) {
    (forall i :: 0 <= i < |t| ==> !IsDigit(t[i])) && !Contains(t, "NaN") && !Contains(t, "Infinity")
  }

  /** The inputs on which the model of `toDouble` is exact: a signed integer numeral once
      trimmed, or text without any number. */
  predicate Modelled(t: string) {
    SignedDigits(Trim(t, IsJavaSpace)) || NoNumber(t)
  }

  /** `String.toDouble()` on the modelled inputs: `None` is a `NumberFormatException`. */
  function ToDouble(t: string): (r: Option<int>)
    requires Modelled(t)
    ensures r.None? <==> NoNumber(t)
    ensures var u := Trim(t, IsJavaSpace);
            (u != [] && AllDigits(u) ==> r == Some(DigitsValue(u) as int)) &&
            (|u| > 1 && u[0] == '-' && AllDigits(u[1..]) ==> r == Some(0 - DigitsValue(u[1..]))) &&
            (|u| > 1 && u[0] == '+' && AllDigits(u[1..]) ==> r == Some(DigitsValue(u[1..]) as int))
  {
    var u := Trim(t, IsJavaSpace);
    if SignedDigits(u) then
      assert !NoNumber(t) by {
        TrimKeeps(t, IsJavaSpace);
        var k := if u[0] == '+' || u[0] == '-' then 1 else 0;
        assert IsDigit(u[k]) && u[k] in t;
      }
      Some(SignedValue(u))
    else
      None
  }

  /** A plain numeral reads as its value. */
  lemma ToDoubleOfDigits(c: string)
    requires c != [] && AllDigits(c)
    ensures Modelled(c) && ToDouble(c) == Some(DigitsValue(c) as int)
  {
    assert Trim(c, IsJavaSpace) == c by {
      DigitsTrimmed(c);
    }
    assert IsDigit(c[0]);
    assert SignedDigits(c);
  }

  /** `t.toDouble()` inside `try`, with 0 when it throws `NumberFormatException`. */
  function ToDoubleOrZero(t: string): (r: int)
    requires Modelled(t)
    ensures t != [] && AllDigits(t) ==> r == DigitsValue(t)
    ensures var u := Trim(t, IsJavaSpace);
            (u != [] && AllDigits(u) ==> r == DigitsValue(u)) &&
            (|u| > 1 && u[0] == '-' && AllDigits(u[1..]) ==> r == 0 - DigitsValue(u[1..])) &&
            (|u| > 1 && u[0] == '+' && AllDigits(u[1..]) ==> r == DigitsValue(u[1..]))
    ensures NoNumber(t) ==> r == 0
  {
    assert t != [] && AllDigits(t) ==> ToDouble(t) == Some(DigitsValue(t) as int) by {
      if t != [] && AllDigits(t) {
        ToDoubleOfDigits(t);
      }
    }
    match ToDouble(t)
    case Some(v) => v
    case None => 0
  }

  /** `parseCurrency`: the cleaned text as a number, or 0 when it is not one. */
  function ParseCurrency(currencyString: string): (r: int)
    requires Modelled(CleanCurrency(currencyString))
    ensures var c := CleanCurrency(currencyString);
            (c != [] && AllDigits(c) ==> r == DigitsValue(c)) &&
            (|c| > 1 && c[0] == '-' && AllDigits(c[1..]) ==> r == 0 - DigitsValue(c[1..])) &&
            (|c| > 1 && c[0] == '+' && AllDigits(c[1..]) ==> r == DigitsValue(c[1..])) &&
            (NoNumber(c) ==> r == 0)
    ensures var u := Trim(CleanCurrency(currencyString), IsJavaSpace);
            (u != [] && AllDigits(u) ==> r == DigitsValue(u)) &&
            (|u| > 1 && u[0] == '-' && AllDigits(u[1..]) ==> r == 0 - DigitsValue(u[1..])) &&
            (|u| > 1 && u[0] == '+' && AllDigits(u[1..]) ==> r == DigitsValue(u[1..]))
  {
    var c := CleanCurrency(currencyString);
    assert |c| > 1 && (c[0] == '-' || c[0] == '+') && AllDigits(c[1..]) ==> Trim(c, IsJavaSpace) == c by {
      if |c| > 1 && (c[0] == '-' || c[0] == '+') && AllDigits(c[1..]) {
        assert IsDigit(c[1..][|c| - 2]);
        TrimEnds(c, IsJavaSpace);
      }
    }
    ToDoubleOrZero(c)
  }

  /** `formatCurrencyWithoutSymbol`: the text `formatted` that `formatCurrency(amount)`
      produced, with every "Rp" deleted and then trimmed. */
  function FormatCurrencyWithoutSymbol(formatted: string): (r: string)
    ensures r != [] ==> !IsKotlinWhitespace(r[0]) && !IsKotlinWhitespace(r[|r| - 1])
  {
    KotlinTrim(DeleteAll(formatted, "Rp"))
  }

  // ----- lemmas about amounts written with separators

  /** The ways a formatted amount can begin: no symbol, or the symbol alone, or the symbol
      followed by a space or a no-break space. */
  predicate IsPrefix(symbol: string) {
    symbol == "" || symbol == "Rp" || symbol == "Rp " || symbol == "Rp\U{00A0}"
  }

  /** Decimal digits with `.` and `,` separators. */
  predicate IsSeparatedNumber(body: string) {
    forall i :: 0 <= i < |body| ==> IsDigit(body[i]) || body[i] == '.' || body[i] == ','
  }

  /** What the prefix leaves once "Rp" is deleted: nothing, or one white space character. */
  function SpaceOf(symbol: string): (w: string)
    requires IsPrefix(symbol)
    ensures |w| <= 1 && (w != [] ==> IsKotlinWhitespace(w[0]))
    ensures '.' !in w && ',' !in w && 'R' !in w
  {
    if |symbol| <= 2 then "" else symbol[2..]
  }

  /** A string whose ends do not satisfy `ws` is its own trim. */
  lemma TrimEnds(s: string, ws: char -> bool)
    requires s != [] ==> !ws(s[0]) && !ws(s[|s| - 1])
    ensures Trim(s, ws) == s
  {
    if s != [] {
      assert DropLeading(s, ws) == s;
      assert DropTrailing(s, ws) == s;
    }
  }

  /** One leading character that satisfies `ws` is dropped. */
  lemma DropAfterSpace(w: string, d: string, ws: char -> bool)
    requires |w| <= 1 && (w != [] ==> ws(w[0]))
    ensures DropLeading(w + d, ws) == DropLeading(d, ws)
  {
    var s := w + d;
    if w == [] {
      assert s == d;
    } else {
      assert s[1..] == d && ws(s[0]);
    }
  }

  /** Strings that agree once their leading characters are dropped have the same trim. */
  lemma TrimOfSameDrop(s: string, d: string, ws: char -> bool)
    requires DropLeading(s, ws) == DropLeading(d, ws)
    ensures Trim(s, ws) == Trim(d, ws)
  {
  }

  /** One leading character that satisfies `ws` is trimmed away. */
  lemma TrimAfterSpace(w: string, d: string, ws: char -> bool)
    requires |w| <= 1 && (w != [] ==> ws(w[0]))
    requires d != [] ==> !ws(d[0]) && !ws(d[|d| - 1])
    ensures Trim(w + d, ws) == d
  {
    assert Trim(d, ws) == d by {
      TrimEnds(d, ws);
    }
    assert Trim(w + d, ws) == Trim(d, ws) by {
      DropAfterSpace(w, d, ws);
      TrimOfSameDrop(w + d, d, ws);
    }
  }

  /** A digit is white space for neither `trim`. */
  lemma DigitNotSpace(c: char)
    requires IsDigit(c)
    ensures !IsKotlinWhitespace(c) && !IsJavaSpace(c)
  {
  }

  /** A plain digit string is its own trim for both white space sets. */
  lemma DigitsTrimmed(d: string)
    requires AllDigits(d)
    ensures Trim(d, IsKotlinWhitespace) == d && Trim(d, IsJavaSpace) == d
  {
    if d != [] {
      DigitNotSpace(d[0]);
      DigitNotSpace(d[|d| - 1]);
    }
    TrimEnds(d, IsKotlinWhitespace);
    TrimEnds(d, IsJavaSpace);
  }

  /** `replace(pat, "")` leaves a string alone that does not contain the first character of `pat`. */
  lemma {:induction false} DeleteAllAbsent(s: string, pat: string)
    requires |pat| > 0 && pat[0] !in s
    ensures DeleteAll(s, pat) == s
    decreases |s|
  {
    if s != [] {
      if |s| >= |pat| {
        assert s[..|pat|][0] == s[0];
      }
      DeleteAllAbsent(s[1..], pat);
      assert s == [s[0]] + s[1..];
    }
  }

  /** Deleting "Rp" from a prefixed amount leaves the space after the symbol and the number. */
  lemma StripSymbol(symbol: string, body: string)
    requires IsPrefix(symbol) && IsSeparatedNumber(body)
    ensures DeleteAll(symbol + body, "Rp") == SpaceOf(symbol) + body
  {
    var w := SpaceOf(symbol);
    var s := symbol + body;
    assert 'R' !in body by {
      assert forall i :: 0 <= i < |body| ==> body[i] != 'R';
    }
    assert 'R' !in w + body by {
      forall i | 0 <= i < |w + body| ensures (w + body)[i] != 'R' {
        if i < |w| {
          assert (w + body)[i] == w[i];
        } else {
          assert (w + body)[i] == body[i - |w|];
        }
      }
    }
    if symbol != "" {
      assert s[..2] == "Rp" && s[2..] == w + body;
    }
    DeleteAllAbsent(w + body, "Rp");
  }

  /** Digits interspersed with `.` and `,` lose the separators and keep the digits in order. */
  lemma {:induction false} StripSeparators(body: string)
    requires IsSeparatedNumber(body)
    ensures DeleteChar(DeleteChar(body, '.'), ',') == Filter(body, IsDigit)
  {
    if body != [] {
      assert IsSeparatedNumber(body[1..]) by {
        assert forall i :: 0 <= i < |body[1..]| ==> body[1..][i] == body[i + 1];
      }
      StripSeparators(body[1..]);
      var head := if body[0] == '.' then [] else [body[0]];
      assert DeleteChar(body, '.') == head + DeleteChar(body[1..], '.');
      DeleteCharAppend(head, DeleteChar(body[1..], '.'), ',');
    }
  }

  /** What cleaning leaves of a prefixed amount: its digits, in order. */
  lemma CleanSeparated(symbol: string, body: string)
    requires IsPrefix(symbol) && IsSeparatedNumber(body)
    ensures AllDigits(Filter(body, IsDigit))
    ensures CleanCurrency(symbol + body) == Filter(body, IsDigit)
  {
    var w := SpaceOf(symbol);
    var d := Filter(body, IsDigit);
    StripSymbol(symbol, body);
    assert DeleteChar(DeleteChar(w + body, '.'), ',') == w + d by {
      DeleteCharAppend(w, body, '.');
      DeleteCharAppend(w, DeleteChar(body, '.'), ',');
      StripSeparators(body);
    }
    assert KotlinTrim(w + d) == d by {
      if d != [] {
        DigitNotSpace(d[0]);
        DigitNotSpace(d[|d| - 1]);
      }
      TrimAfterSpace(w, d, IsKotlinWhitespace);
    }
  }

  /** A prefixed amount written with `.` and `,` separators parses to the value of its
      digits: the separators are deleted, not read as a decimal point, and an amount with no
      digit at all gives 0. */
  lemma ParseSeparatedAmount(symbol: string, body: string)
    requires IsPrefix(symbol) && IsSeparatedNumber(body)
    ensures Modelled(CleanCurrency(symbol + body))
    ensures AllDigits(Filter(body, IsDigit))
    ensures ParseCurrency(symbol + body) == DigitsValue(Filter(body, IsDigit))
  {
    assert CleanCurrency(symbol + body) == Filter(body, IsDigit) && AllDigits(Filter(body, IsDigit)) by {
      CleanSeparated(symbol, body);
    }
    ParseDigits(symbol + body);
  }

  /** Text that cleans to plain digits, none at all included, parses to their value. */
  lemma ParseDigits(s: string)
    requires AllDigits(CleanCurrency(s))
    ensures Modelled(CleanCurrency(s))
    ensures ParseCurrency(s) == DigitsValue(CleanCurrency(s))
  {
    var c := CleanCurrency(s);
    if c == [] {
      assert !Contains(c, "NaN") && !Contains(c, "Infinity");
      assert NoNumber(c);
    } else {
      assert Trim(c, IsJavaSpace) == c by {
        DigitsTrimmed(c);
      }
      assert IsDigit(c[0]);
      assert SignedDigits(c);
    }
  }

  /** Stripping the symbol from an amount formatted as the symbol, an optional space and a
      grouped number gives the grouped number. */
  lemma WithoutSymbolOfFormatted(symbol: string, body: string)
    requires IsPrefix(symbol) && IsSeparatedNumber(body)
    requires body != [] ==> IsDigit(body[0]) && IsDigit(body[|body| - 1])
    ensures FormatCurrencyWithoutSymbol(symbol + body) == body
  {
    StripSymbol(symbol, body);
    if body != [] {
      DigitNotSpace(body[0]);
      DigitNotSpace(body[|body| - 1]);
    }
    TrimAfterSpace(SpaceOf(symbol), body, IsKotlinWhitespace);
  }

  /** Parsing the amount with or without its symbol gives the same value. */
  lemma ParseIgnoresSymbol(symbol: string, body: string)
    requires IsPrefix(symbol) && IsSeparatedNumber(body)
    requires body != [] ==> IsDigit(body[0]) && IsDigit(body[|body| - 1])
    ensures Modelled(CleanCurrency(FormatCurrencyWithoutSymbol(symbol + body)))
    ensures Modelled(CleanCurrency(symbol + body))
    ensures ParseCurrency(FormatCurrencyWithoutSymbol(symbol + body)) == ParseCurrency(symbol + body)
  {
    WithoutSymbolOfFormatted(symbol, body);
    assert "" + body == body;
    ParseSeparatedAmount("", body);
    ParseSeparatedAmount(symbol, body);
  }

  // ----- worked cases

  /** `DigitsValue` of a numeral from the values `vs` of its prefixes, one digit at a time. */
  lemma {:induction false} DigitsValueSteps(d: string, vs: seq<int>)
    requires AllDigits(d) && |vs| == |d| > 0
    requires vs[0] == DigitValue(d[0])
    requires forall k :: 0 < k < |d| ==> vs[k] == 10 * vs[k - 1] + DigitValue(d[k])
    ensures DigitsValue(d) == vs[|d| - 1]
  {
    if |d| > 1 {
      var p := d[..|d| - 1];
      assert forall k :: 0 <= k < |p| ==> p[k] == d[k];
      DigitsValueSteps(p, vs[..|d| - 1]);
    } else {
      assert d[..0] == [];
    }
  }

  /** A separator followed by a group of digits keeps the group. */
  lemma GroupDigits(sep: char, g: string)
    requires !IsDigit(sep) && AllDigits(g)
    ensures Filter([sep] + g, IsDigit) == g
  {
    FilterAppend([sep], g, IsDigit);
    FilterAll(g, IsDigit);
    assert Filter([sep], IsDigit) == [];
  }

  /** Three digit groups with a separator between each pair keep just their digits. */
  lemma GroupedDigits(a: string, b: string, c: string, x: char, y: char)
    requires AllDigits(a) && AllDigits(b) && AllDigits(c) && !IsDigit(x) && !IsDigit(y)
    ensures Filter(a + ([x] + b) + ([y] + c), IsDigit) == a + b + c
  {
    var xb, yc := [x] + b, [y] + c;
    assert Filter(a + xb + yc, IsDigit) == Filter(a + xb, IsDigit) + Filter(yc, IsDigit) by {
      FilterAppend(a + xb, yc, IsDigit);
    }
    assert Filter(a + xb, IsDigit) == Filter(a, IsDigit) + Filter(xb, IsDigit) by {
      FilterAppend(a, xb, IsDigit);
    }
    assert Filter(a, IsDigit) == a by {
      FilterAll(a, IsDigit);
    }
    assert Filter(xb, IsDigit) == b by {
      GroupDigits(x, b);
    }
    assert Filter(yc, IsDigit) == c by {
      GroupDigits(y, c);
    }
  }

  lemma MillionValue()
    ensures AllDigits("1500000") && DigitsValue("1500000") == 1500000
  {
    DigitsValueSteps("1500000", [1, 15, 150, 1500, 15000, 150000, 1500000]);
  }

  /** Worked case: the symbol, the space and the thousands dots go. */
  lemma ParseMillionExample()
    ensures Modelled(CleanCurrency("Rp 1.500.000")) && ParseCurrency("Rp 1.500.000") == 1500000
  {
    var body := "1" + (['.'] + "500") + (['.'] + "000");
    assert "Rp 1.500.000" == "Rp " + body;
    assert Filter(body, IsDigit) == "1500000" by {
      GroupedDigits("1", "500", "000", '.', '.');
      assert "1" + "500" + "000" == "1500000";
    }
    assert IsSeparatedNumber(body) by {
      assert body == "1.500.000";
    }
    ParseSeparatedAmount("Rp ", body);
    MillionValue();
  }

  lemma CommaValue()
    ensures AllDigits("123456") && DigitsValue("123456") == 123456
  {
    DigitsValueSteps("123456", [1, 12, 123, 1234, 12345, 123456]);
  }

  /** Worked case: a decimal comma is deleted rather than read, so the cents become digits. */
  lemma ParseCommaExample()
    ensures Modelled(CleanCurrency("1.234,56")) && ParseCurrency("1.234,56") == 123456
  {
    var body := "1" + (['.'] + "234") + ([','] + "56");
    assert "1.234,56" == "" + body;
    assert Filter(body, IsDigit) == "123456" by {
      GroupedDigits("1", "234", "56", '.', ',');
      assert "1" + "234" + "56" == "123456";
    }
    assert IsSeparatedNumber(body) by {
      assert body == "1.234,56";
    }
    ParseSeparatedAmount("", body);
    CommaValue();
  }

  /** Worked case: text without a number, the empty text included, gives 0. */
  lemma ParseEmptyExample()
    ensures Modelled(CleanCurrency("")) && ParseCurrency("") == 0
    ensures Modelled(CleanCurrency("Rp")) && ParseCurrency("Rp") == 0
  {
    assert "" + "" == "";
    ParseSeparatedAmount("", "");
    assert "Rp" + "" == "Rp";
    ParseSeparatedAmount("Rp", "");
  }
}
