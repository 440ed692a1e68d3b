/** The add-transaction form: the amount field's digit grouping (`formatCurrency`),
    the validation and the record built by `handleSave`, and the reset of the chosen
    category when the transaction type changes. */
module AddTransactionScreen {
  import opened Wrappers
  import opened Seqs
  import opened Text
  import opened Finance
  import Calendar

  // ----- the amount field

  /** `number.replace(/\B(?=(\d{3})+(?!\d))/g, '.')` on a string of digits: a dot goes in
      front of every digit that is not the first one and is followed by a multiple of
      three digits (its own included). `first` says whether `d` starts the string. */
  function InsertDots(d: string, first: bool): string {
    if d == [] then []
    else (if !first && |d| % 3 == 0 then "." else "") + [d[0]] + InsertDots(d[1..], false)
  }

  /** `formatCurrency(value)`: keep the ASCII digits, then group them in threes from the right. */
  function FormatCurrency(value: string): string {
    InsertDots(Filter(value, IsDigit), true)
  }

  /** Reference definition of the grouping: the last three digits form a group, the
      rest is grouped the same way. */
  function Group(d: string): string {
    if |d| <= 3 then d else Group(d[..|d| - 3]) + ("." + d[|d| - 3..])
  }

  /** Dots sit exactly at the positions `|r| - i` that are multiples of 4, and every
      other character is a digit. With `|r| % 4 != 0` this means: a first group of one
      to three digits, then groups of exactly three, and no dot at either end. */
  predicate WellGrouped(r: string) {
    |r| % 4 != 0
    && forall i :: 0 <= i < |r| ==> (r[i] == '.' <==> (|r| - i) % 4 == 0) && (r[i] != '.' ==> IsDigit(r[i]))
  }

  lemma {:induction false} InsertDotsAppend(a: string, b: string, first: bool)
    requires |b| % 3 == 0
    ensures InsertDots(a + b, first) == InsertDots(a, first) + InsertDots(b, a == [] && first)
  {
    if a != [] {
      assert (a + b)[1..] == a[1..] + b;
      assert (a + b)[0] == a[0];
      InsertDotsAppend(a[1..], b, false);
    } else {
      assert a + b == b;
    }
  }

  lemma {:induction false} InsertDotsShort(d: string, first: bool)
    requires |d| < 3 || (|d| == 3 && first)
    ensures InsertDots(d, first) == d
  {
    if d != [] {
      InsertDotsShort(d[1..], false);
    }
  }

  /** The regular expression groups exactly as the reference definition does. */
  lemma {:induction false} InsertDotsIsGroup(d: string)
    ensures InsertDots(d, true) == Group(d)
    decreases |d|
  {
    if |d| <= 3 {
      InsertDotsShort(d, true);
    } else {
      var a, b := d[..|d| - 3], d[|d| - 3..];
      assert d == a + b;
      InsertDotsAppend(a, b, true);
      InsertDotsIsGroup(a);
      assert b[1..] == b[1..];
      InsertDotsShort(b[1..], false);
      assert InsertDots(b, false) == "." + [b[0]] + b[1..];
      assert [b[0]] + b[1..] == b;
    }
  }

  lemma {:induction false} GroupWellGrouped(d: string)
    requires d != [] && AllDigits(d)
    ensures WellGrouped(Group(d))
    decreases |d|
  {
    if |d| > 3 {
      var a, b := d[..|d| - 3], d[|d| - 3..];
      GroupSplit(d);
      assert AllDigits(a) && AllDigits(b) by {
        assert forall i :: 0 <= i < |a| ==> a[i] == d[i];
        assert forall i :: 0 <= i < |b| ==> b[i] == d[|d| - 3 + i];
      }
      GroupWellGrouped(a);
      WellGroupedSnoc(Group(a), b);
    }
  }

  /** A well-grouped string followed by a dot and three digits is well grouped. */
  lemma WellGroupedSnoc(g: string, b: string)
    requires WellGrouped(g) && |b| == 3 && AllDigits(b)
    ensures WellGrouped(g + ("." + b))
  {
    var r := g + ("." + b);
    forall i | 0 <= i < |r|
      ensures (r[i] == '.' <==> (|r| - i) % 4 == 0) && (r[i] != '.' ==> IsDigit(r[i]))
    {
      if i < |g| {
        assert r[i] == g[i];
        assert |r| - i == (|g| - i) + 4;
      } else if i == |g| {
        assert r[i] == '.';
      } else {
        assert r[i] == b[i - |g| - 1];
      }
    }
  }

  lemma NoDotInDigits(d: string)
    requires AllDigits(d)
    ensures '.' !in d
  {
    forall i | 0 <= i < |d| ensures d[i] != '.' {
      assert IsDigit(d[i]);
    }
  }

  lemma GroupSplit(d: string)
    requires |d| > 3
    ensures Group(d) == Group(d[..|d| - 3]) + ("." + d[|d| - 3..])
    ensures d == d[..|d| - 3] + d[|d| - 3..]
  {
    assert d == d[..|d| - 3] + d[|d| - 3..];
  }

  lemma DottedGroup(b: string)
    requires AllDigits(b)
    ensures DeleteChar("." + b, '.') == b
    ensures Filter("." + b, IsDigit) == b
  {
    NoDotInDigits(b);
    assert ("." + b)[1..] == b;
    FilterAll(b, IsDigit);
  }

  /** Deleting the dots of the grouping gives back the digits. */
  lemma {:induction false} GroupDeleteDots(d: string)
    requires AllDigits(d)
    ensures DeleteChar(Group(d), '.') == d
    decreases |d|
  {
    if |d| <= 3 {
      NoDotInDigits(d);
    } else {
      var a, b := d[..|d| - 3], d[|d| - 3..];
      GroupSplit(d);
      GroupDeleteDots(a);
      DeleteCharAppend(Group(a), "." + b, '.');
      DottedGroup(b);
    }
  }

  /** Keeping the digits of the grouping gives back the digits. */
  lemma {:induction false} GroupKeepDigits(d: string)
    requires AllDigits(d)
    ensures Filter(Group(d), IsDigit) == d
    decreases |d|
  {
    if |d| <= 3 {
      FilterAll(d, IsDigit);
    } else {
      var a, b := d[..|d| - 3], d[|d| - 3..];
      GroupSplit(d);
      GroupKeepDigits(a);
      FilterAppend(Group(a), "." + b, IsDigit);
      DottedGroup(b);
    }
  }

  /** What `formatCurrency` promises: only digits and dots; deleting the dots gives the
      digits of the input in order; the digits are grouped in threes from the right with
      a first group of one to three; formatting twice is formatting once. */
  lemma FormatCurrencyCorrect(value: string)
    ensures var r := FormatCurrency(value);
      (forall i :: 0 <= i < |r| ==> IsDigit(r[i]) || r[i] == '.')
      && DeleteChar(r, '.') == Filter(value, IsDigit)
      && (Filter(value, IsDigit) != [] ==> WellGrouped(r))
      && (Filter(value, IsDigit) == [] ==> r == [])
      && FormatCurrency(r) == r
  {
    var d := Filter(value, IsDigit);
    InsertDotsIsGroup(d);
    GroupDeleteDots(d);
    GroupKeepDigits(d);
    var r := Group(d);
    if d != [] {
      GroupWellGrouped(d);
    }
    InsertDotsIsGroup(Filter(r, IsDigit));
  }

  /** Examples of the grouping: a million and a half, and a string with other characters. */
  lemma FormatMillionExample()
    ensures FormatCurrency("1500000") == "1.500.000"
  {
    var d := "1500000";
    assert FormatCurrency(d) == Group(d) by {
      assert AllDigits(d);
      FilterAll(d, IsDigit);
      InsertDotsIsGroup(d);
    }
    assert Group(d) == Group("1500") + ("." + "000") by {
      GroupSplit(d);
      assert d[..4] == "1500" && d[4..] == "000";
    }
    assert Group("1500") == "1" + ("." + "500") by {
      GroupSplit("1500");
      assert "1500"[..1] == "1" && "1500"[1..] == "500";
    }
    assert "1" + ("." + "500") + ("." + "000") == "1.500.000";
  }

  lemma FormatMixedExample()
    ensures FormatCurrency("Rp 12,5") == "125"
  {
    var a, b := "Rp " + "12", [','] + "5";
    assert "Rp 12,5" == a + b;
    assert Filter(a, IsDigit) == "12" by {
      FilterAppend("Rp ", "12", IsDigit);
      FilterNone("Rp ", IsDigit);
      FilterAll("12", IsDigit);
    }
    assert Filter(b, IsDigit) == "5" by {
      FilterAppend([','], "5", IsDigit);
      FilterAll("5", IsDigit);
      assert Filter([','], IsDigit) == [];
    }
    assert Filter(a + b, IsDigit) == "125" by {
      FilterAppend(a, b, IsDigit);
      assert "12" + "5" == "125";
    }
    InsertDotsIsGroup("125");
  }

  // ----- saving

  const InvalidAmount: string := "Masukkan jumlah yang valid"
  const NoCategory: string := "Pilih kategori"

  /** What `handleSave` does: show an error alert, or pass a record to `addTransaction`. */
  datatype SaveOutcome = Alert(message: string) | Add(input: TransactionInput)

  /** `handleSave()` for the form state: `kind` is the selected type, `amount` the amount
      field (always `formatCurrency` output, so digits and dots), `date` the picked moment. */
  function HandleSave(kind: string, amount: string, description: string, date: Calendar.Date,
                      selectedCategory: Option<Category>): (r: SaveOutcome)
    requires AllDigits(DeleteChar(amount, '.'))
    ensures var clean := DeleteChar(amount, '.');
      (r == Alert(InvalidAmount) <==> clean == [] || DigitsValue(clean) == 0)
      && (r == Alert(NoCategory) <==> clean != [] && DigitsValue(clean) > 0 && selectedCategory.None?)
      && (r.Add? <==> clean != [] && DigitsValue(clean) > 0 && selectedCategory.Some?)
    ensures r.Add? ==>
      r.input.kind == kind && r.input.amount == DigitsValue(DeleteChar(amount, '.')) && r.input.amount > 0
      && r.input.categoryId == selectedCategory.value.id && r.input.description == JsTrim(description)
      && r.input.date == date
  {
    var cleanAmount := DeleteChar(amount, '.');
    if cleanAmount == [] || DigitsValue(cleanAmount) <= 0 then Alert(InvalidAmount)
    else if selectedCategory.None? then Alert(NoCategory)
    else Add(TransactionInput(kind, DigitsValue(cleanAmount), selectedCategory.value.id,
                              JsTrim(description), date))
  }

  /** Whatever the user typed, once formatted, the field meets the requirement of `HandleSave`. */
  lemma FormattedAmountIsClean(text: string)
    ensures AllDigits(DeleteChar(FormatCurrency(text), '.'))
  {
    FormatCurrencyCorrect(text);
    var d := Filter(text, IsDigit);
    assert forall i :: 0 <= i < |d| ==> IsDigit(d[i]);
  }

  /** "0" and "0.000" are rejected as amounts, whatever else the form holds. */
  lemma ZeroAmountsRejected(kind: string, description: string, date: Calendar.Date, c: Option<Category>)
    ensures HandleSave(kind, "0", description, date, c) == Alert(InvalidAmount)
    ensures HandleSave(kind, "0.000", description, date, c) == Alert(InvalidAmount)
  {
    assert DeleteChar("0", '.') == "0";
    assert DeleteChar("0.000", '.') == "0000";
    assert "0000"[..3] == "000" && "000"[..2] == "00" && "00"[..1] == "0";
  }

  // ----- the type switch

  /** The part of the form state the type switch touches. */
  datatype Form = Form(kind: string, selectedCategory: Option<Category>)

  /** `onValueChange` of the type buttons: the new type, and no category chosen. */
  function ChangeType(f: Form, value: string): (r: Form)
    ensures r.kind == value && r.selectedCategory.None?
  {
    f.(kind := value, selectedCategory := None)
  }

  /** After a type switch, saving with a valid amount asks for a category. */
  lemma SaveAfterTypeChange(f: Form, value: string, amount: string, description: string, date: Calendar.Date)
    requires AllDigits(DeleteChar(amount, '.'))
    requires DeleteChar(amount, '.') != [] && DigitsValue(DeleteChar(amount, '.')) > 0
    ensures HandleSave(ChangeType(f, value).kind, amount, description, date, ChangeType(f, value).selectedCategory)
            == Alert(NoCategory)
  {
  }
}
