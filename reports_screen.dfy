/** The reports screen: the period selector's month and year navigation, and the order
    of the per-category breakdown of the monthly report. */
module ReportsScreen {
  import opened Seqs
  import opened SeqSums
  import opened Finance

  const Prev: string := "prev"

  /** The month after (any direction other than "prev") or before `(month, year)`;
      `month` is 1-based. */
  function StepMonth(month: int, year: int, direction: string): (int, int) {
    if direction == Prev then
      if month == 1 then (12, year - 1) else (month - 1, year)
    else
      if month == 12 then (1, year + 1) else (month + 1, year)
  }

  /** The year after (any direction other than "prev") or before `year`. */
  function StepYear(year: int, direction: string): int {
    year + (if direction == Prev then -1 else 1)
  }

  /** The selected period of the screen: `selectedMonth` (1-based) and `selectedYear`. */
  class PeriodSelector {
    var month: int
    var year: int

    predicate Valid()
      reads this
    {
      1 <= month <= 12
    }

    /** The initial state: the current month and year, `now` being the JavaScript
        `getMonth()` (0-based) and `getFullYear()` of the clock. */
    constructor (nowMonth: int, nowYear: int)
      requires 0 <= nowMonth < 12
      ensures Valid() && month == nowMonth + 1 && year == nowYear
    {
      month := nowMonth + 1;
      year := nowYear;
    }

    /** `changeMonth(direction)`. */
    method ChangeMonth(direction: string)
      requires Valid()
      modifies this
      ensures Valid()
      ensures (month, year) == StepMonth(old(month), old(year), direction)
    {
      if direction == Prev {
        if month == 1 {
          month := 12;
          year := year - 1;
        } else {
          month := month - 1;
        }
      } else {
        if month == 12 {
          month := 1;
          year := year + 1;
        } else {
          month := month + 1;
        }
      }
    }

    /** `changeYear(direction)`. */
    method ChangeYear(direction: string)
      requires Valid()
      modifies this
      ensures Valid()
      ensures month == old(month) && year == StepYear(old(year), direction)
    {
      year := year + (if direction == Prev then -1 else 1);
    }
  }

  /** A step keeps the month in 1..12; away from the year's ends it moves the month by one
      and keeps the year; at the ends it wraps into the neighbouring year. */
  lemma StepMonthCases(month: int, year: int, direction: string)
    requires 1 <= month <= 12
    ensures var (m, y) := StepMonth(month, year, direction); 1 <= m <= 12
    ensures direction != Prev && month == 12 ==> StepMonth(month, year, direction) == (1, year + 1)
    ensures direction == Prev && month == 1 ==> StepMonth(month, year, direction) == (12, year - 1)
    ensures direction != Prev && month < 12 ==> StepMonth(month, year, direction) == (month + 1, year)
    ensures direction == Prev && month > 1 ==> StepMonth(month, year, direction) == (month - 1, year)
  {
  }

  /** The position of a month on the line of months. */
  function MonthNumber(month: int, year: int): int {
    year * 12 + (month - 1)
  }

  /** "next" and "prev" move one month along the line of months, forward and backward. */
  lemma StepMonthMovesByOne(month: int, year: int, direction: string)
    requires 1 <= month <= 12
    ensures var (m, y) := StepMonth(month, year, direction);
      MonthNumber(m, y) == MonthNumber(month, year) + (if direction == Prev then -1 else 1)
  {
  }

  /** "next" then "prev", or "prev" then "next", comes back to the same month. */
  lemma StepMonthInverse(month: int, year: int)
    requires 1 <= month <= 12
    ensures var (m, y) := StepMonth(month, year, "next"); StepMonth(m, y, Prev) == (month, year)
    ensures var (m, y) := StepMonth(month, year, Prev); StepMonth(m, y, "next") == (month, year)
  {
  }

  /** Two calls on one selector: "next" then "prev" restores the selection. */
  method NextThenPrev(p: PeriodSelector)
    requires p.Valid()
    modifies p
    ensures p.Valid() && p.month == old(p.month) && p.year == old(p.year)
  {
    p.ChangeMonth("next");
    p.ChangeMonth(Prev);
    StepMonthInverse(old(p.month), old(p.year));
  }

  // ----- the category breakdown

  /** `categorySummary.sort((a, b) => b.amount - a.amount)`: largest amount first, a stable sort. */
  function Breakdown(cs: seq<CategorySummary>): seq<CategorySummary> {
    SortDesc(cs, SummaryAmount)
  }

  /** The breakdown lists every entry of the summary exactly as often, ordered by amount from
      largest to smallest, entries with equal amounts in summary order; its counts and
      amounts add up to the same totals. */
  lemma BreakdownCorrect(cs: seq<CategorySummary>)
    ensures multiset(Breakdown(cs)) == multiset(cs)
    ensures forall i, j :: 0 <= i < j < |Breakdown(cs)| ==> Breakdown(cs)[i].amount >= Breakdown(cs)[j].amount
    ensures forall a :: Filter(Breakdown(cs), KeyIs(SummaryAmount, a)) == Filter(cs, KeyIs(SummaryAmount, a))
    ensures SumOf(Breakdown(cs), SummaryCount) == SumOf(cs, SummaryCount)
    ensures SumOf(Breakdown(cs), SummaryAmount) == SumOf(cs, SummaryAmount)
  {
    SortDescCorrect(cs, SummaryAmount);
    var b := Breakdown(cs);
    forall i, j | 0 <= i < j < |b| ensures b[i].amount >= b[j].amount {
      assert SummaryAmount(b[i]) >= SummaryAmount(b[j]);
    }
    forall a ensures Filter(b, KeyIs(SummaryAmount, a)) == Filter(cs, KeyIs(SummaryAmount, a)) {
      SortDescStable(cs, SummaryAmount, a);
    }
    SumOfPermutation(b, cs, SummaryCount);
    SumOfPermutation(b, cs, SummaryAmount);
  }

  /** The breakdown of a month's statistics counts every month transaction once and adds
      up to the month's total amount. */
  lemma MonthlyBreakdownTotals(ts: seq<Transaction>, cats: seq<Category>)
    ensures SumOf(Breakdown(MonthSummary(ts, cats)), SummaryCount) == |ts|
    ensures SumOf(Breakdown(MonthSummary(ts, cats)), SummaryAmount) == SumOf(ts, Amount)
  {
    BreakdownCorrect(MonthSummary(ts, cats));
    MonthSummaryTotals(ts, cats);
  }
}
